/** Little-endian primitives shared by every record of the model.

    The repository delegates fixed little-endian layouts to a binary-record
    library (binrw).  This module stands in for it: fixed-width integers as
    subset types, the library's error and result types, and readers that take
    a value off the front of a byte sequence and return the bytes after it.
    Each reader has an encoder beside it and a lemma that reading back what
    was encoded gives the value and exactly the bytes that followed. */
module Binary {

  type U8 = x: int | 0 <= x < 0x100
  type U16 = x: int | 0 <= x < 0x1_0000
  type U32 = x: int | 0 <= x < 0x1_0000_0000
  type I16 = x: int | -0x8000 <= x < 0x8000
  type I32 = x: int | -0x8000_0000 <= x < 0x8000_0000

  /** The failures the readers can report. */
  datatype Error =
    /** The stream (or the window a decoder was given) ended inside a read. */
    | UnexpectedEof
    /** No variant of a tagged union parsed: an unknown magic, or a known
        magic followed by too few bytes. */
    | NoVariantMatch
    /** An error raised by the container code itself, with the stream position. */
    | Custom(pos: nat, message: string)
    /** A caller's request the container code refused, with the stream position. */
    | AssertFail(pos: nat, message: string)

  datatype Result<+T> = Ok(value: T) | Err(error: Error) {
    predicate IsFailure() { Err? }

    function PropagateFailure<U>(): Result<U>
      requires Err?
    {
      Err(error)
    }

    function Extract(): T
      requires Ok?
    {
      value
    }
  }

  datatype Option<+T> = None | Some(value: T)

  /** A decoded value and the bytes that follow it. */
  datatype Parsed<+T> = Parsed(value: T, rest: seq<U8>)

  /** A decoder never hands back more bytes than it was given, so the number
      of bytes it consumed is |s| - |rest|. */
  ghost predicate Consumes<T>(decode: seq<U8> -> Result<Parsed<T>>)
  {
    forall s :: decode(s).Ok? ==> |decode(s).value.rest| <= |s|
  }

  // ---------------------------------------------------------------------
  // Values of little-endian byte groups, and their encodings

  function LeU16(b: seq<U8>): (x: U16)
    requires |b| == 2
  {
    b[0] as int + 0x100 * (b[1] as int)
  }

  function LeU32(b: seq<U8>): (x: U32)
    requires |b| == 4
  {
    b[0] as int + 0x100 * (b[1] as int + 0x100 * (b[2] as int + 0x100 * (b[3] as int)))
  }

  function U16Le(x: U16): (b: seq<U8>)
    ensures |b| == 2
  {
    [x % 0x100, x / 0x100]
  }

  function U32Le(x: U32): (b: seq<U8>)
    ensures |b| == 4
  {
    [x % 0x100, (x / 0x100) % 0x100, (x / 0x1_0000) % 0x100, x / 0x100_0000]
  }

  /** Two's complement reinterpretation of 16 and 32 bits. */
  function AsI16(u: U16): I16 { if u < 0x8000 then u else u - 0x1_0000 }
  function I16Bits(x: I16): U16 { if x < 0 then x + 0x1_0000 else x }
  function AsI32(u: U32): I32 { if u < 0x8000_0000 then u else u - 0x1_0000_0000 }
  function I32Bits(x: I32): U32 { if x < 0 then x + 0x1_0000_0000 else x }

  lemma DivMod256(lo: int, hi: int)
    requires 0 <= lo < 0x100
    ensures (lo + 0x100 * hi) % 0x100 == lo
    ensures (lo + 0x100 * hi) / 0x100 == hi
  {
  }

  lemma LeU16OfU16Le(x: U16)
    ensures LeU16(U16Le(x)) == x
  {
  }

  lemma U16LeOfLeU16(b: seq<U8>)
    requires |b| == 2
    ensures U16Le(LeU16(b)) == b
  {
    DivMod256(b[0], b[1]);
  }

  lemma LeU32OfU32Le(x: U32)
    ensures LeU32(U32Le(x)) == x
  {
    var q1 := x / 0x100;
    var q2 := q1 / 0x100;
    assert x / 0x1_0000 == q2;
    assert x / 0x100_0000 == q2 / 0x100;
  }

  /** The byte groups and the 32-bit values are in one-to-one correspondence. */
  lemma U32LeOfLeU32(b: seq<U8>)
    requires |b| == 4
    ensures U32Le(LeU32(b)) == b
  {
    var x := LeU32(b);
    var h1 := b[1] as int + 0x100 * (b[2] as int + 0x100 * (b[3] as int));
    var h2 := b[2] as int + 0x100 * (b[3] as int);
    DivMod256(b[0], h1);
    DivMod256(b[1], h2);
    DivMod256(b[2], b[3]);
    assert x / 0x1_0000 == h2;
    assert x / 0x100_0000 == b[3];
  }

  lemma AsI16OfI16Bits(x: I16)
    ensures AsI16(I16Bits(x)) == x
  {
  }

  lemma AsI32OfI32Bits(x: I32)
    ensures AsI32(I32Bits(x)) == x
  {
  }

  // ---------------------------------------------------------------------
  // Readers: one field off the front of the input

  function ReadU8(s: seq<U8>): (r: Result<Parsed<U8>>)
    ensures r.Ok? <==> |s| >= 1
    ensures r.Ok? ==> r.value.rest == s[1..]
    ensures r.Err? ==> r.error == UnexpectedEof
  {
    if |s| < 1 then Err(UnexpectedEof) else Ok(Parsed(s[0], s[1..]))
  }

  function ReadU16(s: seq<U8>): (r: Result<Parsed<U16>>)
    ensures r.Ok? <==> |s| >= 2
    ensures r.Ok? ==> r.value.rest == s[2..]
    ensures r.Err? ==> r.error == UnexpectedEof
  {
    if |s| < 2 then Err(UnexpectedEof) else Ok(Parsed(LeU16(s[..2]), s[2..]))
  }

  function ReadU32(s: seq<U8>): (r: Result<Parsed<U32>>)
    ensures r.Ok? <==> |s| >= 4
    ensures r.Ok? ==> r.value.rest == s[4..]
    ensures r.Err? ==> r.error == UnexpectedEof
  {
    if |s| < 4 then Err(UnexpectedEof) else Ok(Parsed(LeU32(s[..4]), s[4..]))
  }

  // Writers, the readers' partners: a value's bytes in front of `rest`

  function PutU8(x: U8, rest: seq<U8>): seq<U8> { [x] + rest }
  function PutU16(x: U16, rest: seq<U8>): seq<U8> { U16Le(x) + rest }
  function PutU32(x: U32, rest: seq<U8>): seq<U8> { U32Le(x) + rest }

  // Round trips: each reader takes back exactly what its writer put

  lemma ReadU8Put(x: U8, rest: seq<U8>)
    ensures ReadU8(PutU8(x, rest)) == Ok(Parsed(x, rest))
  {
    assert ([x] + rest)[1..] == rest;
  }

  lemma ReadU16Put(x: U16, rest: seq<U8>)
    ensures ReadU16(PutU16(x, rest)) == Ok(Parsed(x, rest))
  {
    var s := PutU16(x, rest);
    assert s[..2] == U16Le(x);
    assert s[2..] == rest;
    LeU16OfU16Le(x);
  }

  lemma ReadU32Put(x: U32, rest: seq<U8>)
    ensures ReadU32(PutU32(x, rest)) == Ok(Parsed(x, rest))
  {
    var s := PutU32(x, rest);
    assert s[..4] == U32Le(x);
    assert s[4..] == rest;
    LeU32OfU32Le(x);
  }

  // ---------------------------------------------------------------------
  // Fixed layouts: a record is a run of 8-, 16- and 32-bit words read in
  // declaration order.  A record decoder reads its layout, then builds the
  // record from the words (reinterpreting signed fields, packing tags).

  datatype Width = Width8 | Width16 | Width32

  datatype Word = W8(b: U8) | W16(h: U16) | W32(w: U32) {
    function Width(): Width
    {
      match this
      case W8(_) => Width8
      case W16(_) => Width16
      case W32(_) => Width32
    }
  }

  function Octets(w: Width): nat
  {
    match w
    case Width8 => 1
    case Width16 => 2
    case Width32 => 4
  }

  /** The number of bytes a layout occupies. */
  function Size(layout: seq<Width>): nat
  {
    if layout == [] then 0 else Octets(layout[0]) + Size(layout[1..])
  }

  lemma {:induction false} SizeAppend(a: seq<Width>, b: seq<Width>)
    ensures Size(a + b) == Size(a) + Size(b)
  {
    if a != [] {
      assert (a + b)[1..] == a[1..] + b;
      SizeAppend(a[1..], b);
    } else {
      assert a + b == b;
    }
  }

  /** The layout a run of words fills. */
  function Shape(ws: seq<Word>): (l: seq<Width>)
    ensures |l| == |ws| && forall i :: 0 <= i < |ws| ==> l[i] == ws[i].Width()
  {
    seq(|ws|, i requires 0 <= i < |ws| => ws[i].Width())
  }

  function ReadWord(s: seq<U8>, w: Width): (r: Result<Parsed<Word>>)
    ensures r.Ok? <==> |s| >= Octets(w)
    ensures r.Ok? ==> r.value.value.Width() == w && r.value.rest == s[Octets(w)..]
    ensures r.Err? ==> r.error == UnexpectedEof
  {
    match w
    case Width8 => var x :- ReadU8(s); Ok(Parsed(W8(x.value), x.rest))
    case Width16 => var x :- ReadU16(s); Ok(Parsed(W16(x.value), x.rest))
    case Width32 => var x :- ReadU32(s); Ok(Parsed(W32(x.value), x.rest))
  }

  /** Reads the words of a layout one after the other; it fails, as a
      whole, exactly when the input is shorter than the layout. */
  function ReadWords(s: seq<U8>, layout: seq<Width>): (r: Result<Parsed<seq<Word>>>)
    ensures r.Ok? <==> |s| >= Size(layout)
    ensures r.Ok? ==> Shape(r.value.value) == layout && r.value.rest == s[Size(layout)..]
    ensures r.Err? ==> r.error == UnexpectedEof
  {
    if layout == [] then Ok(Parsed([], s))
    else
      var x :- ReadWord(s, layout[0]);
      var xs :- ReadWords(x.rest, layout[1..]);
      assert Shape([x.value] + xs.value) == layout;
      Ok(Parsed([x.value] + xs.value, xs.rest))
  }

  function PutWord(x: Word, rest: seq<U8>): (s: seq<U8>)
    ensures |s| == Octets(x.Width()) + |rest|
  {
    match x
    case W8(v) => PutU8(v, rest)
    case W16(v) => PutU16(v, rest)
    case W32(v) => PutU32(v, rest)
  }

  function PutWords(ws: seq<Word>, rest: seq<U8>): (s: seq<U8>)
    ensures |s| == Size(Shape(ws)) + |rest|
  {
    if ws == [] then rest
    else
      assert Shape(ws)[1..] == Shape(ws[1..]);
      PutWord(ws[0], PutWords(ws[1..], rest))
  }

  lemma ReadWordPut(x: Word, rest: seq<U8>)
    ensures ReadWord(PutWord(x, rest), x.Width()) == Ok(Parsed(x, rest))
  {
    match x
    case W8(v) => ReadU8Put(v, rest);
    case W16(v) => ReadU16Put(v, rest);
    case W32(v) => ReadU32Put(v, rest);
  }

  /** Reading a layout back from the words written in it gives the words and
      exactly the bytes that followed them. */
  lemma {:induction false} ReadWordsPut(ws: seq<Word>, rest: seq<U8>)
    ensures ReadWords(PutWords(ws, rest), Shape(ws)) == Ok(Parsed(ws, rest))
  {
    if ws != [] {
      var tail := PutWords(ws[1..], rest);
      var s := PutWord(ws[0], tail);
      assert PutWords(ws, rest) == s;
      var layout := Shape(ws);
      assert layout[0] == ws[0].Width() && layout[1..] == Shape(ws[1..]);
      ReadWordPut(ws[0], tail);
      ReadWordsPut(ws[1..], rest);
      assert ReadWord(s, layout[0]) == Ok(Parsed(ws[0], tail));
      assert [ws[0]] + ws[1..] == ws;
    }
  }

  lemma ConsAppend<T>(x: T, ys: seq<T>, zs: seq<T>)
    ensures [x] + (ys + zs) == ([x] + ys) + zs
  {
  }

  /** A layout's first word, then the words of the rest of it. */
  lemma ReadWordsCons(s: seq<U8>, a: seq<Width>)
    requires a != [] && |s| >= Size(a)
    ensures ReadWords(s, a).value.value
            == [ReadWord(s, a[0]).value.value] + ReadWords(s[Octets(a[0])..], a[1..]).value.value
  {
  }

  lemma AppendTail<T>(a: seq<T>, b: seq<T>)
    requires a != []
    ensures (a + b)[0] == a[0] && (a + b)[1..] == a[1..] + b
  {
  }

  /** Reading two layouts one after the other reads their concatenation:
      the words of the first, then those of the second from where the
      first ends. */
  lemma {:induction false} ReadWordsAppend(s: seq<U8>, a: seq<Width>, b: seq<Width>)
    requires |s| >= Size(a) + Size(b)
    ensures Size(a + b) == Size(a) + Size(b)
    ensures ReadWords(s, a + b).value.value
            == ReadWords(s, a).value.value + ReadWords(s[Size(a)..], b).value.value
    decreases |a|, 1
  {
    SizeAppend(a, b);
    if a == [] {
      assert a + b == b;
      assert s[Size(a)..] == s;
    } else {
      ReadWordsAppendCons(s, a, b);
    }
  }

  /** The inductive step of ReadWordsAppend, for a non-empty first layout. */
  lemma {:induction false} ReadWordsAppendCons(s: seq<U8>, a: seq<Width>, b: seq<Width>)
    requires |s| >= Size(a) + Size(b) && a != []
    ensures Size(a + b) == Size(a) + Size(b)
    ensures ReadWords(s, a + b).value.value
            == ReadWords(s, a).value.value + ReadWords(s[Size(a)..], b).value.value
    decreases |a|, 0
  {
    SizeAppend(a, b);
    var rest := s[Octets(a[0])..];
    assert rest[Size(a[1..])..] == s[Size(a)..];
    ReadWordsAppend(rest, a[1..], b);
    var w0 := ReadWord(s, a[0]).value.value;
    var wa := ReadWords(rest, a[1..]).value.value;
    var wb := ReadWords(s[Size(a)..], b).value.value;
    ReadWordsCons(s, a);
    AppendTail(a, b);
    ReadWordsCons(s, a + b);
    ConsAppend(w0, wa, wb);
  }

  /** The first |a| words read for a + b are the words read for a. */
  lemma ReadWordsPrefix(s: seq<U8>, a: seq<Width>, b: seq<Width>)
    requires |s| >= Size(a) + Size(b)
    ensures Size(a) + Size(b) == Size(a + b)
    ensures |ReadWords(s, a + b).value.value| >= |a|
    ensures ReadWords(s, a + b).value.value[..|a|] == ReadWords(s, a).value.value
  {
    ReadWordsAppend(s, a, b);
    var x := ReadWords(s, a).value.value;
    var y := ReadWords(s[Size(a)..], b).value.value;
    assert |x| == |a|;
    assert (x + y)[..|x|] == x;
  }

  /** Word i of a layout is the word of its width at the offset the words
      before it occupy. */
  lemma ReadWordsAt(s: seq<U8>, layout: seq<Width>, i: nat)
    requires |s| >= Size(layout) && i < |layout|
    ensures Size(layout[..i]) + Octets(layout[i]) <= |s|
    ensures ReadWords(s, layout).value.value[i] == ReadWord(s[Size(layout[..i])..], layout[i]).value.value
  {
    assert layout == layout[..i] + layout[i..];
    SizeAppend(layout[..i], layout[i..]);
    ReadWordsAppend(s, layout[..i], layout[i..]);
    assert layout[i..][0] == layout[i];
    ReadWordsCons(s[Size(layout[..i])..], layout[i..]);
  }
}
