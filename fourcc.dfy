/** Four-character codes (src/fourcc.rs).

    A FourCC is four raw bytes packed into a 32-bit value in little-endian
    order; two FourCCs are equal exactly when their raw values are.  Every
    RIFF header id and every AVI tag is one. */
module Fourcc {
  import opened Binary

  /** The `[u8; 4]` arrays the constructor takes. */
  type Bytes4 = s: seq<U8> | |s| == 4 witness [0, 0, 0, 0]

  /** The packed tag.  Dafny's datatype equality compares the one field, the
      raw value, as the derived equality does. */
  datatype FourCC = FourCC(value: U32) {

    /** The raw value behind the tag (the `Deref` to u32). */
    function Deref(): (v: U32)
      ensures v == value
    {
      value
    }
  }

  /** The four bytes of an ASCII string of length four. */
  function Ascii4(s: string): (b: Bytes4)
    requires |s| == 4
    requires forall i :: 0 <= i < 4 ==> s[i] as int < 0x100
    ensures forall i :: 0 <= i < 4 ==> b[i] == s[i] as int
  {
    [s[0] as int, s[1] as int, s[2] as int, s[3] as int]
  }

  /** Packs four bytes, the first one least significant. */
  function New(bytes: Bytes4): (f: FourCC)
    ensures f.value == bytes[0] as int + 0x100 * (bytes[1] as int) + 0x1_0000 * (bytes[2] as int)
                       + 0x100_0000 * (bytes[3] as int)
    ensures U32Le(f.value) == bytes
  {
    U32LeOfLeU32(bytes);
    FourCC(LeU32(bytes))
  }

  /** The conversion from a byte array; it is the constructor. */
  function From(bytes: Bytes4): (f: FourCC)
    ensures f == New(bytes)
  {
    New(bytes)
  }

  /** The bytes a tag was packed from. */
  function Bytes(f: FourCC): (b: Bytes4)
    ensures New(b) == f
  {
    LeU32OfU32Le(f.value);
    U32Le(f.value)
  }

  /** Reading a tag from a stream reads a little-endian u32. */
  function ReadFourCC(s: seq<U8>): (r: Result<Parsed<FourCC>>)
    ensures r.Ok? <==> |s| >= 4
    ensures r.Ok? ==> r.value == Parsed(New(s[..4]), s[4..])
  {
    var u :- ReadU32(s);
    Ok(Parsed(FourCC(u.value), u.rest))
  }

  const RIFF_BYTES: Bytes4 := Ascii4("RIFF")
  const LIST_BYTES: Bytes4 := Ascii4("LIST")

  const RIFF: FourCC := New(RIFF_BYTES)
  const LIST: FourCC := New(LIST_BYTES)

  /** Distinct byte arrays give distinct tags. */
  lemma NewInjective(a: Bytes4, b: Bytes4)
    ensures New(a) == New(b) <==> a == b
  {
    if New(a) == New(b) {
      assert a == U32Le(New(a).value) == U32Le(New(b).value) == b;
    }
  }

  /** Tags compare by their raw values. */
  lemma EqualIffSameValue(a: FourCC, b: FourCC)
    ensures a == b <==> a.Deref() == b.Deref()
  {
  }

  /** A tag's bytes in front of `rest`. */
  function PutFourCC(f: FourCC, rest: seq<U8>): seq<U8> { Bytes(f) + rest }

  /** Reading a tag back from its bytes gives the tag and the bytes after it. */
  lemma ReadFourCCPut(f: FourCC, rest: seq<U8>)
    ensures ReadFourCC(PutFourCC(f, rest)) == Ok(Parsed(f, rest))
  {
    assert (Bytes(f) + rest)[..4] == Bytes(f);
    assert (Bytes(f) + rest)[4..] == rest;
  }

  /** Four bytes in a stream spell a tag exactly when the tag read from them
      is that tag: comparing magic bytes and comparing FourCCs agree. */
  lemma BytesMatchIffTagMatches(s: seq<U8>, t: Bytes4)
    requires |s| >= 4
    ensures ReadFourCC(s).value.value == New(t) <==> s[..4] == t
  {
    NewInjective(s[..4], t);
  }

  lemma RiffIsNotList()
    ensures RIFF != LIST
  {
    NewInjective(RIFF_BYTES, LIST_BYTES);
  }
}
