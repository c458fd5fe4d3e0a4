/** Well-formed RIFF bytes and what the navigation engine makes of them.

    This module writes a list's children out the way the RIFF format lays
    them down (id or `LIST` magic, little-endian size, data, pad to an even
    offset) and proves that the list iterator of module Riff, run over those
    bytes, yields exactly those children in order, each at the offset where
    it was written, and then stops. */
module RiffLayout {
  import opened Binary
  import opened Fourcc
  import opened Riff

  /** One child as written: a chunk with its id and payload, or a nested
      list with its type tag and the bytes of its own children. */
  datatype Part = ChunkPart(id: Bytes4, payload: seq<U8>) | ListPart(listId: Bytes4, body: seq<U8>)

  /** The pad that brings `n` data bytes to an even length. */
  function Pad(n: nat): (p: seq<U8>)
    ensures |p| == n % 2
  {
    if n % 2 == 0 then [] else [0]
  }

  /** Whether four bytes spell `RIFF` or `LIST`, byte by byte. */
  predicate SpellsMagic(id: Bytes4)
  {
    || (id[0] == 0x52 && id[1] == 0x49 && id[2] == 0x46 && id[3] == 0x46)
    || (id[0] == 0x4C && id[1] == 0x49 && id[2] == 0x53 && id[3] == 0x54)
  }

  lemma SpellsMagicIff(id: Bytes4)
    ensures SpellsMagic(id) <==> id == RIFF_BYTES || id == LIST_BYTES
  {
  }

  /** A child the format allows: a chunk id that is no magic, and sizes
      that fit the u32 size field and the u32 size-plus-pad sum. */
  predicate WellFormed(p: Part)
  {
    match p
    case ChunkPart(id, payload) => !SpellsMagic(id) && |payload| < 0xFFFF_FFFF
    case ListPart(_, body) => |body| + 4 < 0x1_0000_0000
  }

  /** The children this module writes. */
  type Child = p: Part | WellFormed(p) witness ChunkPart([0, 0, 0, 0], [])

  /** The size field a child's header carries. */
  function DeclaredSize(p: Part): nat
  {
    match p
    case ChunkPart(_, payload) => |payload|
    case ListPart(_, body) => |body| + 4
  }

  function HeaderBytes(p: Child): (h: seq<U8>)
    ensures |h| == if p.ChunkPart? then 8 else 12
  {
    match p
    case ChunkPart(id, _) => id + U32Le(DeclaredSize(p))
    case ListPart(listId, _) => LIST_BYTES + U32Le(DeclaredSize(p)) + listId
  }

  function Data(p: Part): seq<U8>
  {
    match p
    case ChunkPart(_, payload) => payload
    case ListPart(_, body) => body
  }

  /** The bytes of one child: header, data, pad. */
  function Encode(p: Child): (e: seq<U8>)
    ensures |e| >= 8 && |e| % 2 == 0
  {
    HeaderBytes(p) + Data(p) + Pad(|Data(p)|)
  }

  /** The node the engine should report for `p` written at `at`. */
  function NodeOf(p: Child, at: nat): RiffType
  {
    match p
    case ChunkPart(id, payload) => ChunkNode(Riff(ChunkHeader(Chunk(New(id), |payload|)), at + 8))
    case ListPart(listId, body) => ListNode(Riff(ListHeader(List(|body| + 4, New(listId))), at + 12))
  }

  /** The children written one after the other. */
  function Body(parts: seq<Child>): seq<U8>
  {
    if |parts| == 0 then [] else Encode(parts[0]) + Body(parts[1..])
  }

  /** A whole RIFF stream: the root header with form type `formType`, then
      the children. */
  function EncodeRiff(formType: Bytes4, parts: seq<Child>): (e: seq<U8>)
    requires |Body(parts)| + 4 < 0x1_0000_0000
    ensures |e| == 12 + |Body(parts)|
  {
    RIFF_BYTES + U32Le(|Body(parts)| + 4) + formType + Body(parts)
  }

  // ---------------------------------------------------------------------
  // Helpers about slices

  /** The bytes `e` stand in `data` from `at` on. */
  predicate Within(data: seq<U8>, at: nat, e: seq<U8>)
  {
    at + |e| <= |data| && data[at..at + |e|] == e
  }

  lemma SliceOfSlice(data: seq<U8>, at: nat, e: seq<U8>, i: nat, j: nat)
    requires Within(data, at, e)
    requires i <= j <= |e|
    ensures data[at + i..at + j] == e[i..j]
  {
    assert forall t :: 0 <= t < j - i ==> data[at + i..at + j][t] == e[i..j][t];
  }

  lemma {:induction false} BodyEven(parts: seq<Child>)
    ensures |Body(parts)| % 2 == 0
  {
    if |parts| > 0 {
      BodyEven(parts[1..]);
      EvenSum(|Encode(parts[0])|, |Body(parts[1..])|);
    }
  }

  lemma EvenSum(a: nat, b: nat)
    requires a % 2 == 0 && b % 2 == 0
    ensures (a + b) % 2 == 0
  {
  }

  /** Two pieces standing together at `at` stand there one after the other. */
  lemma SplitAt(data: seq<U8>, at: nat, z: seq<U8>, x: seq<U8>, y: seq<U8>)
    requires z == x + y && Within(data, at, z)
    ensures |z| == |x| + |y|
    ensures Within(data, at, x)
    ensures Within(data, at + |x|, y)
  {
    SliceOfSlice(data, at, z, 0, |x|);
    SliceOfSlice(data, at, z, |x|, |x| + |y|);
    assert z[..|x|] == x && z[|x|..] == y;
  }

  // ---------------------------------------------------------------------
  // One child

  /** The header fields the engine reads at `at` when a chunk header with
      `id` and `size` stands there. */
  lemma ChunkHeaderAt(data: seq<U8>, at: nat, id: Bytes4, size: U32)
    requires at + 8 <= |data| && data[at..at + 4] == id && data[at + 4..at + 8] == U32Le(size)
    requires id != RIFF_BYTES && id != LIST_BYTES
    ensures ChildAt(data, at) == Ok(ChunkNode(Riff(ChunkHeader(Chunk(New(id), size)), at + 8)))
  {
    LeU32OfU32Le(size);
  }

  lemma ListHeaderAt(data: seq<U8>, at: nat, listId: Bytes4, size: U32)
    requires at + 12 <= |data| && data[at..at + 4] == LIST_BYTES
    requires data[at + 4..at + 8] == U32Le(size) && data[at + 8..at + 12] == listId
    ensures ChildAt(data, at) == Ok(ListNode(Riff(ListHeader(List(size, New(listId))), at + 12)))
  {
    LeU32OfU32Le(size);
    assert LIST_BYTES != RIFF_BYTES by {
      assert LIST_BYTES[0] != RIFF_BYTES[0];
    }
  }

  /** Where the parts of an encoded child lie in it. */
  lemma EncodeParts(p: Child)
    ensures var e := Encode(p); var h := |HeaderBytes(p)|;
      && e[..4] == HeaderBytes(p)[..4] && e[4..8] == U32Le(DeclaredSize(p))
      && (p.ListPart? ==> e[8..12] == p.listId)
      && e[h..h + |Data(p)|] == Data(p)
  {
    var e := Encode(p);
    var h := HeaderBytes(p);
    assert e == h + (Data(p) + Pad(|Data(p)|));
    assert e[..|h|] == h;
    assert e[|h|..|h| + |Data(p)|] == Data(p);
  }

  /** The bytes of `p` standing at `at` spell its header and data. */
  lemma PartFields(data: seq<U8>, at: nat, p: Child)
    requires Within(data, at, Encode(p))
    ensures data[at..at + 4] == HeaderBytes(p)[..4] && data[at + 4..at + 8] == U32Le(DeclaredSize(p))
    ensures p.ListPart? ==> data[at + 8..at + 12] == p.listId
    ensures var h := |HeaderBytes(p)|; data[at + h..at + h + |Data(p)|] == Data(p)
  {
    EncodeParts(p);
    HeaderFields(data, at, Encode(p), HeaderBytes(p), p);
    var h := |HeaderBytes(p)|;
    SliceOfSlice(data, at, Encode(p), h, h + |Data(p)|);
  }

  lemma HeaderFields(data: seq<U8>, at: nat, e: seq<U8>, h: seq<U8>, p: Child)
    requires Within(data, at, e) && |e| >= |h| >= 8
    requires e[..4] == h[..4] && e[4..8] == U32Le(DeclaredSize(p))
    requires p.ListPart? ==> |h| >= 12 && e[8..12] == p.listId
    ensures data[at..at + 4] == h[..4] && data[at + 4..at + 8] == U32Le(DeclaredSize(p))
    ensures p.ListPart? ==> data[at + 8..at + 12] == p.listId
  {
    SliceOfSlice(data, at, e, 0, 4);
    SliceOfSlice(data, at, e, 4, 8);
    if p.ListPart? {
      SliceOfSlice(data, at, e, 8, 12);
    }
  }

  /** A child written at `at` is read back as that child: the header fields
      are the ones written, its data starts right after the header, a
      nested list's data holds that list's body, and the next sibling
      starts where the child's bytes end. */
  lemma PartAt(data: seq<U8>, at: nat, p: Child)
    requires Within(data, at, Encode(p))
    ensures ChildAt(data, at) == Ok(NodeOf(p, at))
    ensures ChildFits(data, at)
    ensures NextSibling(NodeOf(p, at).Node()) == at + |Encode(p)|
    ensures var n := NodeOf(p, at).Node();
      data[n.dataStart..n.dataStart + n.DataSize()] == Data(p)
  {
    PartFields(data, at, p);
    PartHeader(data, at, p);
    PartNext(at, p);
    PartData(data, at, p);
  }

  lemma PartData(data: seq<U8>, at: nat, p: Child)
    requires Within(data, at, Encode(p))
    ensures var n := NodeOf(p, at).Node();
      data[n.dataStart..n.dataStart + n.DataSize()] == Data(p)
  {
    PartFields(data, at, p);
    PartNext(at, p);
  }

  lemma PartHeader(data: seq<U8>, at: nat, p: Child)
    requires at + |HeaderBytes(p)| <= |data|
    requires data[at..at + 4] == HeaderBytes(p)[..4] && data[at + 4..at + 8] == U32Le(DeclaredSize(p))
    requires p.ListPart? ==> data[at + 8..at + 12] == p.listId
    ensures ChildAt(data, at) == Ok(NodeOf(p, at))
  {
    match p
    case ChunkPart(id, payload) =>
      SpellsMagicIff(id);
      ChunkHeaderAt(data, at, id, |payload|);
    case ListPart(listId, body) =>
      ListHeaderAt(data, at, listId, |body| + 4);
  }

  lemma PartNext(at: nat, p: Child)
    ensures InRange(NodeOf(p, at).Node().header)
    ensures NextSibling(NodeOf(p, at).Node()) == at + |Encode(p)|
    ensures NodeOf(p, at).Node().dataStart == at + |HeaderBytes(p)|
    ensures NodeOf(p, at).Node().DataSize() == |Data(p)|
  {
  }

  // ---------------------------------------------------------------------
  // A list's children

  /** The children `parts` stand one after the other from `at` on. */
  predicate HoldsAt(data: seq<U8>, at: nat, parts: seq<Child>)
    decreases |parts|
  {
    if |parts| == 0 then at <= |data|
    else Within(data, at, Encode(parts[0])) && HoldsAt(data, at + |Encode(parts[0])|, parts[1..])
  }

  /** Where a list's data and pad end. */
  function ListEnd(list: RiffList): nat
    requires Iterable(list)
  {
    list.dataStart + list.DataSize() + list.DataPad()
  }

  /** The bytes of children written one after the other: the first
      child's, then the others'. */
  lemma BodyFirst(parts: seq<Child>)
    requires |parts| > 0
    ensures Body(parts) == Encode(parts[0]) + Body(parts[1..])
  {
  }

  lemma BodyLengthFirst(parts: seq<Child>)
    requires |parts| > 0
    ensures |Body(parts)| == |Encode(parts[0])| + |Body(parts[1..])|
  {
  }

  /** Data holding the bytes Body writes for `parts` holds those children,
      one after the other. */
  lemma {:induction false} BodyHolds(data: seq<U8>, at: nat, parts: seq<Child>)
    requires Within(data, at, Body(parts))
    ensures HoldsAt(data, at, parts)
    decreases |parts|
  {
    if |parts| > 0 {
      BodyFirst(parts);
      SplitAt(data, at, Body(parts), Encode(parts[0]), Body(parts[1..]));
      BodyHolds(data, at + |Encode(parts[0])|, parts[1..]);
    }
  }

  /** An iterator whose next position `at` is where child `p` was written,
      within the list, yields that child and moves to where its bytes end. */
  lemma ChildStep(data: seq<U8>, list: RiffList, at: nat, p: Child)
    requires Iterable(list) && at + |Encode(p)| <= ListEnd(list)
    requires Within(data, at, Encode(p))
    ensures at < EndMark(list) && ChildFits(data, at)
    ensures Step(data, list, at).0 == Some(Ok(NodeOf(p, at)))
    ensures Step(data, list, at).1 == at + |Encode(p)|
  {
    PartAt(data, at, p);
    StepAtChild(data, list, at, NodeOf(p, at), at + |Encode(p)|);
  }

  /** With no children left, the next position is the list's end and the
      iterator yields nothing and stays. */
  lemma EndStep(data: seq<U8>, list: RiffList, at: nat)
    requires Iterable(list) && at == ListEnd(list)
    ensures at >= EndMark(list) && Step(data, list, at).0 == None && Step(data, list, at).1 == at
  {
  }

  lemma StepAtChild(data: seq<U8>, list: RiffList, at: nat, c: RiffType, next: nat)
    requires Iterable(list) && at + 8 <= ListEnd(list)
    requires ChildAt(data, at) == Ok(c) && InRange(c.Node().header) && NextSibling(c.Node()) == next
    ensures at < EndMark(list) && ChildFits(data, at)
    ensures Step(data, list, at).0 == Some(Ok(c)) && Step(data, list, at).1 == next
  {
  }

  /** A nested list whose body was written from `sub` is iterable, and its
      data holds `sub` up to its end, so ChildStep applies to it in turn
      at every level of the tree. */
  lemma NestedHolds(data: seq<U8>, at: nat, p: Child, sub: seq<Child>)
    requires Within(data, at, Encode(p))
    requires p.ListPart? && p.body == Body(sub)
    ensures var c := NodeOf(p, at);
      && c.ListNode? && Iterable(c.list) && HoldsAt(data, c.list.dataStart, sub)
      && c.list.dataStart + |Body(sub)| == ListEnd(c.list)
  {
    PartData(data, at, p);
    PartNext(at, p);
    BodyEven(sub);
    assert Within(data, at + 12, Body(sub));
    BodyHolds(data, at + 12, sub);
  }

  /** Where the `k`-th of the children written from `at` starts. */
  function Offset(parts: seq<Child>, at: nat, k: nat): nat
    requires k <= |parts|
    decreases k
  {
    if k == 0 then at else Offset(parts[1..], at + |Encode(parts[0])|, k - 1)
  }

  /** The `k`-th child stands at its offset. */
  lemma {:induction false} HoldsIndex(data: seq<U8>, at: nat, parts: seq<Child>, k: nat)
    requires HoldsAt(data, at, parts) && k < |parts|
    ensures Within(data, Offset(parts, at, k), Encode(parts[k]))
    decreases k
  {
    if k > 0 {
      HoldsIndex(data, at + |Encode(parts[0])|, parts[1..], k - 1);
      assert parts[1..][k - 1] == parts[k];
    }
  }

  /** The offset after the `k`-th child is where its bytes end. */
  lemma {:induction false} OffsetStep(parts: seq<Child>, at: nat, k: nat)
    requires k < |parts|
    ensures Offset(parts, at, k + 1) == Offset(parts, at, k) + |Encode(parts[k])|
    decreases k
  {
    var next := at + |Encode(parts[0])|;
    assert Offset(parts, at, k + 1) == Offset(parts[1..], next, k);
    if k > 0 {
      OffsetStep(parts[1..], next, k - 1);
      assert Offset(parts, at, k) == Offset(parts[1..], next, k - 1);
      assert parts[1..][k - 1] == parts[k];
    }
  }

  /** Every offset up to the last one lies within the children's bytes. */
  lemma {:induction false} OffsetBound(parts: seq<Child>, at: nat, k: nat)
    requires k <= |parts|
    ensures Offset(parts, at, k) <= at + |Body(parts)|
    decreases k
  {
    if k > 0 {
      BodyLengthFirst(parts);
      OffsetBound(parts[1..], at + |Encode(parts[0])|, k - 1);
    }
  }

  /** Past the last child the offset is where the children's bytes end. */
  lemma {:induction false} OffsetEnd(parts: seq<Child>, at: nat)
    ensures Offset(parts, at, |parts|) == at + |Body(parts)|
    decreases |parts|
  {
    if |parts| > 0 {
      BodyLengthFirst(parts);
      OffsetEnd(parts[1..], at + |Encode(parts[0])|);
    }
  }

  /** A list iterator over data holding `parts` from `at` up to the list's
      end: the advance from the `k`-th offset yields the `k`-th child, as
      written at that offset, and moves to the next offset; the advance from
      the offset past the last child yields nothing. */
  lemma ListYields(data: seq<U8>, list: RiffList, at: nat, parts: seq<Child>)
    requires Iterable(list) && HoldsAt(data, at, parts) && at + |Body(parts)| == ListEnd(list)
    ensures forall k :: 0 <= k < |parts| ==>
      && Offset(parts, at, k) < EndMark(list) && ChildFits(data, Offset(parts, at, k))
      && Step(data, list, Offset(parts, at, k)).0 == Some(Ok(NodeOf(parts[k], Offset(parts, at, k))))
      && Step(data, list, Offset(parts, at, k)).1 == Offset(parts, at, k + 1)
    ensures Offset(parts, at, |parts|) >= EndMark(list)
    ensures Step(data, list, Offset(parts, at, |parts|)).0 == None
  {
    forall k | 0 <= k < |parts|
      ensures && Offset(parts, at, k) < EndMark(list) && ChildFits(data, Offset(parts, at, k))
              && Step(data, list, Offset(parts, at, k)).0 == Some(Ok(NodeOf(parts[k], Offset(parts, at, k))))
              && Step(data, list, Offset(parts, at, k)).1 == Offset(parts, at, k + 1)
    {
      HoldsIndex(data, at, parts, k);
      OffsetStep(parts, at, k);
      OffsetBound(parts, at, k + 1);
      ChildStep(data, list, Offset(parts, at, k), parts[k]);
    }
    OffsetEnd(parts, at);
    EndStep(data, list, Offset(parts, at, |parts|));
  }

  /** A whole stream written by EncodeRiff opens as a root list with the
      form type written and its data right after the 12-byte header. */
  lemma RootOpens(formType: Bytes4, parts: seq<Child>)
    requires |Body(parts)| + 4 < 0x1_0000_0000
    ensures OpenRoot(EncodeRiff(formType, parts), 0) == Ok(RootOf(formType, parts))
  {
    RootBytes(formType, parts);
    LeU32OfU32Le(|Body(parts)| + 4);
  }

  /** The root list EncodeRiff writes: its size covers the form type and
      the children's bytes. */
  function RootOf(formType: Bytes4, parts: seq<Child>): (r: RiffList)
    requires |Body(parts)| + 4 < 0x1_0000_0000
    ensures Iterable(r) && r.dataStart == 12 && 12 + |Body(parts)| == ListEnd(r)
  {
    BodyEven(parts);
    Riff(ListHeader(List(|Body(parts)| + 4, New(formType))), 12)
  }

  /** The root's data holds exactly the children written. */
  lemma RootHolds(formType: Bytes4, parts: seq<Child>)
    requires |Body(parts)| + 4 < 0x1_0000_0000
    ensures HoldsAt(EncodeRiff(formType, parts), 12, parts)
  {
    RootBytes(formType, parts);
    BodyHolds(EncodeRiff(formType, parts), 12, parts);
  }

  lemma RootBytes(formType: Bytes4, parts: seq<Child>)
    requires |Body(parts)| + 4 < 0x1_0000_0000
    ensures var data := EncodeRiff(formType, parts);
      && data[0..4] == RIFF_BYTES && data[4..8] == U32Le(|Body(parts)| + 4) && data[8..12] == formType
      && data[12..12 + |Body(parts)|] == Body(parts)
  {
    var data := EncodeRiff(formType, parts);
    var header := RIFF_BYTES + U32Le(|Body(parts)| + 4) + formType;
    assert data == header + Body(parts);
    assert data[12..12 + |Body(parts)|] == Body(parts);
    assert data[..12] == header;
    assert header[0..4] == RIFF_BYTES && header[4..8] == U32Le(|Body(parts)| + 4) && header[8..12] == formType;
  }

  /** Iterating the root of a stream written by EncodeRiff, from its data
      start, yields exactly the children written, each at its own offset,
      and then nothing. */
  lemma RiffYields(formType: Bytes4, parts: seq<Child>)
    requires |Body(parts)| + 4 < 0x1_0000_0000
    ensures var data := EncodeRiff(formType, parts);
      && OpenRoot(data, 0).Ok? && Iterable(OpenRoot(data, 0).value)
      && OpenRoot(data, 0).value.dataStart == 12
      && (forall k :: 0 <= k < |parts| ==>
            && ChildFits(data, Offset(parts, 12, k))
            && Step(data, OpenRoot(data, 0).value, Offset(parts, 12, k)).0 == Some(Ok(NodeOf(parts[k], Offset(parts, 12, k))))
            && Step(data, OpenRoot(data, 0).value, Offset(parts, 12, k)).1 == Offset(parts, 12, k + 1))
      && Offset(parts, 12, |parts|) >= EndMark(OpenRoot(data, 0).value)
      && Step(data, OpenRoot(data, 0).value, Offset(parts, 12, |parts|)).0 == None
  {
    var data := EncodeRiff(formType, parts);
    RootOpens(formType, parts);
    RootHolds(formType, parts);
    ListYields(data, RootOf(formType, parts), 12, parts);
  }
}
