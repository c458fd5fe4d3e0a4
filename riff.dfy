/** The RIFF navigation engine (src/riff.rs).

    A RIFF stream is a tree of nodes.  A chunk is a 4-byte id, a u32 payload
    size and the payload; a list is the magic `LIST`, a u32 size that also
    counts the 4-byte list-type tag, the tag, and the children.  A payload of
    odd size is followed by one pad byte.  The outermost node carries the
    magic `RIFF` instead of `LIST`.

    Navigation is offset arithmetic over one shared cursor: a list iterator
    remembers where its next child starts, seeks there before every read, and
    computes the following sibling from the declared size alone, whether or
    not anybody read the payload. */
module Riff {
  import opened Binary
  import opened Fourcc

  // ---------------------------------------------------------------------
  // Headers

  /** A chunk header: the id, then the payload size. */
  datatype Chunk = Chunk(chunkId: FourCC, size: U32) {
    function Id(): FourCC { chunkId }
    function DataSize(): U32 { size }
  }

  /** A list header after its magic: the size, then the list-type tag. */
  datatype List = List(size: U32, listId: FourCC) {
    function Id(): FourCC { listId }

    /** The list-type tag is part of the data but was read with the header.
        The source subtracts in u32 without a check, so the model asks for
        a size of at least 4. */
    function DataSize(): (n: U32)
      requires size >= 4
      ensures n + 4 == size
    {
      size - 4
    }
  }

  function DecodeChunk(s: seq<U8>): (r: Result<Parsed<Chunk>>)
    ensures r.Ok? <==> |s| >= 8
    ensures r.Ok? ==> r.value == Parsed(Chunk(New(s[..4]), LeU32(s[4..8])), s[8..])
  {
    var id :- ReadFourCC(s);
    var size :- ReadU32(id.rest);
    Ok(Parsed(Chunk(id.value, size.value), size.rest))
  }

  function DecodeList(s: seq<U8>): (r: Result<Parsed<List>>)
    ensures r.Ok? <==> |s| >= 8
    ensures r.Ok? ==> r.value == Parsed(List(LeU32(s[..4]), New(s[4..8])), s[8..])
  {
    var size :- ReadU32(s);
    var id :- ReadFourCC(size.rest);
    Ok(Parsed(List(size.value, id.value), id.rest))
  }

  /** The three header shapes, told apart by the first four bytes. */
  datatype HeaderType =
    | RiffTagged(list: List)
    | ListTagged(list: List)
    | ChunkTagged(chunk: Chunk)

  /** How many bytes a header occupies in the stream. */
  function HeaderLength(h: HeaderType): nat
  {
    if h.ChunkTagged? then 8 else 12
  }

  /** Decodes one header.  The variants are tried in their declared order,
      each from the same starting byte: magic `RIFF` then a list header,
      magic `LIST` then a list header, and otherwise a chunk header.  So a
      `RIFF` or `LIST` magic with fewer than 12 bytes available is read as a
      plain chunk whose id is that magic. */
  function DecodeHeaderType(s: seq<U8>): (r: Result<Parsed<HeaderType>>)
    ensures |s| >= 12 && s[..4] == RIFF_BYTES ==>
      r == Ok(Parsed(RiffTagged(List(LeU32(s[4..8]), New(s[8..12]))), s[12..]))
    ensures |s| >= 12 && s[..4] == LIST_BYTES ==>
      r == Ok(Parsed(ListTagged(List(LeU32(s[4..8]), New(s[8..12]))), s[12..]))
    ensures |s| >= 8 && !(|s| >= 12 && (s[..4] == RIFF_BYTES || s[..4] == LIST_BYTES)) ==>
      r == Ok(Parsed(ChunkTagged(Chunk(New(s[..4]), LeU32(s[4..8]))), s[8..]))
    ensures |s| < 8 ==> r == Err(NoVariantMatch)
    ensures r.Ok? ==> HeaderLength(r.value.value) <= |s| && r.value.rest == s[HeaderLength(r.value.value)..]
  {
    if |s| >= 4 && s[..4] == RIFF_BYTES && DecodeList(s[4..]).Ok? then
      var list := DecodeList(s[4..]).value;
      assert s[4..][..4] == s[4..8] && s[4..][4..8] == s[8..12] && s[4..][8..] == s[12..];
      Ok(Parsed(RiffTagged(list.value), list.rest))
    else if |s| >= 4 && s[..4] == LIST_BYTES && DecodeList(s[4..]).Ok? then
      var list := DecodeList(s[4..]).value;
      assert s[4..][..4] == s[4..8] && s[4..][4..8] == s[8..12] && s[4..][8..] == s[12..];
      Ok(Parsed(ListTagged(list.value), list.rest))
    else
      match DecodeChunk(s)
      case Ok(chunk) => Ok(Parsed(ChunkTagged(chunk.value), chunk.rest))
      case Err(_) => Err(NoVariantMatch)
  }

  lemma DecodeHeaderTypeConsumes()
    ensures Consumes(DecodeHeaderType)
  {
  }

  /** The header of a node: either kind, behind one id/data-size interface. */
  datatype Header = ChunkHeader(chunk: Chunk) | ListHeader(list: List) {
    /** The data size is defined: a list's size covers its tag. */
    predicate Sized() { ListHeader? ==> list.size >= 4 }

    function Id(): FourCC
    {
      match this
      case ChunkHeader(c) => c.Id()
      case ListHeader(l) => l.Id()
    }

    function DataSize(): U32
      requires Sized()
    {
      match this
      case ChunkHeader(c) => c.DataSize()
      case ListHeader(l) => l.DataSize()
    }
  }

  // ---------------------------------------------------------------------
  // Nodes

  /** A node: its header and the stream offset where its data starts. */
  datatype Riff = Riff(header: Header, dataStart: nat) {
    function Id(): FourCC { header.Id() }

    function DataSize(): U32
      requires header.Sized()
    {
      header.DataSize()
    }

    /** Whether one pad byte follows the data. */
    function DataPad(): (pad: U32)
      requires header.Sized()
      ensures pad <= 1
      ensures pad == 1 <==> DataSize() % 2 == 1
      ensures (DataSize() + pad) % 2 == 0
    {
      if DataSize() % 2 == 0 then 0 else 1
    }

    function Position(): nat { dataStart }
  }

  type RiffList = r: Riff | r.header.ListHeader? witness Riff(ListHeader(List(4, FourCC(0))), 12)
  type RiffChunk = r: Riff | r.header.ChunkHeader? witness Riff(ChunkHeader(Chunk(FourCC(0), 0)), 8)

  /** A child yielded by a list iterator. */
  datatype RiffType = ListNode(list: RiffList) | ChunkNode(chunk: RiffChunk) {
    function Node(): Riff
    {
      match this
      case ListNode(l) => l
      case ChunkNode(c) => c
    }

    function Id(): FourCC
    {
      match this
      case ListNode(l) => l.Id()
      case ChunkNode(c) => c.Id()
    }

    function DataSize(): U32
      requires Node().header.Sized()
    {
      match this
      case ListNode(l) => l.DataSize()
      case ChunkNode(c) => c.DataSize()
    }
  }

  /** All a node's accessors agree with its header: a chunk's data size is
      its declared size, a list's is the declared size less the tag, and
      the yielded child forwards id and data size to the node it wraps. */
  lemma NodeAccessors(n: RiffType)
    requires n.Node().header.Sized()
    ensures n.Id() == n.Node().header.Id() && n.DataSize() == n.Node().DataSize()
    ensures n.ChunkNode? ==> n.Id() == n.chunk.header.chunk.chunkId && n.DataSize() == n.chunk.header.chunk.size
    ensures n.ListNode? ==> n.Id() == n.list.header.list.listId && n.DataSize() + 4 == n.list.header.list.size
    ensures n.Node().Position() == n.Node().dataStart
  {
  }

  /** The source adds data size and pad in u32; the model asks that this
      does not wrap (it would only for a size of 0xFFFF_FFFF). */
  predicate InRange(h: Header)
  {
    h.Sized() && h.DataSize() + (h.DataSize() % 2) < 0x1_0000_0000
  }

  /** Where the sibling after a node starts: after its data and its pad. */
  function NextSibling(n: Riff): (p: nat)
    requires InRange(n.header)
    ensures p >= n.dataStart + n.DataSize()
    ensures p % 2 == (n.dataStart + n.DataSize() + n.DataSize() % 2) % 2
  {
    n.dataStart + n.DataSize() + n.DataPad()
  }

  // ---------------------------------------------------------------------
  // What a read at an offset produces

  /** The bytes a decoder starting at `from` may see when at most `limit`
      bytes are allowed: empty past the end of the stream. */
  function Window(data: seq<U8>, from: nat, limit: nat): (w: seq<U8>)
    ensures |w| <= limit
    ensures from + limit <= |data| ==> w == data[from..from + limit]
    ensures from <= |data| <= from + limit ==> w == data[from..]
    ensures from >= |data| ==> w == []
  {
    var lo := if from <= |data| then from else |data|;
    var hi := if from + limit <= |data| then from + limit else |data|;
    data[lo..hi]
  }

  /** The header bytes a decoder sees at `at` are the stream's bytes there. */
  lemma WindowHeader(data: seq<U8>, at: nat)
    ensures var w := Window(data, at, |data|);
      && (at + 8 <= |data| <==> |w| >= 8)
      && (at + 12 <= |data| <==> |w| >= 12)
      && (at + 8 <= |data| ==> w[..4] == data[at..at + 4] && w[4..8] == data[at + 4..at + 8])
      && (at + 12 <= |data| ==> w[8..12] == data[at + 8..at + 12])
  {
  }

  /** Where the cursor stands after a header read at `at`: after the header,
      or back at `at` when no header could be decoded. */
  function PosAfterHeader(data: seq<U8>, at: nat): nat
  {
    match DecodeHeaderType(Window(data, at, |data|))
    case Ok(p) => at + HeaderLength(p.value)
    case Err(_) => at
  }

  /** The child a list iterator reads at offset `at`. */
  function ChildAt(data: seq<U8>, at: nat): (r: Result<RiffType>)
    ensures at + 8 > |data| ==> r == Err(NoVariantMatch)
    ensures at + 12 <= |data| && data[at..at + 4] == RIFF_BYTES ==>
      r == Err(Custom(at + 12, "malformed RIFF file"))
    ensures at + 12 <= |data| && data[at..at + 4] == LIST_BYTES ==>
      r == Ok(ListNode(Riff(ListHeader(List(LeU32(data[at + 4..at + 8]), New(data[at + 8..at + 12]))), at + 12)))
    ensures at + 8 <= |data| && !(at + 12 <= |data| && (data[at..at + 4] == RIFF_BYTES || data[at..at + 4] == LIST_BYTES)) ==>
      r == Ok(ChunkNode(Riff(ChunkHeader(Chunk(New(data[at..at + 4]), LeU32(data[at + 4..at + 8]))), at + 8)))
    ensures r.Ok? ==> r.value.Node().dataStart == PosAfterHeader(data, at)
  {
    var w := Window(data, at, |data|);
    WindowHeader(data, at);
    match DecodeHeaderType(w)
    case Err(e) => Err(e)
    case Ok(p) =>
      var dataStart := at + HeaderLength(p.value);
      match p.value
      case ListTagged(l) => Ok(ListNode(Riff(ListHeader(l), dataStart)))
      case ChunkTagged(c) => Ok(ChunkNode(Riff(ChunkHeader(c), dataStart)))
      case RiffTagged(_) => Err(Custom(dataStart, "malformed RIFF file"))
  }

  /** ChildAt read off the decoded header, as a reader computes it. */
  lemma ChildAtHeader(data: seq<U8>, at: nat)
    ensures var d := DecodeHeaderType(Window(data, at, |data|));
      && (d.Err? ==> ChildAt(data, at) == Err(d.error))
      && (d.Ok? && d.value.value.ListTagged? ==>
            ChildAt(data, at) == Ok(ListNode(Riff(ListHeader(d.value.value.list), at + 12))))
      && (d.Ok? && d.value.value.ChunkTagged? ==>
            ChildAt(data, at) == Ok(ChunkNode(Riff(ChunkHeader(d.value.value.chunk), at + 8))))
      && (d.Ok? && d.value.value.RiffTagged? ==> ChildAt(data, at) == Err(Custom(at + 12, "malformed RIFF file")))
  {
  }

  /** The u32 preconditions of reading the child at `at`. */
  predicate ChildFits(data: seq<U8>, at: nat)
  {
    ChildAt(data, at).Ok? ==> InRange(ChildAt(data, at).value.Node().header)
  }

  /** Whether a list can be iterated: its size covers its tag, adding its
      data size and pad does not wrap in u32, and the u64 end test does not
      go below zero. */
  predicate Iterable(list: RiffList)
  {
    InRange(list.header) && list.dataStart + list.DataSize() + list.DataPad() >= 4
  }

  /** The iterator's end test compares the next position with this value.
      It is 4 less than where the list's data and pad end. */
  function EndMark(list: RiffList): (m: nat)
    requires Iterable(list)
    ensures m + 4 == list.dataStart + list.DataSize() + list.DataPad()
  {
    list.dataStart + list.DataSize() + list.DataPad() - 4
  }

  /** One advance of a list iterator whose next position is `at`: what it
      yields (nothing once the end test holds) and its next position. */
  function Step(data: seq<U8>, list: RiffList, at: nat): (r: (Option<Result<RiffType>>, nat))
    requires Iterable(list)
    requires at < EndMark(list) ==> ChildFits(data, at)
    ensures r.0.None? <==> at >= EndMark(list)
    ensures r.0.Some? ==> r.0.value == ChildAt(data, at)
    ensures r.0.Some? && r.0.value.Ok? ==> r.1 == NextSibling(r.0.value.value.Node())
    ensures !(r.0.Some? && r.0.value.Ok?) ==> r.1 == at
  {
    if at >= EndMark(list) then (None, at)
    else
      match ChildAt(data, at)
      case Ok(c) => (Some(Ok(c)), NextSibling(c.Node()))
      case Err(e) => (Some(Err(e)), at)
  }

  /** Every yielded child moves the iterator strictly forward, by at least
      the 8 bytes of a chunk header. */
  lemma {:induction false} StepAdvances(data: seq<U8>, list: RiffList, at: nat)
    requires Iterable(list)
    requires at < EndMark(list) ==> ChildFits(data, at)
    requires Step(data, list, at).0.Some? && Step(data, list, at).0.value.Ok?
    ensures Step(data, list, at).1 >= at + 8
  {
  }

  /** An error or an exhausted list leaves the iterator where it was, so the
      next advance reproduces it. */
  lemma StepRepeats(data: seq<U8>, list: RiffList, at: nat)
    requires Iterable(list)
    requires at < EndMark(list) ==> ChildFits(data, at)
    requires !(Step(data, list, at).0.Some? && Step(data, list, at).0.value.Ok?)
    ensures Step(data, list, Step(data, list, at).1) == Step(data, list, at)
  {
  }

  /** The size-only recomputation: a chunk of 5 data bytes at `at` moves the
      iterator to at + 14 (8 header, 5 data, 1 pad); one of 4 to at + 12. */
  lemma ChunkStride(data: seq<U8>, list: RiffList, at: nat)
    requires Iterable(list) && at < EndMark(list) && ChildFits(data, at)
    requires ChildAt(data, at).Ok? && ChildAt(data, at).value.ChunkNode?
    ensures ChildAt(data, at).value.DataSize() == 5 ==> Step(data, list, at).1 == at + 14
    ensures ChildAt(data, at).value.DataSize() == 4 ==> Step(data, list, at).1 == at + 12
  {
  }

  // ---------------------------------------------------------------------
  // The shared cursor

  /** The one seekable stream every node and iterator reads through,
      modelled on an in-memory cursor. */
  class Reader {
    const data: seq<U8>
    var pos: nat

    constructor (data: seq<U8>)
      ensures this.data == data && pos == 0
    {
      this.data := data;
      pos := 0;
    }

    /** Seeking from the start always succeeds, also past the end. */
    method Seek(p: nat)
      modifies this
      ensures pos == p
    {
      pos := p;
    }

    method StreamPosition() returns (p: nat)
      ensures p == pos
    {
      p := pos;
    }

    /** Fills the whole buffer or fails.  An empty buffer is always filled,
        wherever the cursor is.  A short read leaves the buffer as it was
        and the cursor at the end of the stream. */
    method ReadExact(buffer: array<U8>) returns (r: Result<()>)
      modifies this, buffer
      ensures r.Ok? <==> buffer.Length == 0 || old(pos) + buffer.Length <= |data|
      ensures r.Ok? ==> pos == old(pos) + buffer.Length
      ensures r.Ok? && buffer.Length > 0 ==> buffer[..] == data[old(pos)..old(pos) + buffer.Length]
      ensures r.Err? ==> r.error == UnexpectedEof && buffer[..] == old(buffer[..]) && pos == |data|
    {
      if buffer.Length > 0 && pos + buffer.Length > |data| {
        pos := |data|;
        return Err(UnexpectedEof);
      }
      forall i | 0 <= i < buffer.Length {
        buffer[i] := data[pos + i];
      }
      pos := pos + buffer.Length;
      return Ok(());
    }

    /** Decodes a record from the cursor, from at most `limit` bytes.  On
        success the cursor moves past what was decoded; on failure it is
        put back where the decode started. */
    method ReadRecord<T>(decode: seq<U8> -> Result<Parsed<T>>, limit: nat) returns (r: Result<T>)
      requires Consumes(decode)
      modifies this
      ensures var d := decode(Window(data, old(pos), limit));
        && (d.Ok? ==> r == Ok(d.value.value) && pos == old(pos) + |Window(data, old(pos), limit)| - |d.value.rest|)
        && (d.Err? ==> r == Err(d.error) && pos == old(pos))
    {
      var w := Window(data, pos, limit);
      var d := decode(w);
      if d.Err? {
        return Err(d.error);
      }
      pos := pos + |w| - |d.value.rest|;
      return Ok(d.value.value);
    }
  }

  // ---------------------------------------------------------------------
  // Iterating over a list's children

  class ListIter {
    const list: RiffList
    var nextPosition: nat

    ghost predicate Valid() { Iterable(list) }

    /** A fresh iterator starts at the list's first child. */
    constructor (list: RiffList)
      requires Iterable(list)
      ensures Valid() && this.list == list && nextPosition == list.dataStart
    {
      this.list := list;
      nextPosition := list.dataStart;
    }

    method Position() returns (p: nat)
      ensures p == nextPosition
    {
      p := nextPosition;
    }

    /** Seeks to the next position and reads one child.  A list or chunk
        moves the next position past its data and pad, before anybody reads
        that data; a nested `RIFF` header is an error; an error keeps the
        next position. */
    method ReadNext(reader: Reader) returns (r: Result<RiffType>)
      requires Valid() && ChildFits(reader.data, nextPosition)
      modifies this, reader
      ensures r == ChildAt(reader.data, old(nextPosition))
      ensures r.Ok? ==> nextPosition == NextSibling(r.value.Node())
      ensures r.Err? ==> nextPosition == old(nextPosition)
      ensures reader.pos == PosAfterHeader(reader.data, old(nextPosition))
    {
      reader.Seek(nextPosition);
      DecodeHeaderTypeConsumes();
      var header := reader.ReadRecord(DecodeHeaderType, |reader.data|);
      if header.Err? {
        return Err(header.error);
      }
      var dataStart := reader.StreamPosition();
      match header.value
      case ListTagged(listHeader) =>
        var child := Riff(ListHeader(listHeader), dataStart);
        assert ChildAt(reader.data, nextPosition) == Ok(ListNode(child));
        var span: U32 := child.DataSize() + child.DataPad();
        nextPosition := dataStart + span;
        r := Ok(ListNode(child));
      case ChunkTagged(chunkHeader) =>
        var child := Riff(ChunkHeader(chunkHeader), dataStart);
        assert ChildAt(reader.data, nextPosition) == Ok(ChunkNode(child));
        var span: U32 := child.DataSize() + child.DataPad();
        nextPosition := dataStart + span;
        r := Ok(ChunkNode(child));
      case RiffTagged(_) =>
        r := Err(Custom(dataStart, "malformed RIFF file"));
    }

    /** The iterator's advance: nothing once the next position reaches the
        end mark, a child read otherwise. */
    method Next(reader: Reader) returns (r: Option<Result<RiffType>>)
      requires Valid()
      requires nextPosition < EndMark(list) ==> ChildFits(reader.data, nextPosition)
      modifies this, reader
      ensures (r, nextPosition) == Step(reader.data, list, old(nextPosition))
      ensures r.None? ==> reader.pos == old(reader.pos)
      ensures r.Some? ==> reader.pos == PosAfterHeader(reader.data, old(nextPosition))
    {
      var end: nat := list.dataStart + (list.DataSize() + list.DataPad()) - 4;
      if nextPosition >= end {
        return None;
      }
      var item := ReadNext(reader);
      return Some(item);
    }
  }

  // ---------------------------------------------------------------------
  // The parser's operations

  /** The root list at `at`: the header must carry the `RIFF` magic. */
  function OpenRoot(data: seq<U8>, at: nat): (r: Result<RiffList>)
    ensures r.Ok? <==> at + 12 <= |data| && data[at..at + 4] == RIFF_BYTES
    ensures r.Ok? ==> r.value == Riff(ListHeader(List(LeU32(data[at + 4..at + 8]), New(data[at + 8..at + 12]))), at + 12)
    ensures at + 8 > |data| ==> r == Err(NoVariantMatch)
    ensures at + 8 <= |data| && r.Err? ==> r.error == Custom(0, "invalid RIFF file")
  {
    var w := Window(data, at, |data|);
    WindowHeader(data, at);
    match DecodeHeaderType(w)
    case Ok(Parsed(RiffTagged(l), _)) => Ok(Riff(ListHeader(l), at + 12))
    case Ok(_) => Err(Custom(0, "invalid RIFF file"))
    case Err(e) => Err(e)
  }

  /** Reads the root list from the cursor's current position. */
  method ReadRiff(reader: Reader) returns (r: Result<RiffList>)
    modifies reader
    ensures r == OpenRoot(reader.data, old(reader.pos))
    ensures reader.pos == PosAfterHeader(reader.data, old(reader.pos))
  {
    DecodeHeaderTypeConsumes();
    ghost var at := reader.pos;
    var header := reader.ReadRecord(DecodeHeaderType, |reader.data|);
    if header.Err? {
      return Err(header.error);
    }
    if !header.value.RiffTagged? {
      return Err(Custom(0, "invalid RIFF file"));
    }
    var dataStart := reader.StreamPosition();
    r := Ok(Riff(ListHeader(header.value.list), dataStart));
  }

  /** An iterator over a list's children. */
  method Chunks(list: RiffList) returns (it: ListIter)
    requires Iterable(list)
    ensures fresh(it) && it.Valid() && it.list == list && it.nextPosition == list.dataStart
  {
    it := new ListIter(list);
  }

  /** Reads the first buffer.Length bytes of a node's data into `buffer`.
      A buffer longer than the data is refused before the stream is touched.
      After the read, one more byte is consumed when the data size is odd;
      when the buffer is shorter than the data, that byte is a data byte. */
  method ReadData(reader: Reader, node: Riff, buffer: array<U8>) returns (r: Result<()>)
    requires node.header.Sized()
    modifies reader, buffer
    ensures buffer.Length > node.DataSize() ==>
      r == Err(AssertFail(node.dataStart, "buffer too large")) && reader.pos == old(reader.pos) && buffer[..] == old(buffer[..])
    ensures var end := node.dataStart + buffer.Length;
      buffer.Length <= node.DataSize() ==>
        && (buffer.Length > 0 && end > |reader.data| ==>
              r == Err(UnexpectedEof) && buffer[..] == old(buffer[..]) && reader.pos == |reader.data|)
        && (end <= |reader.data| ==> buffer[..] == reader.data[node.dataStart..end])
        && ((buffer.Length == 0 || end <= |reader.data|) && node.DataPad() == 0 ==> r.Ok? && reader.pos == end)
        && ((buffer.Length == 0 || end <= |reader.data|) && node.DataPad() == 1 && end < |reader.data| ==>
              r.Ok? && reader.pos == end + 1)
        && ((buffer.Length == 0 || end <= |reader.data|) && node.DataPad() == 1 && end >= |reader.data| ==>
              r == Err(UnexpectedEof) && reader.pos == |reader.data|)
  {
    var dataSize := node.DataSize();
    var dataPad := node.DataPad();
    if buffer.Length > dataSize {
      return Err(AssertFail(node.dataStart, "buffer too large"));
    }
    reader.Seek(node.dataStart);
    r := reader.ReadExact(buffer);
    if r.Err? {
      return;
    }
    if dataPad == 1 {
      var skip := new U8[1];
      r := reader.ReadExact(skip);
    }
  }

  /** The whole data of a node, as a fresh vector of exactly its data size. */
  method ReadDataVec(reader: Reader, node: Riff) returns (r: Result<seq<U8>>)
    requires node.header.Sized()
    modifies reader
    ensures var end := node.dataStart + node.DataSize();
      && (r.Ok? <==> node.DataSize() == 0 || end + node.DataPad() <= |reader.data|)
      && (r.Ok? ==> reader.pos == end + node.DataPad())
      && (r.Ok? && node.DataSize() == 0 ==> r.value == [])
      && (r.Ok? && node.DataSize() > 0 ==> r.value == reader.data[node.dataStart..end])
      && (r.Err? ==> r.error == UnexpectedEof && reader.pos == |reader.data|)
  {
    var buffer := new U8[node.DataSize()];
    var read := ReadData(reader, node, buffer);
    if read.Err? {
      return Err(read.error);
    }
    return Ok(buffer[..]);
  }

  /** Decodes a record from a chunk's data; the decoder sees no byte beyond
      the chunk's declared data size. */
  method ReadDataStruct<S>(reader: Reader, chunk: RiffChunk, decode: seq<U8> -> Result<Parsed<S>>)
    returns (r: Result<S>)
    requires Consumes(decode)
    modifies reader
    ensures var w := Window(reader.data, chunk.dataStart, chunk.DataSize());
      var d := decode(w);
      && (d.Ok? ==> r == Ok(d.value.value) && reader.pos == chunk.dataStart + |w| - |d.value.rest|)
      && (d.Err? ==> r == Err(d.error) && reader.pos == chunk.dataStart)
  {
    reader.Seek(chunk.dataStart);
    r := reader.ReadRecord(decode, chunk.DataSize());
  }
}
