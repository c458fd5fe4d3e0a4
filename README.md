# riffparse in Dafny

A model of the read-only RIFF decoder of the `riffparse` crate and of the
AVI record layouts built on it, with proofs about both.

RIFF (the Resource Interchange File Format of the Microsoft/IBM *Multimedia
Programming Interface and Data Specifications 1.0*) stores a tree of nodes.
A **chunk** is a four-character id, a little-endian u32 payload size and the
payload. A **list** is the magic `LIST`, a u32 size that also counts a
4-byte list-type tag, the tag, and then the children. The outermost list
carries the magic `RIFF`. A payload of odd size is followed by one pad byte.

The model has five modules, one file each:

- `Binary` (`binary.dfy`) stands in for the byte layer the crate gets from
  `binrw` and the standard library. It has the little-endian u16/u32
  packings, the signed reinterpretations, the `Result`/`Error` type,
  decoders that return the value and the bytes left over, and a generic
  layout engine. A layout is a list of field widths; `ReadWords`/`PutWords`
  read and write one, and `ReadWordsPut` proves the round trip once for all
  records.
- `Fourcc` (`fourcc.dfy`): `FourCC`, four bytes packed into a u32 with the
  first byte lowest, plus the `RIFF` and `LIST` tags.
- `Riff` (`riff.dfy`): the navigation engine.
  - It covers header discrimination, the size and pad arithmetic, and the
    nodes.
  - A `Reader` class models a `std::io::Cursor` over the stream: seek,
    stream position, `read_exact`, and a decode that rewinds on failure.
  - A `ListIter` class has a mutable `nextPosition`.
  - It covers `riff()`, `chunks()` and the three payload reads.
  - Each method is proved against a function: `ChildAt` is the child read
    at an offset, `Step` is one advance of the iterator, and `OpenRoot` is
    the root header read.
- `RiffLayout` (`riff_layout.dfy`) is the partner of the iterator. It writes
  chunks and nested lists as the format lays them down: header, data, pad.
  It then proves that the iterator, run over those bytes, does two things.
  The advance from each child's offset yields exactly that child and moves
  to the next child's offset. The advance from the end yields nothing.
  Nested lists satisfy the same hypothesis again, so the result applies at
  every level.
- `Avi` (`avi.dfy`) covers three things:
  - the AVI tags and the synthesis of `NNxx` sample ids;
  - a decoder for each fixed record (`AviMainHeader`, `AviStreamHeader`,
    `Frame`, `BitmapInfo`, `BitmapInfoHeader`, `RgbQuad`, `WaveFormatEx`,
    `WaveFormatExtensible`, `Guid`, `Mpeg1WaveFormat`, `Mp3WaveFormat`),
    each with a writer and a decode-after-write round trip;
  - the `WaveFormat` union, dispatched on its leading u16.

Where the chunk rules of the Multimedia Programming Interface and Data
Specifications 1.0 and the code differ, the model follows the code:

- No check keeps a child inside its parent. A child whose declared size
  runs past its list's end is still yielded, and the next position is
  computed from that declared size.
- The iterator's end test subtracts 4 from the list's data end
  (src/riff.rs:243-245), and it is modelled with that subtraction.
- A `RIFF` or `LIST` magic with only 8 to 11 bytes left is read as a plain
  chunk with that id. This is because the header variants are tried in
  order and the first two fail for lack of bytes.
- `read_data` with a buffer shorter than an odd-sized payload consumes one
  more byte after the buffer. That byte is a data byte, not the pad.

## Model

| member | source | states |
|---|---|---|
| Fourcc.New | src/fourcc.rs:16-18 | the packed value is b0 + 2^8·b1 + 2^16·b2 + 2^24·b3, and its four little-endian bytes are the input bytes |
| Fourcc.NewInjective | src/fourcc.rs:16-18 | two byte arrays give the same tag exactly when they are equal |
| Fourcc.EqualIffSameValue | src/fourcc.rs:11-13 | two tags are equal exactly when their raw u32 values are |
| Fourcc.From | src/fourcc.rs:29-33 | the conversion from a byte array gives the same tag as the constructor |
| Fourcc.FourCC.Deref | src/fourcc.rs:21-27 | the dereference yields the raw u32 unchanged |
| Fourcc.Bytes | src/fourcc.rs:16-18 | the bytes returned pack back to the same tag |
| Fourcc.ReadFourCC | src/fourcc.rs:11-13 | reading a tag succeeds exactly when four bytes are there; it yields the constructor applied to them and leaves the rest |
| Fourcc.ReadFourCCPut | src/fourcc.rs:11-13 | reading a tag back from its bytes gives the tag and the bytes after it |
| Fourcc.BytesMatchIffTagMatches | src/fourcc.rs:7-13 | four stream bytes read as a tag equal a constant tag exactly when the bytes equal that constant's bytes |
| Fourcc.RiffIsNotList | src/fourcc.rs:7-8 | the `RIFF` and `LIST` tags differ |
| Binary.LeU32OfU32Le | src/fourcc.rs:17 | unpacking the four little-endian bytes of a u32 gives the u32 back |
| Binary.U32LeOfLeU32 | src/fourcc.rs:17 | packing four bytes and unpacking the result gives the same bytes |
| Binary.ReadU32Put | src/riff.rs:113-117 | reading a u32 back from its little-endian bytes gives it and the bytes after it |
| Binary.ReadWordsPut | src/avi.rs:35-37 | reading a field layout back from the bytes written for values of that layout gives the values and the bytes after them |
| Riff.DecodeChunk | src/riff.rs:113-117 | a chunk header decodes exactly when 8 bytes are there: the id from the first four, the size from the next four, and it leaves the rest |
| Riff.DecodeList | src/riff.rs:129-133 | a list header decodes exactly when 8 bytes are there: the size first, then the list-type tag |
| Riff.DecodeHeaderType | src/riff.rs:146-154 | with 12 bytes and magic `RIFF`, or `LIST`, it gives that list variant and consumes 12 bytes. With 8 bytes and no such case, it gives a chunk whose id is the first four bytes and consumes 8. Fewer than 8 bytes is the no-variant error |
| Riff.List.DataSize | src/riff.rs:140-143 | a list's data size is its declared size less the 4-byte tag |
| Riff.Riff.DataPad | src/riff.rs:167-173 | the pad is 0 or 1; it is 1 exactly when the data size is odd; data size plus pad is even |
| Riff.NodeAccessors | src/riff.rs:92-106 | a node's id and data size are its variant's: the chunk's id and size, or the list's tag and size less 4; its position is its data start |
| Riff.NextSibling | src/riff.rs:218-219 | the sibling starts after the node's data, at the even-aligned end of data plus pad |
| Riff.Window | src/riff.rs:53-54 | a decoder limited to `limit` bytes from an offset sees exactly the stream's bytes there, up to the limit or the end, and nothing past the end |
| Riff.ChildAt | src/riff.rs:207-236 | it shows what reading at an offset yields. Magic `LIST` with 12 bytes gives a list node whose data starts 12 bytes on. Magic `RIFF` with 12 bytes gives the malformed error at offset + 12. Anything else with 8 bytes gives a chunk node whose data starts 8 bytes on. Fewer than 8 bytes gives the header-read error |
| Riff.EndMark | src/riff.rs:243-245 | the end test's bound is 4 less than the list's data start plus data size plus pad |
| Riff.Step | src/riff.rs:242-251 | an advance yields nothing exactly when the next position is at or past the end bound. Otherwise it yields the child read there. After a child it moves to that child's next sibling; after nothing or an error it stays |
| Riff.StepAdvances | src/riff.rs:216-226 | every yielded child moves the next position forward by at least 8 |
| Riff.StepRepeats | src/riff.rs:228-234 | after an error or the end, the next advance yields the same thing again from the same position |
| Riff.ChunkStride | src/riff.rs:222-226 | a 5-byte chunk at p moves the next position to p + 14, and a 4-byte chunk to p + 12 |
| Riff.OpenRoot | src/riff.rs:24-38 | the root opens exactly when 12 bytes are there with magic `RIFF`. It gives a list of that size and tag whose data starts 12 bytes on. Any other header is the custom error at position 0, and fewer than 8 bytes is the header-read error |
| Riff.Reader.constructor | src/riff.rs:17-22 | a reader over a stream starts at position 0 |
| Riff.Reader.Seek | src/riff.rs:74-76 | seeking moves the cursor to the given position, even past the end |
| Riff.Reader.StreamPosition | src/riff.rs:36 | the stream position is the cursor |
| Riff.Reader.ReadExact | src/riff.rs:77 | it succeeds exactly when the buffer is empty or enough bytes follow the cursor. It then fills the buffer with the bytes at the cursor and advances past them; an empty read never moves the cursor, even past the end. Otherwise it fails with the end-of-file error, leaves the buffer as it was and moves the cursor to the end |
| Riff.Reader.ReadRecord | src/riff.rs:53-54 | decodes from the window at the cursor; on success the cursor moves past what was decoded, on failure it is left where the decode started |
| Riff.ReadRiff | src/riff.rs:24-38 | the root read is OpenRoot at the cursor; the cursor ends after the header or, on a failed read, where it was |
| Riff.Chunks | src/riff.rs:40-42 | a fresh iterator over the list whose next position is the list's data start |
| Riff.ListIter.constructor | src/riff.rs:195-201 | a new iterator's next position is the list's data start |
| Riff.ListIter.Position | src/riff.rs:203-205 | the position reported is the next position |
| Riff.ListIter.ReadNext | src/riff.rs:207-236 | the result is ChildAt at the old next position. After a child, the next position is that child's next sibling; after an error it is unchanged. The cursor ends just after the header read |
| Riff.ListIter.Next | src/riff.rs:242-251 | the result and the new next position are Step at the old next position; at the end the cursor is untouched |
| Riff.ReadData | src/riff.rs:64-83 | a buffer longer than the data size is refused with the error at data start, and nothing moves. Otherwise the buffer receives the stream's bytes from data start, and one more byte is consumed when the data size is odd. A non-empty buffer running past the stream, or that extra byte lying at or past its end, gives the end-of-file error; an empty buffer with an even data size succeeds wherever the data starts |
| Riff.ReadDataVec | src/riff.rs:57-62 | it succeeds exactly when the data size is 0 or data and pad fit in the stream. It yields exactly the node's data bytes (none for size 0), and the cursor ends after the pad |
| Riff.ReadDataStruct | src/riff.rs:44-55 | the decoder sees only the chunk's data, cut at its declared size; the result and the cursor are those of that decode |
| RiffLayout.PartAt | src/riff.rs:212-226 | a child written as header, data and pad at an offset is read back there as exactly that node. Its next sibling is where its bytes end, and its data slice is the data written |
| RiffLayout.ChildStep | src/riff.rs:242-251 | an advance from where a child was written, inside the list, yields that child and moves to where its bytes end |
| RiffLayout.EndStep | src/riff.rs:243-247 | an advance from the list's data end yields nothing and stays |
| RiffLayout.BodyHolds | src/riff.rs:216-226 | bytes holding the concatenated children hold each child in turn, one after the other |
| RiffLayout.HoldsIndex | src/riff.rs:216-226 | the k-th child written stands at the k-th offset |
| RiffLayout.OffsetStep | src/riff.rs:216-226 | the offset after the k-th child is the k-th offset plus that child's length |
| RiffLayout.ListYields | src/riff.rs:207-251 | over a list holding the written children up to its end, the advance from the k-th offset yields the k-th child at that offset and moves to the (k+1)-th offset; from the offset after the last child it yields nothing |
| RiffLayout.NestedHolds | src/riff.rs:216-220 | a nested list written from children is iterable, and holds exactly those children from its data start to its end, so ListYields applies to it too |
| RiffLayout.RootOpens | src/riff.rs:24-38 | a stream written as a `RIFF` header and children opens as a root list with the form type written and its data 12 bytes on |
| RiffLayout.RootHolds | src/riff.rs:24-38 | the root's data holds exactly the children written |
| RiffLayout.RiffYields | src/riff.rs:24-42 | from the root's data start, the iterator yields the written children in order, each at its own offset, and then nothing |
| Avi.TagValues | src/avi.rs:5-19 | the tags' raw values are their four ASCII characters packed first-lowest |
| Avi.Stream | src/avi.rs:21-31 | the id's first two bytes are ASCII digits; read as a number they give the index clamped to 99; its last two bytes are the kind code |
| Avi.StreamClamps | src/avi.rs:22-24 | every index above 99 gives the id of index 99 |
| Avi.StreamInjective | src/avi.rs:21-31 | for indices up to 99, two ids are equal exactly when the indices and the kind codes are |
| Avi.StreamExamples | src/avi.rs:16-31 | stream 0 compressed video is `00dc`, stream 1 audio is `01wb`, stream 123 uncompressed video is `99db` |
| Avi.AviMainHeaderSize | src/avi.rs:37-49 | the main header layout is 56 bytes |
| Avi.DecodeAviMainHeader | src/avi.rs:34-49 | it decodes exactly when 56 bytes are there, consuming 56; otherwise it gives the end-of-file error |
| Avi.DecodeAviMainHeaderPut | src/avi.rs:34-49 | decoding the bytes written for a main header gives it back and the bytes after it |
| Avi.AviMainHeaderStreamsAt | src/avi.rs:44 | `streams` is the u32 at offset 24 |
| Avi.FrameSize | src/avi.rs:73-78 | a frame is 8 bytes |
| Avi.DecodeFrame | src/avi.rs:71-78 | it decodes exactly when 8 bytes are there, consuming 8, as four i16 |
| Avi.DecodeFramePut | src/avi.rs:71-78 | decoding the bytes written for a frame gives it back and the bytes after it |
| Avi.AviStreamHeaderSize | src/avi.rs:54-69 | the stream header layout is 56 bytes |
| Avi.DecodeAviStreamHeader | src/avi.rs:51-69 | it decodes exactly when 56 bytes are there, consuming 56; otherwise it gives the end-of-file error |
| Avi.DecodeAviStreamHeaderPut | src/avi.rs:51-69 | decoding the bytes written for a stream header gives it back and the bytes after it |
| Avi.AviStreamHeaderFieldsAt | src/avi.rs:55-58 | `fcc_type` is the tag at offset 0 and `priority` the u16 at offset 12 |
| Avi.AviStreamHeaderFrameAt | src/avi.rs:68 | `frame` is the frame decoded from offset 48 |
| Avi.BitmapInfoHeaderSize | src/avi.rs:91-103 | the bitmap info header is 40 bytes |
| Avi.DecodeBitmapInfoHeader | src/avi.rs:88-103 | it decodes exactly when 40 bytes are there, consuming 40 |
| Avi.DecodeBitmapInfoHeaderPut | src/avi.rs:88-103 | decoding the bytes written for a bitmap info header gives it back and the bytes after it |
| Avi.DecodeRgbQuad | src/avi.rs:105-113 | it decodes exactly when 4 bytes are there, consuming 4 |
| Avi.DecodeRgbQuadPut | src/avi.rs:105-113 | decoding the bytes written for a colour gives it back and the bytes after it |
| Avi.BitmapInfoSize | src/avi.rs:83-86 | bitmap info is 44 bytes |
| Avi.DecodeBitmapInfo | src/avi.rs:80-86 | it decodes exactly when 44 bytes are there, consuming 44 |
| Avi.DecodeBitmapInfoPut | src/avi.rs:80-86 | decoding the bytes written for bitmap info gives it back and the bytes after it |
| Avi.BitmapInfoPartsAt | src/avi.rs:83-86 | bitmap info is the 40-byte header followed by the colour at offset 40 |
| Avi.DecodeWaveFormatEx | src/avi.rs:129-138 | it decodes exactly when 16 bytes are there, consuming 16 |
| Avi.DecodeWaveFormatExPut | src/avi.rs:129-138 | decoding the bytes written for a basic wave format gives it back and the bytes after it |
| Avi.GuidSize | src/avi.rs:156-161 | a GUID is 16 bytes |
| Avi.DecodeGuid | src/avi.rs:154-161 | it decodes exactly when 16 bytes are there, consuming 16 |
| Avi.DecodeGuidPut | src/avi.rs:154-161 | decoding the bytes written for a GUID gives it back and the bytes after it |
| Avi.WaveFormatExtensibleSize | src/avi.rs:142-152 | the extensible format is 38 bytes |
| Avi.DecodeWaveFormatExtensible | src/avi.rs:140-152 | it decodes exactly when 38 bytes are there, consuming 38 |
| Avi.DecodeWaveFormatExtensiblePut | src/avi.rs:140-152 | decoding the bytes written for an extensible format gives it back and the bytes after it |
| Avi.WaveFormatExtensibleFormatAt | src/avi.rs:143 | its `format` is the basic wave format decoded from its start |
| Avi.WaveFormatExtensibleSubFormatAt | src/avi.rs:151 | its `sub_format` is the GUID decoded from offset 22 |
| Avi.Mpeg1WaveFormatSize | src/avi.rs:165-175 | the MPEG-1 format is 38 bytes |
| Avi.DecodeMpeg1WaveFormat | src/avi.rs:163-175 | it decodes exactly when 38 bytes are there, consuming 38 |
| Avi.DecodeMpeg1WaveFormatPut | src/avi.rs:163-175 | decoding the bytes written for an MPEG-1 format gives it back and the bytes after it |
| Avi.Mpeg1WaveFormatPartsAt | src/avi.rs:166 | its `format` is the basic wave format decoded from its start |
| Avi.Mp3WaveFormatSize | src/avi.rs:179-186 | the MP3 format is 28 bytes |
| Avi.DecodeMp3WaveFormat | src/avi.rs:177-186 | it decodes exactly when 28 bytes are there, consuming 28 |
| Avi.DecodeMp3WaveFormatPut | src/avi.rs:177-186 | decoding the bytes written for an MP3 format gives it back and the bytes after it |
| Avi.Mp3WaveFormatPartsAt | src/avi.rs:180 | its `format` is the basic wave format decoded from its start |
| Avi.WaveFormatTag | src/avi.rs:118-127 | every variant's tag is one of the four known tags |
| Avi.DecodeWaveFormat | src/avi.rs:115-127 | it succeeds exactly when the leading u16 is 0x0001, 0xFFFE, 0x0050 or 0x0055 and the 16, 38, 38 or 28 body bytes follow. The variant has the tag read, its payload is the body record decoded right after the tag, and it consumes 2 + body bytes. Every failure is the no-variant error |
| Avi.DecodeWaveFormatPut | src/avi.rs:115-127 | decoding the tag and body written for a wave format gives it back and the bytes after it |

## Left out

- `src/io.rs` is not part of this model. It relabels foreign error kinds
  and forwards `seek`; the model's `Reader` is the cursor it would adapt.
- `src/lib.rs` holds re-exports only. The integration tests read binary
  fixtures and an API that the library sources do not contain.
- The AVI stream-selection and sample-scanning features are not in the
  library sources, so they are not modelled. `StreamInfo` is declared as a
  datatype; the source gives it no operations.
- The shared `Rc<RefCell<…>>` reader and its borrow checks are left out.
  One `Reader` object is passed to each operation, and `RiffParser::new`
  is then the `Reader` constructor.
- `Debug` formatting is left out.
- Seek and stream-position failures of readers other than an in-memory
  cursor are left out. The model's seek always succeeds.
- The position inside binrw errors, and the per-variant detail of its
  no-variant error, are left out. All failures of one decode share one
  error value.
- Positions are unbounded naturals rather than u64.
- Riff.Reader.ReadExact: the reader is the standard library's in-memory
  cursor. After a short read the general reading interface leaves the
  buffer and the position unspecified. A default implementation built on
  single reads, like the crate's embedded adapter, fills the buffer with the
  bytes that remain before failing. The model promises the cursor's
  behaviour: the buffer untouched and the position at the end. Read errors
  other than end-of-file, which the crate passes on unchanged, cannot
  happen on a cursor and are not modelled.
- Riff.List.DataSize: the u32 underflow of a list size below 4 is a
  precondition (`size >= 4`), not modelled behaviour.
- Riff.NextSibling: the u32 wrap-around of data size plus pad, which needs
  a size of 0xFFFF_FFFF, is a precondition (`InRange`). Riff.Step,
  Riff.ListIter.ReadNext and Riff.ListIter.Next require it of the child
  they read (`ChildFits`) and of the list (`Iterable`).
- Riff.Reader.ReadRecord: a failed decode leaves the cursor where the
  decode started. The cursor position binrw leaves after an error is not
  modelled any further.
- Avi.DecodeWaveFormatEx: the record's `size` field (extra format bytes)
  is read but not acted on, as in the source.
- Avi.DecodeAviMainHeader: of its fields, only the offset of `streams` is
  stated on its own. The other fields' offsets follow the declaration order
  of the record's layout constant and are not stated one by one. The round
  trip shows only that decoding undoes the writer: both follow the same
  layout, so it would not catch two fields swapped in that layout.
  Re-encoding what was decoded is not proved.
- Avi.DecodeAviStreamHeader: only `fcc_type`, `priority` and `frame` have
  their offsets stated on their own. The other fields' offsets likewise
  follow the declaration order of the layout constant. The same applies to
  the other record decoders, whose fields are not given offset lemmas.
- RiffLayout.ListYields: it covers children that a writer can produce.
  Chunk ids never spell `RIFF` or `LIST`, and sizes fit the u32 fields.
  Malformed and overlapping layouts are covered by ChildAt and Step
  themselves, not by this lemma.
