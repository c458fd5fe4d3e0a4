/** The AVI record layouts and sample-id synthesis (src/avi.rs).

    Every record is a fixed little-endian layout, read field after field;
    the audio format is a tagged union whose variant is chosen by a leading
    u16.  Each decoder has a writer beside it that puts a record's bytes in
    front of the bytes that follow, and a lemma that the decoder takes back
    exactly what the writer put. */
module Avi {
  import opened Binary
  import opened Fourcc

  // ---------------------------------------------------------------------
  // Tags

  const AVI: FourCC := New(Ascii4("AVI "))
  const HDRL: FourCC := New(Ascii4("hdrl"))
  const AVIH: FourCC := New(Ascii4("avih"))
  const STRL: FourCC := New(Ascii4("strl"))
  const STRH: FourCC := New(Ascii4("strh"))
  const STRF: FourCC := New(Ascii4("strf"))
  const VIDS: FourCC := New(Ascii4("vids"))
  const AUDS: FourCC := New(Ascii4("auds"))

  /** The `[u8; 2]` kind codes of sample chunk ids. */
  type Bytes2 = s: seq<U8> | |s| == 2 witness [0, 0]

  const DATA_VIDEO_COMPRESSED: Bytes2 := ['d' as int, 'c' as int]
  const DATA_VIDEO_UNCOMPRESSED: Bytes2 := ['d' as int, 'b' as int]
  const DATA_PALETTE_CHANGED: Bytes2 := ['p' as int, 'c' as int]
  const DATA_AUDIO: Bytes2 := ['w' as int, 'b' as int]

  /** The tags' raw values: the four characters, first one lowest. */
  lemma TagValues()
    ensures AVI.value == 0x2049_5641 && HDRL.value == 0x6C72_6468 && AVIH.value == 0x6869_7661
    ensures STRL.value == 0x6C72_7473 && STRH.value == 0x6872_7473 && STRF.value == 0x6672_7473
    ensures VIDS.value == 0x7364_6976 && AUDS.value == 0x7364_7561
    ensures RIFF.value == 0x4646_4952 && LIST.value == 0x5453_494C
  {
  }

  predicate IsDigit(b: U8) { '0' as int <= b <= '9' as int }

  /** The sample chunk id of a stream: two ASCII digits of the stream index,
      clamped to 99, then the two-byte kind code. */
  function Stream(streamIndex: U32, kind: Bytes2): (id: FourCC)
    ensures var b := Bytes(id);
      && IsDigit(b[0]) && IsDigit(b[1])
      && (b[0] - '0' as int) * 10 + (b[1] - '0' as int) == (if streamIndex > 99 then 99 else streamIndex)
      && b[2..] == kind
  {
    var index := if streamIndex > 99 then 99 else streamIndex;
    New(['0' as int + index / 10, '0' as int + index % 10, kind[0], kind[1]])
  }

  /** Past 99 every stream index shares the id of index 99. */
  lemma StreamClamps(streamIndex: U32, kind: Bytes2)
    requires streamIndex > 99
    ensures Stream(streamIndex, kind) == Stream(99, kind)
  {
  }

  /** Up to 99, the id tells both the stream index and the kind code. */
  lemma StreamInjective(i: U32, j: U32, d: Bytes2, e: Bytes2)
    requires i <= 99 && j <= 99
    ensures Stream(i, d) == Stream(j, e) <==> i == j && d == e
  {
    if Stream(i, d) == Stream(j, e) {
      assert Bytes(Stream(i, d)) == Bytes(Stream(j, e));
      assert d == Bytes(Stream(i, d))[2..] == Bytes(Stream(j, e))[2..] == e;
    }
  }

  /** The ids a two-stream file uses: video stream 0 and audio stream 1. */
  lemma StreamExamples()
    ensures Stream(0, DATA_VIDEO_COMPRESSED) == New(Ascii4("00dc"))
    ensures Stream(1, DATA_AUDIO) == New(Ascii4("01wb"))
    ensures Stream(123, DATA_VIDEO_UNCOMPRESSED) == New(Ascii4("99db"))
  {
  }

  // ---------------------------------------------------------------------
  // Main header (the `avih` chunk)

  type U32x4 = s: seq<U32> | |s| == 4 witness [0, 0, 0, 0]

  datatype AviMainHeader = AviMainHeader(
    microSecPerFrame: U32,
    maxBytesPerSec: U32,
    paddingGranularity: U32,
    flags: U32,
    totalFrames: U32,
    initialFrames: U32,
    streams: U32,
    suggestedBufferSize: U32,
    width: U32,
    height: U32,
    reserved: U32x4)

  /** Ten u32 fields, then the reserved `[u32; 4]`. */
  const AVI_MAIN_HEADER: seq<Width> :=
    [Width32, Width32, Width32, Width32, Width32, Width32, Width32, Width32, Width32, Width32]
    + [Width32, Width32, Width32, Width32]

  lemma AviMainHeaderSize()
    ensures Size(AVI_MAIN_HEADER) == 56
  {
    SizeAppend([Width32, Width32, Width32, Width32, Width32, Width32, Width32, Width32, Width32, Width32],
               [Width32, Width32, Width32, Width32]);
  }

  function AviMainHeaderWords(h: AviMainHeader): (ws: seq<Word>)
    ensures Shape(ws) == AVI_MAIN_HEADER
  {
    [W32(h.microSecPerFrame), W32(h.maxBytesPerSec), W32(h.paddingGranularity), W32(h.flags),
     W32(h.totalFrames), W32(h.initialFrames), W32(h.streams), W32(h.suggestedBufferSize),
     W32(h.width), W32(h.height),
     W32(h.reserved[0]), W32(h.reserved[1]), W32(h.reserved[2]), W32(h.reserved[3])]
  }

  function AviMainHeaderOf(ws: seq<Word>): AviMainHeader
    requires Shape(ws) == AVI_MAIN_HEADER
  {
    AviMainHeader(ws[0].w, ws[1].w, ws[2].w, ws[3].w, ws[4].w, ws[5].w, ws[6].w, ws[7].w, ws[8].w, ws[9].w,
                  [ws[10].w, ws[11].w, ws[12].w, ws[13].w])
  }

  function DecodeAviMainHeader(s: seq<U8>): (r: Result<Parsed<AviMainHeader>>)
    ensures r.Ok? <==> |s| >= 56
    ensures r.Ok? ==> r.value.rest == s[56..]
    ensures r.Err? ==> r.error == UnexpectedEof
  {
    AviMainHeaderSize();
    var ws :- ReadWords(s, AVI_MAIN_HEADER);
    Ok(Parsed(AviMainHeaderOf(ws.value), ws.rest))
  }

  function PutAviMainHeader(h: AviMainHeader, rest: seq<U8>): (s: seq<U8>)
    ensures |s| == 56 + |rest|
  {
    AviMainHeaderSize();
    PutWords(AviMainHeaderWords(h), rest)
  }

  lemma DecodeAviMainHeaderPut(h: AviMainHeader, rest: seq<U8>)
    ensures DecodeAviMainHeader(PutAviMainHeader(h, rest)) == Ok(Parsed(h, rest))
  {
    ReadWordsPut(AviMainHeaderWords(h), rest);
    AviMainHeaderOfWords(h);
  }

  lemma AviMainHeaderOfWords(h: AviMainHeader)
    ensures AviMainHeaderOf(AviMainHeaderWords(h)) == h
  {
    assert AviMainHeaderOf(AviMainHeaderWords(h)).reserved == h.reserved;
  }

  /** The stream count is the u32 at offset 24. */
  lemma AviMainHeaderStreamsAt(s: seq<U8>)
    requires |s| >= 56
    ensures DecodeAviMainHeader(s).value.value.streams == LeU32(s[24..28])
  {
    AviMainHeaderSize();
    var ws := ReadWords(s, AVI_MAIN_HEADER).value.value;
    assert DecodeAviMainHeader(s).value.value == AviMainHeaderOf(ws);
    ReadWordsAt(s, AVI_MAIN_HEADER, 6);
    assert Size([Width32, Width32, Width32, Width32, Width32, Width32]) == 24;
    assert AVI_MAIN_HEADER[..6] == [Width32, Width32, Width32, Width32, Width32, Width32];
    assert AVI_MAIN_HEADER[6] == Width32;
    assert s[24..][..4] == s[24..28];
    assert ReadWord(s[24..], Width32).value.value == W32(LeU32(s[24..28]));
  }

  // ---------------------------------------------------------------------
  // Stream header (the `strh` chunk) and its frame rectangle

  datatype Frame = Frame(left: I16, top: I16, right: I16, bottom: I16)

  const FRAME: seq<Width> := [Width16, Width16, Width16, Width16]

  lemma FrameSize()
    ensures Size(FRAME) == 8
  {
    assert FRAME == [Width16, Width16, Width16, Width16];
  }

  function FrameWords(f: Frame): (ws: seq<Word>)
    ensures Shape(ws) == FRAME
  {
    [W16(I16Bits(f.left)), W16(I16Bits(f.top)), W16(I16Bits(f.right)), W16(I16Bits(f.bottom))]
  }

  function FrameOf(ws: seq<Word>): Frame
    requires Shape(ws) == FRAME
  {
    Frame(AsI16(ws[0].h), AsI16(ws[1].h), AsI16(ws[2].h), AsI16(ws[3].h))
  }

  lemma FrameOfWords(f: Frame)
    ensures FrameOf(FrameWords(f)) == f
  {
    AsI16OfI16Bits(f.left);
    AsI16OfI16Bits(f.top);
    AsI16OfI16Bits(f.right);
    AsI16OfI16Bits(f.bottom);
  }

  /** Four i16 edges, 8 bytes. */
  function DecodeFrame(s: seq<U8>): (r: Result<Parsed<Frame>>)
    ensures r.Ok? <==> |s| >= 8
    ensures r.Ok? ==> r.value.rest == s[8..]
    ensures r.Err? ==> r.error == UnexpectedEof
  {
    FrameSize();
    var ws :- ReadWords(s, FRAME);
    Ok(Parsed(FrameOf(ws.value), ws.rest))
  }

  function PutFrame(f: Frame, rest: seq<U8>): (s: seq<U8>)
    ensures |s| == 8 + |rest|
  {
    FrameSize();
    PutWords(FrameWords(f), rest)
  }

  lemma DecodeFramePut(f: Frame, rest: seq<U8>)
    ensures DecodeFrame(PutFrame(f, rest)) == Ok(Parsed(f, rest))
  {
    ReadWordsPut(FrameWords(f), rest);
    FrameOfWords(f);
  }

  datatype AviStreamHeader = AviStreamHeader(
    fccType: FourCC,
    fccHandler: FourCC,
    flags: U32,
    priority: U16,
    language: U16,
    initialFrames: U32,
    scale: U32,
    rate: U32,
    start: U32,
    length: U32,
    suggestedBufferSize: U32,
    quality: U32,
    sampleSize: U32,
    frame: Frame)

  /** Two tags, flags, two u16, eight u32, then the frame. */
  const AVI_STREAM_HEADER: seq<Width> :=
    [Width32, Width32, Width32, Width16, Width16,
     Width32, Width32, Width32, Width32, Width32, Width32, Width32, Width32] + FRAME

  lemma AviStreamHeaderSize()
    ensures Size(AVI_STREAM_HEADER) == 56
  {
    var head := [Width32, Width32, Width32, Width16, Width16,
                 Width32, Width32, Width32, Width32, Width32, Width32, Width32, Width32];
    SizeAppend(head, FRAME);
    FrameSize();
  }

  function AviStreamHeaderWords(h: AviStreamHeader): (ws: seq<Word>)
    ensures Shape(ws) == AVI_STREAM_HEADER
  {
    [W32(h.fccType.value), W32(h.fccHandler.value), W32(h.flags), W16(h.priority), W16(h.language),
     W32(h.initialFrames), W32(h.scale), W32(h.rate), W32(h.start), W32(h.length),
     W32(h.suggestedBufferSize), W32(h.quality), W32(h.sampleSize)] + FrameWords(h.frame)
  }

  function AviStreamHeaderOf(ws: seq<Word>): AviStreamHeader
    requires Shape(ws) == AVI_STREAM_HEADER
  {
    assert Shape(ws[13..]) == FRAME;
    AviStreamHeader(FourCC(ws[0].w), FourCC(ws[1].w), ws[2].w, ws[3].h, ws[4].h,
                    ws[5].w, ws[6].w, ws[7].w, ws[8].w, ws[9].w, ws[10].w, ws[11].w, ws[12].w, FrameOf(ws[13..]))
  }

  lemma AviStreamHeaderOfWords(h: AviStreamHeader)
    ensures AviStreamHeaderOf(AviStreamHeaderWords(h)) == h
  {
    assert AviStreamHeaderWords(h)[13..] == FrameWords(h.frame);
    FrameOfWords(h.frame);
  }

  function DecodeAviStreamHeader(s: seq<U8>): (r: Result<Parsed<AviStreamHeader>>)
    ensures r.Ok? <==> |s| >= 56
    ensures r.Ok? ==> r.value.rest == s[56..]
    ensures r.Err? ==> r.error == UnexpectedEof
  {
    AviStreamHeaderSize();
    var ws :- ReadWords(s, AVI_STREAM_HEADER);
    Ok(Parsed(AviStreamHeaderOf(ws.value), ws.rest))
  }

  function PutAviStreamHeader(h: AviStreamHeader, rest: seq<U8>): (s: seq<U8>)
    ensures |s| == 56 + |rest|
  {
    AviStreamHeaderSize();
    PutWords(AviStreamHeaderWords(h), rest)
  }

  lemma DecodeAviStreamHeaderPut(h: AviStreamHeader, rest: seq<U8>)
    ensures DecodeAviStreamHeader(PutAviStreamHeader(h, rest)) == Ok(Parsed(h, rest))
  {
    ReadWordsPut(AviStreamHeaderWords(h), rest);
    AviStreamHeaderOfWords(h);
  }

  /** The stream type is the tag at offset 0 and the priority the u16 at
      offset 12. */
  lemma AviStreamHeaderFieldsAt(s: seq<U8>)
    requires |s| >= 56
    ensures DecodeAviStreamHeader(s).value.value.fccType == New(s[..4])
    ensures DecodeAviStreamHeader(s).value.value.priority == LeU16(s[12..14])
  {
    AviStreamHeaderSize();
    var ws := ReadWords(s, AVI_STREAM_HEADER).value.value;
    assert DecodeAviStreamHeader(s).value.value == AviStreamHeaderOf(ws);
    ReadWordsAt(s, AVI_STREAM_HEADER, 0);
    assert AVI_STREAM_HEADER[..0] == [] && AVI_STREAM_HEADER[0] == Width32;
    assert s[0..] == s;
    assert ReadWord(s, Width32).value.value == W32(LeU32(s[..4]));
    ReadWordsAt(s, AVI_STREAM_HEADER, 3);
    assert Size([Width32, Width32, Width32]) == 12;
    assert AVI_STREAM_HEADER[..3] == [Width32, Width32, Width32] && AVI_STREAM_HEADER[3] == Width16;
    assert s[12..][..2] == s[12..14];
    assert ReadWord(s[12..], Width16).value.value == W16(LeU16(s[12..14]));
  }

  /** The frame is the 8 bytes at offset 48. */
  lemma AviStreamHeaderFrameAt(s: seq<U8>)
    requires |s| >= 56
    ensures DecodeAviStreamHeader(s).value.value.frame == DecodeFrame(s[48..]).value.value
  {
    AviStreamHeaderSize();
    var head := [Width32, Width32, Width32, Width16, Width16,
                 Width32, Width32, Width32, Width32, Width32, Width32, Width32, Width32];
    SizeAppend(head, FRAME);
    FrameSize();
    ReadWordsAppend(s, head, FRAME);
    var ws := ReadWords(s, AVI_STREAM_HEADER).value.value;
    var fs := ReadWords(s[48..], FRAME).value.value;
    assert |ReadWords(s, head).value.value| == 13;
    assert ws[13..] == fs;
    assert DecodeAviStreamHeader(s).value.value == AviStreamHeaderOf(ws);
    assert DecodeFrame(s[48..]).value.value == FrameOf(fs);
  }

  // ---------------------------------------------------------------------
  // Video stream format (the `strf` chunk of a `vids` stream)

  datatype BitmapInfoHeader = BitmapInfoHeader(
    size: U32,
    width: I32,
    height: I32,
    planes: U16,
    bitCount: U16,
    compression: U32,
    sizeImage: U32,
    xPelsPerMeter: I32,
    yPelsPerMeter: I32,
    clrUsed: U32,
    clrImportant: U32)

  /** Size, two i32 dimensions, two u16, then six 32-bit fields. */
  const BITMAP_INFO_HEADER: seq<Width> :=
    [Width32, Width32, Width32, Width16, Width16] + [Width32, Width32, Width32, Width32, Width32, Width32]

  lemma BitmapInfoHeaderSize()
    ensures Size(BITMAP_INFO_HEADER) == 40
  {
    SizeAppend([Width32, Width32, Width32, Width16, Width16], [Width32, Width32, Width32, Width32, Width32, Width32]);
  }

  function BitmapInfoHeaderWords(h: BitmapInfoHeader): (ws: seq<Word>)
    ensures Shape(ws) == BITMAP_INFO_HEADER
  {
    [W32(h.size), W32(I32Bits(h.width)), W32(I32Bits(h.height)), W16(h.planes), W16(h.bitCount),
     W32(h.compression), W32(h.sizeImage), W32(I32Bits(h.xPelsPerMeter)), W32(I32Bits(h.yPelsPerMeter)),
     W32(h.clrUsed), W32(h.clrImportant)]
  }

  function BitmapInfoHeaderOf(ws: seq<Word>): BitmapInfoHeader
    requires Shape(ws) == BITMAP_INFO_HEADER
  {
    BitmapInfoHeader(ws[0].w, AsI32(ws[1].w), AsI32(ws[2].w), ws[3].h, ws[4].h, ws[5].w, ws[6].w,
                     AsI32(ws[7].w), AsI32(ws[8].w), ws[9].w, ws[10].w)
  }

  lemma BitmapInfoHeaderOfWords(h: BitmapInfoHeader)
    ensures BitmapInfoHeaderOf(BitmapInfoHeaderWords(h)) == h
  {
    AsI32OfI32Bits(h.width);
    AsI32OfI32Bits(h.height);
    AsI32OfI32Bits(h.xPelsPerMeter);
    AsI32OfI32Bits(h.yPelsPerMeter);
  }

  function DecodeBitmapInfoHeader(s: seq<U8>): (r: Result<Parsed<BitmapInfoHeader>>)
    ensures r.Ok? <==> |s| >= 40
    ensures r.Ok? ==> r.value.rest == s[40..]
    ensures r.Err? ==> r.error == UnexpectedEof
  {
    BitmapInfoHeaderSize();
    var ws :- ReadWords(s, BITMAP_INFO_HEADER);
    Ok(Parsed(BitmapInfoHeaderOf(ws.value), ws.rest))
  }

  function PutBitmapInfoHeader(h: BitmapInfoHeader, rest: seq<U8>): (s: seq<U8>)
    ensures |s| == 40 + |rest|
  {
    BitmapInfoHeaderSize();
    PutWords(BitmapInfoHeaderWords(h), rest)
  }

  lemma DecodeBitmapInfoHeaderPut(h: BitmapInfoHeader, rest: seq<U8>)
    ensures DecodeBitmapInfoHeader(PutBitmapInfoHeader(h, rest)) == Ok(Parsed(h, rest))
  {
    ReadWordsPut(BitmapInfoHeaderWords(h), rest);
    BitmapInfoHeaderOfWords(h);
  }

  datatype RgbQuad = RgbQuad(blue: U8, green: U8, red: U8, reserved: U8)

  const RGB_QUAD: seq<Width> := [Width8, Width8, Width8, Width8]

  function RgbQuadWords(q: RgbQuad): (ws: seq<Word>)
    ensures Shape(ws) == RGB_QUAD
  {
    [W8(q.blue), W8(q.green), W8(q.red), W8(q.reserved)]
  }

  function RgbQuadOf(ws: seq<Word>): RgbQuad
    requires Shape(ws) == RGB_QUAD
  {
    RgbQuad(ws[0].b, ws[1].b, ws[2].b, ws[3].b)
  }

  function DecodeRgbQuad(s: seq<U8>): (r: Result<Parsed<RgbQuad>>)
    ensures r.Ok? <==> |s| >= 4
    ensures r.Ok? ==> r.value.rest == s[4..]
    ensures r.Err? ==> r.error == UnexpectedEof
  {
    var ws :- ReadWords(s, RGB_QUAD);
    Ok(Parsed(RgbQuadOf(ws.value), ws.rest))
  }

  function PutRgbQuad(q: RgbQuad, rest: seq<U8>): (s: seq<U8>)
    ensures |s| == 4 + |rest|
  {
    PutWords(RgbQuadWords(q), rest)
  }

  lemma DecodeRgbQuadPut(q: RgbQuad, rest: seq<U8>)
    ensures DecodeRgbQuad(PutRgbQuad(q, rest)) == Ok(Parsed(q, rest))
  {
    ReadWordsPut(RgbQuadWords(q), rest);
  }

  /** The header followed by one palette entry. */
  datatype BitmapInfo = BitmapInfo(header: BitmapInfoHeader, colors: RgbQuad)

  const BITMAP_INFO: seq<Width> := BITMAP_INFO_HEADER + RGB_QUAD

  lemma BitmapInfoSize()
    ensures Size(BITMAP_INFO) == 44
  {
    SizeAppend(BITMAP_INFO_HEADER, RGB_QUAD);
    BitmapInfoHeaderSize();
  }

  function BitmapInfoWords(i: BitmapInfo): (ws: seq<Word>)
    ensures Shape(ws) == BITMAP_INFO
  {
    BitmapInfoHeaderWords(i.header) + RgbQuadWords(i.colors)
  }

  function BitmapInfoOf(ws: seq<Word>): BitmapInfo
    requires Shape(ws) == BITMAP_INFO
  {
    assert Shape(ws[..11]) == BITMAP_INFO_HEADER && Shape(ws[11..]) == RGB_QUAD;
    BitmapInfo(BitmapInfoHeaderOf(ws[..11]), RgbQuadOf(ws[11..]))
  }

  lemma BitmapInfoOfWords(i: BitmapInfo)
    ensures BitmapInfoOf(BitmapInfoWords(i)) == i
  {
    var ws := BitmapInfoWords(i);
    assert ws[..11] == BitmapInfoHeaderWords(i.header);
    assert ws[11..] == RgbQuadWords(i.colors);
    BitmapInfoHeaderOfWords(i.header);
  }

  function DecodeBitmapInfo(s: seq<U8>): (r: Result<Parsed<BitmapInfo>>)
    ensures r.Ok? <==> |s| >= 44
    ensures r.Ok? ==> r.value.rest == s[44..]
    ensures r.Err? ==> r.error == UnexpectedEof
  {
    BitmapInfoSize();
    var ws :- ReadWords(s, BITMAP_INFO);
    Ok(Parsed(BitmapInfoOf(ws.value), ws.rest))
  }

  function PutBitmapInfo(i: BitmapInfo, rest: seq<U8>): (s: seq<U8>)
    ensures |s| == 44 + |rest|
  {
    BitmapInfoSize();
    PutWords(BitmapInfoWords(i), rest)
  }

  lemma DecodeBitmapInfoPut(i: BitmapInfo, rest: seq<U8>)
    ensures DecodeBitmapInfo(PutBitmapInfo(i, rest)) == Ok(Parsed(i, rest))
  {
    ReadWordsPut(BitmapInfoWords(i), rest);
    BitmapInfoOfWords(i);
  }

  /** The header is decoded from the first 40 bytes and the palette entry
      from the 4 after them. */
  lemma BitmapInfoPartsAt(s: seq<U8>)
    requires |s| >= 44
    ensures DecodeBitmapInfo(s).value.value.header == DecodeBitmapInfoHeader(s).value.value
    ensures DecodeBitmapInfo(s).value.value.colors == DecodeRgbQuad(s[40..]).value.value
  {
    BitmapInfoSize();
    BitmapInfoHeaderSize();
    ReadWordsAppend(s, BITMAP_INFO_HEADER, RGB_QUAD);
    var ws := ReadWords(s, BITMAP_INFO).value.value;
    var hs := ReadWords(s, BITMAP_INFO_HEADER).value.value;
    var qs := ReadWords(s[40..], RGB_QUAD).value.value;
    assert ws[..11] == hs && ws[11..] == qs;
    assert DecodeBitmapInfo(s).value.value == BitmapInfoOf(ws);
    assert DecodeBitmapInfoHeader(s).value.value == BitmapInfoHeaderOf(hs);
    assert DecodeRgbQuad(s[40..]).value.value == RgbQuadOf(qs);
  }

  // ---------------------------------------------------------------------
  // Audio stream formats (the `strf` chunk of an `auds` stream)

  /** The fields after the format tag; the trailing `size` (of extra format
      bytes) is read and kept, never acted on. */
  datatype WaveFormatEx = WaveFormatEx(
    channels: U16,
    samplesPerSec: U32,
    avgBytesPerSec: U32,
    blockAlign: U16,
    bitsPerSample: U16,
    size: U16)

  const WAVE_FORMAT_EX: seq<Width> := [Width16, Width32, Width32, Width16, Width16, Width16]

  function WaveFormatExWords(f: WaveFormatEx): (ws: seq<Word>)
    ensures Shape(ws) == WAVE_FORMAT_EX
  {
    [W16(f.channels), W32(f.samplesPerSec), W32(f.avgBytesPerSec), W16(f.blockAlign),
     W16(f.bitsPerSample), W16(f.size)]
  }

  function WaveFormatExOf(ws: seq<Word>): WaveFormatEx
    requires Shape(ws) == WAVE_FORMAT_EX
  {
    WaveFormatEx(ws[0].h, ws[1].w, ws[2].w, ws[3].h, ws[4].h, ws[5].h)
  }

  function DecodeWaveFormatEx(s: seq<U8>): (r: Result<Parsed<WaveFormatEx>>)
    ensures r.Ok? <==> |s| >= 16
    ensures r.Ok? ==> r.value.rest == s[16..]
    ensures r.Err? ==> r.error == UnexpectedEof
  {
    var ws :- ReadWords(s, WAVE_FORMAT_EX);
    Ok(Parsed(WaveFormatExOf(ws.value), ws.rest))
  }

  function PutWaveFormatEx(f: WaveFormatEx, rest: seq<U8>): (s: seq<U8>)
    ensures |s| == 16 + |rest|
  {
    PutWords(WaveFormatExWords(f), rest)
  }

  lemma DecodeWaveFormatExPut(f: WaveFormatEx, rest: seq<U8>)
    ensures DecodeWaveFormatEx(PutWaveFormatEx(f, rest)) == Ok(Parsed(f, rest))
  {
    ReadWordsPut(WaveFormatExWords(f), rest);
  }

  type Bytes8 = s: seq<U8> | |s| == 8 witness [0, 0, 0, 0, 0, 0, 0, 0]

  datatype Guid = Guid(data1: U32, data2: U16, data3: U16, data4: Bytes8)

  const GUID: seq<Width> := [Width32, Width16, Width16] + [Width8, Width8, Width8, Width8, Width8, Width8, Width8, Width8]

  lemma GuidSize()
    ensures Size(GUID) == 16
  {
    SizeAppend([Width32, Width16, Width16], [Width8, Width8, Width8, Width8, Width8, Width8, Width8, Width8]);
  }

  function GuidWords(g: Guid): (ws: seq<Word>)
    ensures Shape(ws) == GUID
  {
    [W32(g.data1), W16(g.data2), W16(g.data3),
     W8(g.data4[0]), W8(g.data4[1]), W8(g.data4[2]), W8(g.data4[3]),
     W8(g.data4[4]), W8(g.data4[5]), W8(g.data4[6]), W8(g.data4[7])]
  }

  function GuidOf(ws: seq<Word>): Guid
    requires Shape(ws) == GUID
  {
    Guid(ws[0].w, ws[1].h, ws[2].h, [ws[3].b, ws[4].b, ws[5].b, ws[6].b, ws[7].b, ws[8].b, ws[9].b, ws[10].b])
  }

  lemma GuidOfWords(g: Guid)
    ensures GuidOf(GuidWords(g)) == g
  {
    assert GuidOf(GuidWords(g)).data4 == g.data4;
  }

  function DecodeGuid(s: seq<U8>): (r: Result<Parsed<Guid>>)
    ensures r.Ok? <==> |s| >= 16
    ensures r.Ok? ==> r.value.rest == s[16..]
    ensures r.Err? ==> r.error == UnexpectedEof
  {
    GuidSize();
    var ws :- ReadWords(s, GUID);
    Ok(Parsed(GuidOf(ws.value), ws.rest))
  }

  function PutGuid(g: Guid, rest: seq<U8>): (s: seq<U8>)
    ensures |s| == 16 + |rest|
  {
    GuidSize();
    PutWords(GuidWords(g), rest)
  }

  lemma DecodeGuidPut(g: Guid, rest: seq<U8>)
    ensures DecodeGuid(PutGuid(g, rest)) == Ok(Parsed(g, rest))
  {
    ReadWordsPut(GuidWords(g), rest);
    GuidOfWords(g);
  }

  datatype WaveFormatExtensible = WaveFormatExtensible(
    format: WaveFormatEx,
    samples: U16,
    channelMask: U32,
    subFormat: Guid)

  const WAVE_FORMAT_EXTENSIBLE: seq<Width> := WAVE_FORMAT_EX + [Width16, Width32] + GUID

  lemma WaveFormatExtensibleSize()
    ensures Size(WAVE_FORMAT_EXTENSIBLE) == 38
  {
    SizeAppend(WAVE_FORMAT_EX, [Width16, Width32]);
    SizeAppend(WAVE_FORMAT_EX + [Width16, Width32], GUID);
    GuidSize();
  }

  function WaveFormatExtensibleWords(f: WaveFormatExtensible): (ws: seq<Word>)
    ensures Shape(ws) == WAVE_FORMAT_EXTENSIBLE
  {
    WaveFormatExWords(f.format) + [W16(f.samples), W32(f.channelMask)] + GuidWords(f.subFormat)
  }

  function WaveFormatExtensibleOf(ws: seq<Word>): WaveFormatExtensible
    requires Shape(ws) == WAVE_FORMAT_EXTENSIBLE
  {
    assert Shape(ws[..6]) == WAVE_FORMAT_EX && Shape(ws[8..]) == GUID;
    WaveFormatExtensible(WaveFormatExOf(ws[..6]), ws[6].h, ws[7].w, GuidOf(ws[8..]))
  }

  lemma WaveFormatExtensibleOfWords(f: WaveFormatExtensible)
    ensures WaveFormatExtensibleOf(WaveFormatExtensibleWords(f)) == f
  {
    var ws := WaveFormatExtensibleWords(f);
    assert ws[..6] == WaveFormatExWords(f.format);
    assert ws[8..] == GuidWords(f.subFormat);
    GuidOfWords(f.subFormat);
  }

  function DecodeWaveFormatExtensible(s: seq<U8>): (r: Result<Parsed<WaveFormatExtensible>>)
    ensures r.Ok? <==> |s| >= 38
    ensures r.Ok? ==> r.value.rest == s[38..]
    ensures r.Err? ==> r.error == UnexpectedEof
  {
    WaveFormatExtensibleSize();
    var ws :- ReadWords(s, WAVE_FORMAT_EXTENSIBLE);
    Ok(Parsed(WaveFormatExtensibleOf(ws.value), ws.rest))
  }

  function PutWaveFormatExtensible(f: WaveFormatExtensible, rest: seq<U8>): (s: seq<U8>)
    ensures |s| == 38 + |rest|
  {
    WaveFormatExtensibleSize();
    PutWords(WaveFormatExtensibleWords(f), rest)
  }

  lemma DecodeWaveFormatExtensiblePut(f: WaveFormatExtensible, rest: seq<U8>)
    ensures DecodeWaveFormatExtensible(PutWaveFormatExtensible(f, rest)) == Ok(Parsed(f, rest))
  {
    ReadWordsPut(WaveFormatExtensibleWords(f), rest);
    WaveFormatExtensibleOfWords(f);
  }

  /** The common format is decoded from the first 16 bytes. */
  lemma WaveFormatExtensibleFormatAt(s: seq<U8>)
    requires |s| >= 38
    ensures DecodeWaveFormatExtensible(s).value.value.format == DecodeWaveFormatEx(s).value.value
  {
    WaveFormatExtensibleSize();
    GuidSize();
    var front := WAVE_FORMAT_EX + [Width16, Width32];
    SizeAppend(WAVE_FORMAT_EX, [Width16, Width32]);
    var ws := ReadWords(s, WAVE_FORMAT_EXTENSIBLE).value.value;
    var ps := ReadWords(s, front).value.value;
    var fs := ReadWords(s, WAVE_FORMAT_EX).value.value;
    ReadWordsPrefix(s, front, GUID);
    ReadWordsPrefix(s, WAVE_FORMAT_EX, [Width16, Width32]);
    assert ws[..6] == ws[..8][..6];
    assert DecodeWaveFormatExtensible(s).value.value == WaveFormatExtensibleOf(ws);
    assert DecodeWaveFormatEx(s).value.value == WaveFormatExOf(fs);
  }

  /** The sub-format GUID is decoded from offset 22. */
  lemma WaveFormatExtensibleSubFormatAt(s: seq<U8>)
    requires |s| >= 38
    ensures DecodeWaveFormatExtensible(s).value.value.subFormat == DecodeGuid(s[22..]).value.value
  {
    WaveFormatExtensibleSize();
    GuidSize();
    var front := WAVE_FORMAT_EX + [Width16, Width32];
    SizeAppend(WAVE_FORMAT_EX, [Width16, Width32]);
    ReadWordsAppend(s, front, GUID);
    var ws := ReadWords(s, WAVE_FORMAT_EXTENSIBLE).value.value;
    var gs := ReadWords(s[22..], GUID).value.value;
    assert |ReadWords(s, front).value.value| == 8;
    assert ws[8..] == gs;
    assert DecodeWaveFormatExtensible(s).value.value == WaveFormatExtensibleOf(ws);
    assert DecodeGuid(s[22..]).value.value == GuidOf(gs);
  }

  datatype Mpeg1WaveFormat = Mpeg1WaveFormat(
    format: WaveFormatEx,
    headLayer: U16,
    headBitrate: U32,
    headMode: U16,
    headModeExt: U16,
    headEmphasis: U16,
    headFlags: U16,
    ptsLow: U32,
    ptsHigh: U32)

  const MPEG1_WAVE_FORMAT: seq<Width> :=
    WAVE_FORMAT_EX + [Width16, Width32, Width16, Width16, Width16, Width16, Width32, Width32]

  lemma Mpeg1WaveFormatSize()
    ensures Size(MPEG1_WAVE_FORMAT) == 38
  {
    SizeAppend(WAVE_FORMAT_EX, [Width16, Width32, Width16, Width16, Width16, Width16, Width32, Width32]);
  }

  function Mpeg1WaveFormatWords(f: Mpeg1WaveFormat): (ws: seq<Word>)
    ensures Shape(ws) == MPEG1_WAVE_FORMAT
  {
    WaveFormatExWords(f.format)
    + [W16(f.headLayer), W32(f.headBitrate), W16(f.headMode), W16(f.headModeExt),
       W16(f.headEmphasis), W16(f.headFlags), W32(f.ptsLow), W32(f.ptsHigh)]
  }

  function Mpeg1WaveFormatOf(ws: seq<Word>): Mpeg1WaveFormat
    requires Shape(ws) == MPEG1_WAVE_FORMAT
  {
    assert Shape(ws[..6]) == WAVE_FORMAT_EX;
    Mpeg1WaveFormat(WaveFormatExOf(ws[..6]), ws[6].h, ws[7].w, ws[8].h, ws[9].h, ws[10].h, ws[11].h,
                    ws[12].w, ws[13].w)
  }

  lemma Mpeg1WaveFormatOfWords(f: Mpeg1WaveFormat)
    ensures Mpeg1WaveFormatOf(Mpeg1WaveFormatWords(f)) == f
  {
    assert Mpeg1WaveFormatWords(f)[..6] == WaveFormatExWords(f.format);
  }

  function DecodeMpeg1WaveFormat(s: seq<U8>): (r: Result<Parsed<Mpeg1WaveFormat>>)
    ensures r.Ok? <==> |s| >= 38
    ensures r.Ok? ==> r.value.rest == s[38..]
    ensures r.Err? ==> r.error == UnexpectedEof
  {
    Mpeg1WaveFormatSize();
    var ws :- ReadWords(s, MPEG1_WAVE_FORMAT);
    Ok(Parsed(Mpeg1WaveFormatOf(ws.value), ws.rest))
  }

  function PutMpeg1WaveFormat(f: Mpeg1WaveFormat, rest: seq<U8>): (s: seq<U8>)
    ensures |s| == 38 + |rest|
  {
    Mpeg1WaveFormatSize();
    PutWords(Mpeg1WaveFormatWords(f), rest)
  }

  lemma DecodeMpeg1WaveFormatPut(f: Mpeg1WaveFormat, rest: seq<U8>)
    ensures DecodeMpeg1WaveFormat(PutMpeg1WaveFormat(f, rest)) == Ok(Parsed(f, rest))
  {
    ReadWordsPut(Mpeg1WaveFormatWords(f), rest);
    Mpeg1WaveFormatOfWords(f);
  }

  /** The common format is decoded from the first 16 bytes. */
  lemma Mpeg1WaveFormatPartsAt(s: seq<U8>)
    requires |s| >= 38
    ensures DecodeMpeg1WaveFormat(s).value.value.format == DecodeWaveFormatEx(s).value.value
  {
    Mpeg1WaveFormatSize();
    var tail := [Width16, Width32, Width16, Width16, Width16, Width16, Width32, Width32];
    SizeAppend(WAVE_FORMAT_EX, tail);
    ReadWordsAppend(s, WAVE_FORMAT_EX, tail);
    var ws := ReadWords(s, MPEG1_WAVE_FORMAT).value.value;
    var fs := ReadWords(s, WAVE_FORMAT_EX).value.value;
    assert ws[..6] == fs;
    assert DecodeMpeg1WaveFormat(s).value.value == Mpeg1WaveFormatOf(ws);
    assert DecodeWaveFormatEx(s).value.value == WaveFormatExOf(fs);
  }

  datatype Mp3WaveFormat = Mp3WaveFormat(
    format: WaveFormatEx,
    id: U16,
    flags: U32,
    blockSize: U16,
    framesPerBlock: U16,
    codecDelay: U16)

  const MP3_WAVE_FORMAT: seq<Width> := WAVE_FORMAT_EX + [Width16, Width32, Width16, Width16, Width16]

  lemma Mp3WaveFormatSize()
    ensures Size(MP3_WAVE_FORMAT) == 28
  {
    SizeAppend(WAVE_FORMAT_EX, [Width16, Width32, Width16, Width16, Width16]);
  }

  function Mp3WaveFormatWords(f: Mp3WaveFormat): (ws: seq<Word>)
    ensures Shape(ws) == MP3_WAVE_FORMAT
  {
    WaveFormatExWords(f.format)
    + [W16(f.id), W32(f.flags), W16(f.blockSize), W16(f.framesPerBlock), W16(f.codecDelay)]
  }

  function Mp3WaveFormatOf(ws: seq<Word>): Mp3WaveFormat
    requires Shape(ws) == MP3_WAVE_FORMAT
  {
    assert Shape(ws[..6]) == WAVE_FORMAT_EX;
    Mp3WaveFormat(WaveFormatExOf(ws[..6]), ws[6].h, ws[7].w, ws[8].h, ws[9].h, ws[10].h)
  }

  lemma Mp3WaveFormatOfWords(f: Mp3WaveFormat)
    ensures Mp3WaveFormatOf(Mp3WaveFormatWords(f)) == f
  {
    assert Mp3WaveFormatWords(f)[..6] == WaveFormatExWords(f.format);
  }

  function DecodeMp3WaveFormat(s: seq<U8>): (r: Result<Parsed<Mp3WaveFormat>>)
    ensures r.Ok? <==> |s| >= 28
    ensures r.Ok? ==> r.value.rest == s[28..]
    ensures r.Err? ==> r.error == UnexpectedEof
  {
    Mp3WaveFormatSize();
    var ws :- ReadWords(s, MP3_WAVE_FORMAT);
    Ok(Parsed(Mp3WaveFormatOf(ws.value), ws.rest))
  }

  function PutMp3WaveFormat(f: Mp3WaveFormat, rest: seq<U8>): (s: seq<U8>)
    ensures |s| == 28 + |rest|
  {
    Mp3WaveFormatSize();
    PutWords(Mp3WaveFormatWords(f), rest)
  }

  lemma DecodeMp3WaveFormatPut(f: Mp3WaveFormat, rest: seq<U8>)
    ensures DecodeMp3WaveFormat(PutMp3WaveFormat(f, rest)) == Ok(Parsed(f, rest))
  {
    ReadWordsPut(Mp3WaveFormatWords(f), rest);
    Mp3WaveFormatOfWords(f);
  }

  /** The common format is decoded from the first 16 bytes. */
  lemma Mp3WaveFormatPartsAt(s: seq<U8>)
    requires |s| >= 28
    ensures DecodeMp3WaveFormat(s).value.value.format == DecodeWaveFormatEx(s).value.value
  {
    Mp3WaveFormatSize();
    var tail := [Width16, Width32, Width16, Width16, Width16];
    SizeAppend(WAVE_FORMAT_EX, tail);
    ReadWordsAppend(s, WAVE_FORMAT_EX, tail);
    var ws := ReadWords(s, MP3_WAVE_FORMAT).value.value;
    var fs := ReadWords(s, WAVE_FORMAT_EX).value.value;
    assert ws[..6] == fs;
    assert DecodeMp3WaveFormat(s).value.value == Mp3WaveFormatOf(ws);
    assert DecodeWaveFormatEx(s).value.value == WaveFormatExOf(fs);
  }

  /** The audio format, chosen by the leading u16 format tag. */
  datatype WaveFormat =
    | Pcm(ex: WaveFormatEx)
    | Extensible(extensible: WaveFormatExtensible)
    | Mpeg1(mpeg1: Mpeg1WaveFormat)
    | Mp3(mp3: Mp3WaveFormat)

  const WAVE_FORMAT_PCM: U16 := 0x0001
  const WAVE_FORMAT_EXTENSIBLE_TAG: U16 := 0xFFFE
  const WAVE_FORMAT_MPEG: U16 := 0x0050
  const WAVE_FORMAT_MPEGLAYER3: U16 := 0x0055

  predicate KnownWaveFormatTag(tag: U16)
  {
    tag == WAVE_FORMAT_PCM || tag == WAVE_FORMAT_EXTENSIBLE_TAG || tag == WAVE_FORMAT_MPEG
    || tag == WAVE_FORMAT_MPEGLAYER3
  }

  /** The tag that selects a variant. */
  function WaveFormatTag(w: WaveFormat): (tag: U16)
    ensures KnownWaveFormatTag(tag)
  {
    match w
    case Pcm(_) => WAVE_FORMAT_PCM
    case Extensible(_) => WAVE_FORMAT_EXTENSIBLE_TAG
    case Mpeg1(_) => WAVE_FORMAT_MPEG
    case Mp3(_) => WAVE_FORMAT_MPEGLAYER3
  }

  /** The byte count of the body a known tag announces. */
  function WaveFormatBodySize(tag: U16): nat
    requires KnownWaveFormatTag(tag)
  {
    if tag == WAVE_FORMAT_PCM then 16
    else if tag == WAVE_FORMAT_EXTENSIBLE_TAG then 38
    else if tag == WAVE_FORMAT_MPEG then 38
    else 28
  }

  /** Each variant is tried in turn: its tag is read and compared, then its
      body is read; a variant that fails is rewound and the next one tried.
      The four tags differ, so at most one variant gets past its tag, and
      when none parses the error is the no-variant-matched error. */
  function DecodeWaveFormat(s: seq<U8>): (r: Result<Parsed<WaveFormat>>)
    ensures r.Ok? <==> |s| >= 2 && KnownWaveFormatTag(LeU16(s[..2]))
                       && |s| >= 2 + WaveFormatBodySize(LeU16(s[..2]))
    ensures r.Ok? ==> WaveFormatTag(r.value.value) == LeU16(s[..2])
                      && r.value.rest == s[2 + WaveFormatBodySize(LeU16(s[..2]))..]
    ensures r.Err? ==> r.error == NoVariantMatch
    ensures r.Ok? && r.value.value.Pcm? ==>
      DecodeWaveFormatEx(s[2..]).Ok? && r.value.value.ex == DecodeWaveFormatEx(s[2..]).value.value
    ensures r.Ok? && r.value.value.Extensible? ==>
      DecodeWaveFormatExtensible(s[2..]).Ok?
      && r.value.value.extensible == DecodeWaveFormatExtensible(s[2..]).value.value
    ensures r.Ok? && r.value.value.Mpeg1? ==>
      DecodeMpeg1WaveFormat(s[2..]).Ok? && r.value.value.mpeg1 == DecodeMpeg1WaveFormat(s[2..]).value.value
    ensures r.Ok? && r.value.value.Mp3? ==>
      DecodeMp3WaveFormat(s[2..]).Ok? && r.value.value.mp3 == DecodeMp3WaveFormat(s[2..]).value.value
  {
    if |s| < 2 then Err(NoVariantMatch)
    else
      var tag := LeU16(s[..2]);
      var body := s[2..];
      if tag == WAVE_FORMAT_PCM then
        var f := DecodeWaveFormatEx(body);
        if f.Ok? then Ok(Parsed(Pcm(f.value.value), f.value.rest)) else Err(NoVariantMatch)
      else if tag == WAVE_FORMAT_EXTENSIBLE_TAG then
        var f := DecodeWaveFormatExtensible(body);
        if f.Ok? then Ok(Parsed(Extensible(f.value.value), f.value.rest)) else Err(NoVariantMatch)
      else if tag == WAVE_FORMAT_MPEG then
        var f := DecodeMpeg1WaveFormat(body);
        if f.Ok? then Ok(Parsed(Mpeg1(f.value.value), f.value.rest)) else Err(NoVariantMatch)
      else if tag == WAVE_FORMAT_MPEGLAYER3 then
        var f := DecodeMp3WaveFormat(body);
        if f.Ok? then Ok(Parsed(Mp3(f.value.value), f.value.rest)) else Err(NoVariantMatch)
      else
        Err(NoVariantMatch)
  }

  /** The tag, then the variant's body. */
  function PutWaveFormat(w: WaveFormat, rest: seq<U8>): (s: seq<U8>)
    ensures |s| == 2 + WaveFormatBodySize(WaveFormatTag(w)) + |rest|
  {
    PutU16(WaveFormatTag(w),
      match w
      case Pcm(f) => PutWaveFormatEx(f, rest)
      case Extensible(f) => PutWaveFormatExtensible(f, rest)
      case Mpeg1(f) => PutMpeg1WaveFormat(f, rest)
      case Mp3(f) => PutMp3WaveFormat(f, rest))
  }

  lemma DecodeWaveFormatPut(w: WaveFormat, rest: seq<U8>)
    ensures DecodeWaveFormat(PutWaveFormat(w, rest)) == Ok(Parsed(w, rest))
  {
    var s := PutWaveFormat(w, rest);
    var body := s[2..];
    assert s[..2] == U16Le(WaveFormatTag(w));
    LeU16OfU16Le(WaveFormatTag(w));
    match w
    case Pcm(f) =>
      assert body == PutWaveFormatEx(f, rest);
      DecodeWaveFormatExPut(f, rest);
    case Extensible(f) =>
      assert body == PutWaveFormatExtensible(f, rest);
      DecodeWaveFormatExtensiblePut(f, rest);
    case Mpeg1(f) =>
      assert body == PutMpeg1WaveFormat(f, rest);
      DecodeMpeg1WaveFormatPut(f, rest);
    case Mp3(f) =>
      assert body == PutMp3WaveFormat(f, rest);
      DecodeMp3WaveFormatPut(f, rest);
  }

  // ---------------------------------------------------------------------
  // Stream summaries

  /** What a stream list describes: its sample chunk id, its header, and the
      format its `strf` chunk holds. */
  datatype StreamInfo =
    | Audio(streamId: FourCC, streamHeader: AviStreamHeader, waveFormat: WaveFormat)
    | Video(streamId: FourCC, streamHeader: AviStreamHeader, bitmapInfo: BitmapInfo)
}
