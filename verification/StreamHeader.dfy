/** The self-describing header every stream carries as chunk 0. */
module StreamHeader {
  import opened Machine
  import opened Frames
  import opened LittleEndian
  import opened Utf8
  import Crc32c

  const STREAM_HEADER_MAGIC: seq<byte> := [0x41, 0x4E, 0x53, 0x30]
  const CODEC_FLAC: byte := 1

  datatype StreamHeaderV1 = StreamHeaderV1(
    codec: byte,
    channels: byte,
    bitsPerSample: byte,
    sampleRate: u32,
    clockEpochUs: u64,
    wallClockHintMs: u64,
    deviceDesc: Str,
    codecHeader: seq<byte>)

  datatype StreamHeaderError =
    | BadMagic
    | UnsupportedVersion(got: byte)
    | Truncated
    | BadDeviceDesc
    | TrailingBytes

  function FixedPart(h: StreamHeaderV1): (b: seq<byte>)
    ensures |b| == 28
  {
    STREAM_HEADER_MAGIC + [1, h.codec, h.channels, h.bitsPerSample] + Le(4, h.sampleRate) + Le(8, h.clockEpochUs)
        + Le(8, h.wallClockHintMs)
  }

  /** What is kept of the description: the longest prefix that fits the u16 length and is still a string. */
  function KeptDesc(desc: Str): seq<byte> { desc[..CutAt(desc, Min(|desc|, 0xFFFF))] }

  function KeptCodec(codec: seq<byte>): seq<byte> { codec[..Min(|codec|, 0xFFFF)] }

  function Sized(b: seq<byte>): seq<byte> { Le(2, |b|) + b }

  function Encoded(h: StreamHeaderV1): seq<byte> {
    FixedPart(h) + (Sized(KeptDesc(h.deviceDesc)) + Sized(KeptCodec(h.codecHeader)))
  }

  lemma FourPieces(a: seq<byte>, b: seq<byte>, c: seq<byte>, d: seq<byte>, e: seq<byte>)
    ensures a + b + c + d + e == a + ((b + c) + (d + e))
  {
  }

  /** Encode; an over-long description is cut, but never inside a character. */
  method Encode(h: StreamHeaderV1) returns (out: seq<byte>)
    ensures out == Encoded(h)
  {
    var fixed := FixedPart(h);
    out := fixed;
    var desc := h.deviceDesc;
    var descLen := Min(|desc|, 0xFFFF);
    while descLen > 0 && !IsCharBoundary(desc, descLen)
      invariant 0 <= descLen <= |desc|
      invariant CutAt(desc, descLen) == CutAt(desc, Min(|desc|, 0xFFFF))
    {
      descLen := descLen - 1;
    }
    out := out + Le(2, descLen);
    out := out + desc[..descLen];
    var codecLen := Min(|h.codecHeader|, 0xFFFF);
    out := out + Le(2, codecLen);
    out := out + h.codecHeader[..codecLen];
    FourPieces(fixed, Le(2, descLen), desc[..descLen], Le(2, codecLen), h.codecHeader[..codecLen]);
  }

  function Decode(b: seq<byte>): Result<StreamHeaderV1, StreamHeaderError> {
    if |b| < 4 then Err(Truncated)
    else if b[0..4] != STREAM_HEADER_MAGIC then Err(BadMagic)
    else if |b| < 5 then Err(Truncated)
    else if b[4] != 1 then Err(UnsupportedVersion(b[4]))
    else if |b| < 30 then Err(Truncated)
    else
      var descLen := U16Of(b[28..30]);
      var descEnd := 30 + descLen;
      if |b| < descEnd + 2 then Err(Truncated)
      else if !IsUtf8(b[30..descEnd]) then Err(BadDeviceDesc)
      else
        var chLen := U16Of(b[descEnd..descEnd + 2]);
        var chEnd := descEnd + 2 + chLen;
        if |b| < chEnd then Err(Truncated)
        else if |b| > chEnd then Err(TrailingBytes)
        else
          Ok(StreamHeaderV1(b[5], b[6], b[7], U32Of(b[8..12]), U64Of(b[12..20]), U64Of(b[20..28]), b[30..descEnd],
              b[descEnd + 2..chEnd]))
  }

  /** What arrives: the header with its two variable parts cut to what their u16 lengths can say. */
  function Kept(h: StreamHeaderV1): StreamHeaderV1
  {
    LongestCut(h.deviceDesc, Min(|h.deviceDesc|, 0xFFFF));
    h.(deviceDesc := KeptDesc(h.deviceDesc), codecHeader := KeptCodec(h.codecHeader))
  }

  // ---- round trips ----------------------------------------------------------------------------

  lemma FixedReads(h: StreamHeaderV1, b: seq<byte>)
    requires |b| >= 28 && b[..28] == FixedPart(h)
    ensures b[0..4] == STREAM_HEADER_MAGIC && b[4] == 1 && b[5] == h.codec && b[6] == h.channels
        && b[7] == h.bitsPerSample
    ensures U32Of(b[8..12]) == h.sampleRate && U64Of(b[12..20]) == h.clockEpochUs
        && U64Of(b[20..28]) == h.wallClockHintMs
  {
    var f := FixedPart(h);
    Reads32(h.sampleRate);
    Reads64(h.clockEpochUs);
    Reads64(h.wallClockHintMs);
    assert b[0..4] == f[0..4] == STREAM_HEADER_MAGIC;
    assert b[4..8] == f[4..8] == [1, h.codec, h.channels, h.bitsPerSample];
    assert b[4] == b[4..8][0] && b[5] == b[4..8][1] && b[6] == b[4..8][2] && b[7] == b[4..8][3];
    assert b[8..12] == f[8..12] == Le(4, h.sampleRate);
    assert b[12..20] == f[12..20] == Le(8, h.clockEpochUs);
    assert b[20..28] == f[20..28] == Le(8, h.wallClockHintMs);
  }

  lemma SizedReads(b: seq<byte>, at: nat, x: seq<byte>, rest: seq<byte>)
    requires at <= |b| && b[at..] == Sized(x) + rest && |x| <= 0xFFFF
    ensures at + 2 + |x| <= |b| && U16Of(b[at..at + 2]) == |x| && b[at + 2..at + 2 + |x|] == x
        && b[at + 2 + |x|..] == rest
  {
    Reads16(|x|);
    var tail := b[at..];
    assert tail[..2] == Le(2, |x|) && b[at..at + 2] == tail[..2];
    assert tail[2..2 + |x|] == x && b[at + 2..at + 2 + |x|] == tail[2..2 + |x|];
    assert tail[2 + |x|..] == rest && b[at + 2 + |x|..] == tail[2 + |x|..];
  }

  /** The bytes as `decode` reads them: where each field of h lies. */
  ghost predicate LaidOut(b: seq<byte>, h: StreamHeaderV1) {
    var n, m := |h.deviceDesc|, |h.codecHeader|;
    && |b| == 32 + n + m && b[0..4] == STREAM_HEADER_MAGIC && b[4] == 1
    && b[5] == h.codec && b[6] == h.channels && b[7] == h.bitsPerSample
    && U32Of(b[8..12]) == h.sampleRate && U64Of(b[12..20]) == h.clockEpochUs && U64Of(b[20..28]) == h.wallClockHintMs
    && U16Of(b[28..30]) == n && b[30..30 + n] == h.deviceDesc
    && U16Of(b[30 + n..32 + n]) == m && b[32 + n..] == h.codecHeader
  }

  lemma DecodeReadsLayout(b: seq<byte>, h: StreamHeaderV1)
    ensures Decode(b) == Ok(h) <==> LaidOut(b, h)
  {
    var n, m := |h.deviceDesc|, |h.codecHeader|;
    if LaidOut(b, h) { assert b[32 + n..32 + n + m] == b[32 + n..]; }
    if Decode(b) == Ok(h) { assert b[32 + n..32 + n + m] == b[32 + n..]; }
  }

  /** The two variable parts after the fixed one. */
  ghost predicate PartsAt(b: seq<byte>, desc: seq<byte>, codec: seq<byte>) {
    var n, m := |desc|, |codec|;
    && |b| == 32 + n + m && U16Of(b[28..30]) == n && b[30..30 + n] == desc
    && U16Of(b[30 + n..32 + n]) == m && b[32 + n..] == codec
  }

  lemma PartsRead(b: seq<byte>, fixed: seq<byte>, desc: seq<byte>, codec: seq<byte>)
    requires |desc| <= 0xFFFF && |codec| <= 0xFFFF && |fixed| == 28
    requires b == fixed + (Sized(desc) + Sized(codec))
    ensures PartsAt(b, desc, codec) && b[..28] == fixed
  {
    assert b[28..] == Sized(desc) + Sized(codec);
    SizedReads(b, 28, desc, Sized(codec));
    var at := 30 + |desc|;
    assert b[at..] == Sized(codec) + [];
    SizedReads(b, at, codec, []);
    assert b[at + 2..at + 2 + |codec|] == b[at + 2..];
  }

  lemma LaysOut(h: StreamHeaderV1, b: seq<byte>)
    requires |h.deviceDesc| <= 0xFFFF && |h.codecHeader| <= 0xFFFF
    requires b == FixedPart(h) + (Sized(h.deviceDesc) + Sized(h.codecHeader))
    ensures LaidOut(b, h)
  {
    PartsRead(b, FixedPart(h), h.deviceDesc, h.codecHeader);
    FixedReads(h, b);
  }

  /** Every header decodes, to itself with its over-long parts cut. */
  lemma DecodeOfEncode(h: StreamHeaderV1)
    ensures Decode(Encoded(h)) == Ok(Kept(h))
  {
    LaysOut(Kept(h), Encoded(h));
    DecodeReadsLayout(Encoded(h), Kept(h));
  }

  /** Nothing is cut exactly when both lengths fit a u16. */
  lemma KeptWhole(h: StreamHeaderV1)
    ensures Kept(h) == h <==> |h.deviceDesc| <= 0xFFFF && |h.codecHeader| <= 0xFFFF
  {
    var k := Kept(h);
    if |h.deviceDesc| <= 0xFFFF { assert h.deviceDesc[..|h.deviceDesc|] == h.deviceDesc; }
    if |h.codecHeader| <= 0xFFFF { assert h.codecHeader[..|h.codecHeader|] == h.codecHeader; }
    assert |k.deviceDesc| <= 0xFFFF && |k.codecHeader| <= 0xFFFF;
  }

  lemma FixedWrites(b: seq<byte>, h: StreamHeaderV1)
    requires |b| >= 28 && b[0..4] == STREAM_HEADER_MAGIC && b[4] == 1 && b[5] == h.codec && b[6] == h.channels
        && b[7] == h.bitsPerSample
    requires h.sampleRate == U32Of(b[8..12]) && h.clockEpochUs == U64Of(b[12..20])
        && h.wallClockHintMs == U64Of(b[20..28])
    ensures FixedPart(h) == b[..28]
  {
    Rewrites(b[8..12]);
    Rewrites(b[12..20]);
    Rewrites(b[20..28]);
    assert b[..28] == b[0..4] + [b[4], b[5], b[6], b[7]] + b[8..12] + b[12..20] + b[20..28];
  }

  lemma SizedWrites(b: seq<byte>, at: nat, x: seq<byte>)
    requires at + 2 + |x| <= |b| && U16Of(b[at..at + 2]) == |x| && b[at + 2..at + 2 + |x|] == x
    ensures Sized(x) == b[at..at + 2 + |x|]
  {
    Rewrites(b[at..at + 2]);
  }

  lemma ThreeParts(b: seq<byte>, i: nat, j: nat)
    requires i <= j <= |b|
    ensures b == b[..i] + (b[i..j] + b[j..])
  {
  }

  lemma PartsWrite(b: seq<byte>, desc: seq<byte>, codec: seq<byte>)
    requires PartsAt(b, desc, codec)
    ensures b == b[..28] + (Sized(desc) + Sized(codec))
  {
    var at := 30 + |desc|;
    SizedWrites(b, 28, desc);
    assert b[at + 2..at + 2 + |codec|] == b[at + 2..];
    SizedWrites(b, at, codec);
    assert b[at..at + 2 + |codec|] == b[at..];
    ThreeParts(b, 28, at);
  }

  lemma LayoutWrites(b: seq<byte>, h: StreamHeaderV1)
    requires LaidOut(b, h)
    ensures FixedPart(h) + (Sized(h.deviceDesc) + Sized(h.codecHeader)) == b
  {
    FixedWrites(b, h);
    PartsWrite(b, h.deviceDesc, h.codecHeader);
  }

  /** Encoding reproduces every payload that decodes. */
  lemma EncodeOfDecode(b: seq<byte>, h: StreamHeaderV1)
    requires Decode(b) == Ok(h)
    ensures Encoded(h) == b
  {
    DecodeReadsLayout(b, h);
    LayoutWrites(b, h);
    WholeParts(h);
  }

  lemma WholeParts(h: StreamHeaderV1)
    requires |h.deviceDesc| <= 0xFFFF && |h.codecHeader| <= 0xFFFF
    ensures KeptDesc(h.deviceDesc) == h.deviceDesc && KeptCodec(h.codecHeader) == h.codecHeader
  {
    assert h.deviceDesc[..|h.deviceDesc|] == h.deviceDesc;
    assert h.codecHeader[..|h.codecHeader|] == h.codecHeader;
  }

  /** The header fits one chunk exactly when description and codec bytes leave room for the 32 fixed bytes. */
  lemma FitsOneChunk(h: StreamHeaderV1)
    requires |h.deviceDesc| <= 0xFFFF && |h.codecHeader| <= 0xFFFF
    ensures |Encoded(h)| == 32 + |h.deviceDesc| + |h.codecHeader|
    ensures |Encoded(h)| <= MAX_CHUNK_PAYLOAD_BYTES <==> |h.deviceDesc| + |h.codecHeader| <= 65_436
    ensures |h.codecHeader| == 42 ==> (|Encoded(h)| <= MAX_CHUNK_PAYLOAD_BYTES <==> |h.deviceDesc| <= 65_394)
  {
    WholeParts(h);
  }

  /** Chunk 0: outside the sample domain, stamped with the stream's epoch. */
  function HeaderChunk(stream: StreamKey, h: StreamHeaderV1): AudioChunk {
    AudioChunk(stream, 0, 0, 0, h.clockEpochUs, Crc32c.Checksum(Encoded(h)), Encoded(h))
  }
}
