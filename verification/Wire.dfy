/** The data-plane wire format: encoding, the Reader-driven decoder, and the flat layout both obey. */
module Wire {
  import opened Machine
  import opened Ranges
  import opened Frames
  import opened LittleEndian

  const MAGIC: seq<byte> := [0x41, 0x4E]
  const PROTOCOL_VERSION: byte := 0x01

  const FT_AUDIO_CHUNK: byte := 0x01
  const FT_ACK_STATUS: byte := 0x02
  const FT_BACKFILL_REQUEST: byte := 0x03
  const FT_GAP_REPORT: byte := 0x04
  const FT_TIME_PING: byte := 0x05
  const FT_TIME_PONG: byte := 0x06
  const FT_HAVE_SUMMARY: byte := 0x07

  /** A known frame, or an unknown type to be ignored for forward compatibility. */
  datatype Decoded = Known(frame: Frame) | UnknownType(frameType: byte)

  datatype DecodeError =
    | BadMagic
    | Truncated
    | VersionMismatch(got: byte)
    | Malformed(reason: string)
    | Oversize(len: nat)

  // ---- encoding ------------------------------------------------------------------------

  function FrameType(f: Frame): byte {
    match f
    case ChunkFrame(_) => FT_AUDIO_CHUNK
    case AckFrame(_) => FT_ACK_STATUS
    case BackfillRequest(_) => FT_BACKFILL_REQUEST
    case GapReport(_) => FT_GAP_REPORT
    case PingFrame(_) => FT_TIME_PING
    case PongFrame(_) => FT_TIME_PONG
    case HaveSummary(_) => FT_HAVE_SUMMARY
  }

  function KeyBytes(k: StreamKey): seq<byte> { k.takeId + k.streamId }

  function RangeBytes(rs: seq<SeqRange>): (b: seq<byte>)
    ensures |b| == 8 * |rs|
    decreases |rs|
  {
    if rs == [] then [] else Le(4, rs[0].start) + (Le(4, rs[0].end) + RangeBytes(rs[1..]))
  }

  /** The count is a u16; a longer list is cut at 65535 entries. */
  function CountedRanges(rs: seq<SeqRange>): seq<byte> {
    var n := Min(|rs|, 0xFFFF);
    Le(2, n) + RangeBytes(rs[..n])
  }

  /** The bytes after the four-byte frame header. */
  function Body(f: Frame): seq<byte> {
    match f
    case ChunkFrame(c) =>
      KeyBytes(c.stream) + (Le(4, c.seqNo) + (Le(8, c.firstSampleIndex) + (Le(4, c.sampleCount)
        + (Le(8, c.captureTsUs) + (WordBytes(c.crc32c) + (Le(4, |c.payload|) + c.payload))))))
    case AckFrame(a) => KeyBytes(a.stream) + (Le(4, a.chwm) + CountedRanges(a.holes))
    case BackfillRequest(r) => KeyBytes(r.stream) + CountedRanges(r.ranges)
    case GapReport(r) => KeyBytes(r.stream) + CountedRanges(r.ranges)
    case HaveSummary(r) => KeyBytes(r.stream) + CountedRanges(r.ranges)
    case PingFrame(p) => Le(4, p.pingId) + Le(8, p.t1)
    case PongFrame(p) => Le(4, p.pingId) + (Le(8, p.t1) + (Le(8, p.t2) + Le(8, p.t3)))
  }

  function Encode(f: Frame): seq<byte> { MAGIC + [PROTOCOL_VERSION, FrameType(f)] + Body(f) }

  lemma {:induction false} RangeBytesConcat(a: seq<SeqRange>, b: seq<SeqRange>)
    ensures RangeBytes(a + b) == RangeBytes(a) + RangeBytes(b)
    decreases |a|
  {
    if a == [] {
      assert a + b == b;
    } else {
      assert (a + b)[1..] == a[1..] + b;
      RangeBytesConcat(a[1..], b);
    }
  }

  lemma AnotherRange(base: seq<byte>, ranges: seq<SeqRange>, i: nat)
    requires i < |ranges|
    ensures base + RangeBytes(ranges[..i]) + Le(4, ranges[i].start) + Le(4, ranges[i].end)
        == base + RangeBytes(ranges[..i + 1])
  {
    var r := ranges[i];
    assert ranges[..i + 1] == ranges[..i] + [r];
    RangeBytesConcat(ranges[..i], [r]);
    assert [r][1..] == [];
    assert RangeBytes([r]) == Le(4, r.start) + Le(4, r.end);
  }

  /** Append a counted range list, range by range. */
  method AppendRanges(start: seq<byte>, ranges: seq<SeqRange>) returns (out: seq<byte>)
    ensures out == start + CountedRanges(ranges)
  {
    hide Le;
    var n := Min(|ranges|, 0xFFFF);
    out := start + Le(2, n);
    for i := 0 to n
      invariant out == start + Le(2, n) + RangeBytes(ranges[..i])
    {
      AnotherRange(start + Le(2, n), ranges, i);
      out := out + Le(4, ranges[i].start);
      out := out + Le(4, ranges[i].end);
    }
  }

  /** Append the fields of a frame one after the other, as the sender does. */
  method EncodeFrame(f: Frame) returns (out: seq<byte>)
    ensures out == Encode(f)
  {
    var header := MAGIC;
    header := header + [PROTOCOL_VERSION];
    header := header + [FrameType(f)];
    assert header == MAGIC + [PROTOCOL_VERSION, FrameType(f)];
    match f {
      case ChunkFrame(c) => out := AppendChunk(header, c);
      case AckFrame(a) => out := AppendAck(header, a);
      case BackfillRequest(r) => out := AppendList(header, r);
      case GapReport(r) => out := AppendList(header, r);
      case HaveSummary(r) => out := AppendList(header, r);
      case PingFrame(p) => out := AppendPing(header, p);
      case PongFrame(p) => out := AppendPong(header, p);
    }
  }

  method AppendAck(start: seq<byte>, a: AckStatus) returns (out: seq<byte>)
    ensures out == start + Body(AckFrame(a))
  {
    out := start + a.stream.takeId;
    out := out + a.stream.streamId;
    out := out + Le(4, a.chwm);
    out := AppendRanges(out, a.holes);
  }

  method AppendPing(start: seq<byte>, p: TimePing) returns (out: seq<byte>)
    ensures out == start + Body(PingFrame(p))
  {
    out := start + Le(4, p.pingId);
    out := out + Le(8, p.t1);
  }

  method AppendPong(start: seq<byte>, p: TimePong) returns (out: seq<byte>)
    ensures out == start + Body(PongFrame(p))
  {
    out := start + Le(4, p.pingId);
    out := out + Le(8, p.t1);
    out := out + Le(8, p.t2);
    out := out + Le(8, p.t3);
  }

  method AppendChunk(start: seq<byte>, c: AudioChunk) returns (out: seq<byte>)
    ensures out == start + Body(ChunkFrame(c))
  {
    out := start + c.stream.takeId;
    out := out + c.stream.streamId;
    out := out + Le(4, c.seqNo);
    out := out + Le(8, c.firstSampleIndex);
    out := out + Le(4, c.sampleCount);
    out := out + Le(8, c.captureTsUs);
    out := out + WordBytes(c.crc32c);
    out := out + Le(4, |c.payload|);
    out := out + c.payload;
  }

  method AppendList(start: seq<byte>, list: RangeList) returns (out: seq<byte>)
    ensures out == start + (KeyBytes(list.stream) + CountedRanges(list.ranges))
  {
    out := start + list.stream.takeId;
    out := out + list.stream.streamId;
    out := AppendRanges(out, list.ranges);
  }

  /** `encoded_len`: the capacity reserved for a frame. */
  function EncodedLen(f: Frame): nat {
    FRAME_HEADER_LEN
    + match f
      case ChunkFrame(c) => 64 + |c.payload|
      case AckFrame(a) => 32 + 4 + 2 + 8 * |a.holes|
      case BackfillRequest(r) => 32 + 2 + 8 * |r.ranges|
      case GapReport(r) => 32 + 2 + 8 * |r.ranges|
      case HaveSummary(r) => 32 + 2 + 8 * |r.ranges|
      case PingFrame(_) => 12
      case PongFrame(_) => 28
  }

  predicate Upright(rs: seq<SeqRange>) { forall i :: 0 <= i < |rs| ==> rs[i].start <= rs[i].end }

  function RangesOfFrame(f: Frame): seq<SeqRange> {
    match f
    case AckFrame(a) => a.holes
    case BackfillRequest(r) => r.ranges
    case GapReport(r) => r.ranges
    case HaveSummary(r) => r.ranges
    case _ => []
  }

  /** A frame the wire can carry: it fits, and no range is inverted. */
  predicate WellFormed(f: Frame) { EncodedLen(f) <= MAX_FRAME_BYTES && Upright(RangesOfFrame(f)) }

  // ---- the layout, at fixed offsets ---------------------------------------------------------

  function U16At(b: seq<byte>, at: nat): u16
    requires at + 2 <= |b|
  {
    U16Of(b[at..at + 2])
  }

  function U32At(b: seq<byte>, at: nat): u32
    requires at + 4 <= |b|
  {
    U32Of(b[at..at + 4])
  }

  function U64At(b: seq<byte>, at: nat): u64
    requires at + 8 <= |b|
  {
    U64Of(b[at..at + 8])
  }

  function KeyAt(b: seq<byte>, at: nat): StreamKey
    requires at + 32 <= |b|
  {
    StreamKey(b[at..at + 16], b[at + 16..at + 32])
  }

  function RangesAt(b: seq<byte>, at: nat, n: nat): (rs: seq<SeqRange>)
    requires at + 8 * n <= |b|
    ensures |rs| == n
  {
    seq(n, i requires 0 <= i < n => SeqRange(U32At(b, at + 8 * i), U32At(b, at + 8 * i + 4)))
  }

  /** Room for a fixed part, then exactly as many bytes as it announces. */
  function Sized(b: seq<byte>, end: nat, ranges: seq<SeqRange>, f: Frame): Result<Decoded, DecodeError> {
    if |b| < end then Err(Truncated)
    else if !Upright(ranges) then Err(Malformed("inverted range"))
    else if |b| > end then Err(Malformed("trailing bytes"))
    else Ok(Known(f))
  }

  function ChunkLayout(b: seq<byte>): Result<Decoded, DecodeError> {
    if |b| < AUDIO_CHUNK_HEADER_LEN then Err(Truncated)
    else
      var len := U32At(b, 64);
      var end := AUDIO_CHUNK_HEADER_LEN + len;
      if len > MAX_CHUNK_PAYLOAD_BYTES then Err(Malformed("payload_len exceeds frame bound"))
      else if |b| < end then Err(Truncated)
      else
        Sized(b, end, [], ChunkFrame(AudioChunk(KeyAt(b, 4), U32At(b, 36), U64At(b, 40), U32At(b, 48), U64At(b, 52),
            WordOf(b[60..64]), b[68..end])))
  }

  function AckLayout(b: seq<byte>): Result<Decoded, DecodeError> {
    if |b| < 42 then Err(Truncated)
    else
      var n := U16At(b, 40);
      if |b| < 42 + 8 * n then Err(Truncated)
      else
        var holes := RangesAt(b, 42, n);
        Sized(b, 42 + 8 * n, holes, AckFrame(AckStatus(KeyAt(b, 4), U32At(b, 36), holes)))
  }

  function ListFrame(t: byte, list: RangeList): Frame {
    if t == FT_BACKFILL_REQUEST then BackfillRequest(list)
    else if t == FT_GAP_REPORT then GapReport(list)
    else HaveSummary(list)
  }

  function ListLayout(b: seq<byte>, t: byte): Result<Decoded, DecodeError> {
    if |b| < 38 then Err(Truncated)
    else
      var n := U16At(b, 36);
      if |b| < 38 + 8 * n then Err(Truncated)
      else
        var ranges := RangesAt(b, 38, n);
        Sized(b, 38 + 8 * n, ranges, ListFrame(t, RangeList(KeyAt(b, 4), ranges)))
  }

  function PingLayout(b: seq<byte>): Result<Decoded, DecodeError> {
    if |b| < 16 then Err(Truncated) else Sized(b, 16, [], PingFrame(TimePing(U32At(b, 4), U64At(b, 8))))
  }

  function PongLayout(b: seq<byte>): Result<Decoded, DecodeError> {
    if |b| < 32 then Err(Truncated)
    else Sized(b, 32, [], PongFrame(TimePong(U32At(b, 4), U64At(b, 8), U64At(b, 16), U64At(b, 24))))
  }

  /** What the decoder answers for any bytes at all. */
  function Layout(b: seq<byte>): Result<Decoded, DecodeError> {
    if |b| > MAX_FRAME_BYTES then Err(Oversize(|b|))
    else if |b| < FRAME_HEADER_LEN then Err(Truncated)
    else if b[0..2] != MAGIC then Err(BadMagic)
    else if b[2] != PROTOCOL_VERSION then Err(VersionMismatch(b[2]))
    else if b[3] == FT_AUDIO_CHUNK then ChunkLayout(b)
    else if b[3] == FT_ACK_STATUS then AckLayout(b)
    else if b[3] == FT_BACKFILL_REQUEST || b[3] == FT_GAP_REPORT || b[3] == FT_HAVE_SUMMARY then ListLayout(b, b[3])
    else if b[3] == FT_TIME_PING then PingLayout(b)
    else if b[3] == FT_TIME_PONG then PongLayout(b)
    else Ok(UnknownType(b[3]))
  }

  // ---- the decoder as it runs -----------------------------------------------------------------

  class Reader {
    const buf: seq<byte>
    var pos: nat

    ghost predicate Valid() reads this { pos <= |buf| }

    constructor (buf: seq<byte>, pos: nat)
      requires pos <= |buf|
      ensures Valid() && this.buf == buf && this.pos == pos
    {
      this.buf := buf;
      this.pos := pos;
    }

    method Bytes(n: nat) returns (r: Result<seq<byte>, DecodeError>)
      requires Valid()
      modifies this
      ensures Valid()
      ensures if old(pos) + n > |buf| then r == Err(Truncated) && pos == old(pos)
              else r == Ok(buf[old(pos)..old(pos) + n]) && pos == old(pos) + n
    {
      var end := pos + n;
      if end > |buf| { return Err(Truncated); }
      r := Ok(buf[pos..end]);
      pos := end;
    }

    method U16() returns (r: Result<u16, DecodeError>)
      requires Valid()
      modifies this
      ensures Valid()
      ensures if old(pos) + 2 > |buf| then r == Err(Truncated) else r == Ok(U16At(buf, old(pos))) && pos == old(pos) + 2
    {
      var b :- Bytes(2);
      return Ok(U16Of(b));
    }

    method U32() returns (r: Result<u32, DecodeError>)
      requires Valid()
      modifies this
      ensures Valid()
      ensures if old(pos) + 4 > |buf| then r == Err(Truncated) else r == Ok(U32At(buf, old(pos))) && pos == old(pos) + 4
    {
      var b :- Bytes(4);
      return Ok(U32Of(b));
    }

    method U64() returns (r: Result<u64, DecodeError>)
      requires Valid()
      modifies this
      ensures Valid()
      ensures if old(pos) + 8 > |buf| then r == Err(Truncated) else r == Ok(U64At(buf, old(pos))) && pos == old(pos) + 8
    {
      var b :- Bytes(8);
      return Ok(U64Of(b));
    }

    method Key() returns (r: Result<StreamKey, DecodeError>)
      requires Valid()
      modifies this
      ensures Valid()
      ensures if old(pos) + 32 > |buf| then r == Err(Truncated) else
          r == Ok(KeyAt(buf, old(pos))) && pos == old(pos) + 32
    {
      var takeId :- Bytes(16);
      var streamId :- Bytes(16);
      return Ok(StreamKey(takeId, streamId));
    }

    /** A count, then that many ranges; impossible counts are refused before reading on. */
    method Ranges() returns (r: Result<seq<SeqRange>, DecodeError>)
      requires Valid()
      modifies this
      ensures Valid()
      ensures var at := old(pos);
              if at + 2 > |buf| then r == Err(Truncated)
              else
                var n := U16At(buf, at);
                if at + 2 + 8 * n > |buf| then r == Err(Truncated)
                else if !Upright(RangesAt(buf, at + 2, n)) then r == Err(Malformed("inverted range"))
                else r == Ok(RangesAt(buf, at + 2, n)) && pos == at + 2 + 8 * n
    {
      var count :- U16();
      var n: nat := count;
      if |buf| - pos < n * 8 { return Err(Truncated); }
      ghost var at := pos;
      var ranges: seq<SeqRange> := [];
      for i := 0 to n
        invariant Valid() && pos == at + 8 * i
        invariant ranges == RangesAt(buf, at, n)[..i] && Upright(ranges)
      {
        var start := U32();
        var end := U32();
        assert RangesAt(buf, at, n)[i] == SeqRange(start.value, end.value);
        if end.value < start.value { return Err(Malformed("inverted range")); }
        ranges := ranges + [SeqRange(start.value, end.value)];
      }
      assert RangesAt(buf, at, n)[..n] == RangesAt(buf, at, n);
      return Ok(ranges);
    }

    method ExpectEnd() returns (r: Result<(), DecodeError>)
      requires Valid()
      ensures if pos == |buf| then r == Ok(()) else r == Err(Malformed("trailing bytes"))
    {
      if pos != |buf| { return Err(Malformed("trailing bytes")); }
      return Ok(());
    }
  }

  method DecodeChunk(r: Reader) returns (d: Result<Decoded, DecodeError>)
    requires r.Valid() && r.pos == FRAME_HEADER_LEN
    modifies r
    ensures d == ChunkLayout(r.buf)
  {
    var stream :- r.Key();
    var s :- r.U32();
    var first :- r.U64();
    var count :- r.U32();
    var ts :- r.U64();
    var crc :- r.Bytes(4);
    var len :- r.U32();
    if len > MAX_CHUNK_PAYLOAD_BYTES { return Err(Malformed("payload_len exceeds frame bound")); }
    var payload :- r.Bytes(len);
    var _ :- r.ExpectEnd();
    return Ok(Known(ChunkFrame(AudioChunk(stream, s, first, count, ts, WordOf(crc), payload))));
  }

  method DecodeAck(r: Reader) returns (d: Result<Decoded, DecodeError>)
    requires r.Valid() && r.pos == FRAME_HEADER_LEN
    modifies r
    ensures d == AckLayout(r.buf)
  {
    var stream :- r.Key();
    var chwm :- r.U32();
    var holes :- r.Ranges();
    var _ :- r.ExpectEnd();
    return Ok(Known(AckFrame(AckStatus(stream, chwm, holes))));
  }

  method DecodeList(r: Reader, t: byte) returns (d: Result<Decoded, DecodeError>)
    requires r.Valid() && r.pos == FRAME_HEADER_LEN
    modifies r
    ensures d == ListLayout(r.buf, t)
  {
    var stream :- r.Key();
    var ranges :- r.Ranges();
    var _ :- r.ExpectEnd();
    return Ok(Known(ListFrame(t, RangeList(stream, ranges))));
  }

  method DecodePing(r: Reader) returns (d: Result<Decoded, DecodeError>)
    requires r.Valid() && r.pos == FRAME_HEADER_LEN
    modifies r
    ensures d == PingLayout(r.buf)
  {
    var pingId :- r.U32();
    var t1 :- r.U64();
    var _ :- r.ExpectEnd();
    return Ok(Known(PingFrame(TimePing(pingId, t1))));
  }

  method DecodePong(r: Reader) returns (d: Result<Decoded, DecodeError>)
    requires r.Valid() && r.pos == FRAME_HEADER_LEN
    modifies r
    ensures d == PongLayout(r.buf)
  {
    var pingId :- r.U32();
    var t1 :- r.U64();
    var t2 :- r.U64();
    var t3 :- r.U64();
    var _ :- r.ExpectEnd();
    return Ok(Known(PongFrame(TimePong(pingId, t1, t2, t3))));
  }

  /** Decode one message: total, whatever the bytes. */
  method Decode(bytes: seq<byte>) returns (d: Result<Decoded, DecodeError>)
    ensures d == Layout(bytes)
  {
    if |bytes| > MAX_FRAME_BYTES { return Err(Oversize(|bytes|)); }
    if |bytes| < FRAME_HEADER_LEN { return Err(Truncated); }
    if bytes[0..2] != MAGIC { return Err(BadMagic); }
    if bytes[2] != PROTOCOL_VERSION { return Err(VersionMismatch(bytes[2])); }
    var t := bytes[3];
    var r := new Reader(bytes, FRAME_HEADER_LEN);
    if t == FT_AUDIO_CHUNK {
      d := DecodeChunk(r);
    } else if t == FT_ACK_STATUS {
      d := DecodeAck(r);
    } else if t == FT_BACKFILL_REQUEST || t == FT_GAP_REPORT || t == FT_HAVE_SUMMARY {
      d := DecodeList(r, t);
    } else if t == FT_TIME_PING {
      d := DecodePing(r);
    } else if t == FT_TIME_PONG {
      d := DecodePong(r);
    } else {
      d := Ok(UnknownType(t));
    }
  }
}
