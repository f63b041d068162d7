/** The codec is a bijection between well-formed frames and the messages the decoder accepts. */
module WireFacts {
  import opened Machine
  import opened Ranges
  import opened Frames
  import opened LittleEndian
  import opened Wire

  // ---- reading and joining pieces -----------------------------------------------------------

  lemma Peel(b: seq<byte>, at: nat, x: seq<byte>, rest: seq<byte>)
    requires at <= |b| && b[at..] == x + rest
    ensures at + |x| <= |b| && b[at..at + |x|] == x && b[at + |x|..] == rest
  {
    assert b[at..][..|x|] == b[at..at + |x|];
    assert b[at..][|x|..] == b[at + |x|..];
  }

  lemma Field16(b: seq<byte>, at: nat, x: u16, rest: seq<byte>)
    requires at <= |b| && b[at..] == Le(2, x) + rest
    ensures at + 2 <= |b| && U16At(b, at) == x && b[at + 2..] == rest
  {
    Peel(b, at, Le(2, x), rest);
    Reads16(x);
  }

  lemma Field32(b: seq<byte>, at: nat, x: u32, rest: seq<byte>)
    requires at <= |b| && b[at..] == Le(4, x) + rest
    ensures at + 4 <= |b| && U32At(b, at) == x && b[at + 4..] == rest
  {
    Peel(b, at, Le(4, x), rest);
    Reads32(x);
  }

  lemma Field64(b: seq<byte>, at: nat, x: u64, rest: seq<byte>)
    requires at <= |b| && b[at..] == Le(8, x) + rest
    ensures at + 8 <= |b| && U64At(b, at) == x && b[at + 8..] == rest
  {
    Peel(b, at, Le(8, x), rest);
    Reads64(x);
  }

  lemma FieldKey(b: seq<byte>, at: nat, k: StreamKey, rest: seq<byte>)
    requires at <= |b| && b[at..] == KeyBytes(k) + rest
    ensures at + 32 <= |b| && KeyAt(b, at) == k && b[at + 32..] == rest
  {
    Peel(b, at, KeyBytes(k), rest);
    KeyReads(b, at, k);
  }

  lemma KeyReads(b: seq<byte>, at: nat, k: StreamKey)
    requires at + 32 <= |b| && b[at..at + 32] == KeyBytes(k)
    ensures KeyAt(b, at) == k
  {
    assert b[at..at + 16] == b[at..at + 32][..16] == k.takeId;
    assert b[at + 16..at + 32] == b[at..at + 32][16..] == k.streamId;
  }

  lemma KeyWrites(b: seq<byte>, at: nat)
    requires at + 32 <= |b|
    ensures KeyBytes(KeyAt(b, at)) == b[at..at + 32]
  {
  }

  lemma {:induction false} RangesRead(b: seq<byte>, at: nat, rs: seq<SeqRange>, rest: seq<byte>)
    requires at <= |b| && b[at..] == RangeBytes(rs) + rest
    ensures RangesAt(b, at, |rs|) == rs
    decreases |rs|
  {
    if rs != [] {
      var tail := RangeBytes(rs[1..]) + rest;
      assert RangeBytes(rs) + rest == Le(4, rs[0].start) + (Le(4, rs[0].end) + tail);
      Field32(b, at, rs[0].start, Le(4, rs[0].end) + tail);
      Field32(b, at + 4, rs[0].end, tail);
      RangesRead(b, at + 8, rs[1..], rest);
      RangesCons(b, at, |rs|);
    }
  }

  lemma RangesCons(b: seq<byte>, at: nat, n: nat)
    requires n > 0 && at + 8 * n <= |b|
    ensures RangesAt(b, at, n) == [SeqRange(U32At(b, at), U32At(b, at + 4))] + RangesAt(b, at + 8, n - 1)
  {
    forall i | 0 < i < n ensures RangesAt(b, at, n)[i] == RangesAt(b, at + 8, n - 1)[i - 1] {
      assert at + 8 + 8 * (i - 1) == at + 8 * i;
    }
  }

  lemma Rewrites16(b: seq<byte>, at: nat)
    requires at + 2 <= |b|
    ensures Le(2, U16At(b, at)) == b[at..at + 2]
  {
    Rewrites(b[at..at + 2]);
  }

  lemma Rewrites32(b: seq<byte>, at: nat)
    requires at + 4 <= |b|
    ensures Le(4, U32At(b, at)) == b[at..at + 4]
  {
    Rewrites(b[at..at + 4]);
  }

  lemma Rewrites64(b: seq<byte>, at: nat)
    requires at + 8 <= |b|
    ensures Le(8, U64At(b, at)) == b[at..at + 8]
  {
    Rewrites(b[at..at + 8]);
  }

  lemma RangeBytesCons(r: SeqRange, tail: seq<SeqRange>)
    ensures RangeBytes([r] + tail) == Le(4, r.start) + (Le(4, r.end) + RangeBytes(tail))
  {
    assert ([r] + tail)[1..] == tail;
  }

  lemma ThreeParts(b: seq<byte>, i: nat, j: nat, k: nat, l: nat)
    requires i <= j <= k <= l <= |b|
    ensures b[i..j] + (b[j..k] + b[k..l]) == b[i..l]
  {
  }

  lemma JoinRange(b: seq<byte>, at: nat, end: nat, x: seq<byte>, y: seq<byte>, rest: seq<byte>)
    requires at + 8 <= end <= |b| && x == b[at..at + 4] && y == b[at + 4..at + 8] && rest == b[at + 8..end]
    ensures x + (y + rest) == b[at..end]
  {
    ThreeParts(b, at, at + 4, at + 8, end);
  }

  lemma {:induction false} RangesWriteTo(b: seq<byte>, at: nat, n: nat, end: nat)
    requires at + 8 * n == end <= |b|
    ensures RangeBytes(RangesAt(b, at, n)) == b[at..end]
    decreases n
  {
    if n > 0 {
      hide Le, U32At, RangesAt, RangeBytes;
      var start, stop := U32At(b, at), U32At(b, at + 4);
      var rest := RangeBytes(RangesAt(b, at + 8, n - 1));
      Rewrites32(b, at);
      Rewrites32(b, at + 4);
      RangesWriteTo(b, at + 8, n - 1, end);
      RangesCons(b, at, n);
      RangeBytesCons(SeqRange(start, stop), RangesAt(b, at + 8, n - 1));
      JoinRange(b, at, end, Le(4, start), Le(4, stop), rest);
    }
  }

  lemma RangesWrite(b: seq<byte>, at: nat, n: nat)
    requires at + 8 * n <= |b|
    ensures RangeBytes(RangesAt(b, at, n)) == b[at..at + 8 * n]
  {
    RangesWriteTo(b, at, n, at + 8 * n);
  }

  /** Bytes that agree up to `end` have the same ranges there. */
  lemma SameRanges(a: seq<byte>, b: seq<byte>, at: nat, n: nat)
    requires at + 8 * n <= |a| && at + 8 * n <= |b| && a[..at + 8 * n] == b[..at + 8 * n]
    ensures RangesAt(a, at, n) == RangesAt(b, at, n)
  {
    forall i | 0 <= i < n ensures RangesAt(a, at, n)[i] == RangesAt(b, at, n)[i] {
      SamePiece(a, b, at + 8 * i, at + 8 * i + 4, at + 8 * n);
      SamePiece(a, b, at + 8 * i + 4, at + 8 * i + 8, at + 8 * n);
    }
  }

  lemma SamePiece(a: seq<byte>, b: seq<byte>, i: nat, j: nat, end: nat)
    requires i <= j <= end <= |a| && end <= |b| && a[..end] == b[..end]
    ensures a[i..j] == b[i..j]
  {
    assert a[i..j] == a[..end][i..j] && b[i..j] == b[..end][i..j];
  }

  // ---- where an encoded frame's fields lie ------------------------------------------------------

  lemma Header(f: Frame)
    ensures var e := Encode(f);
            |e| == 4 + |Body(f)| && e[0..2] == MAGIC && e[2] == PROTOCOL_VERSION && e[3] == FrameType(f)
                && e[4..] == Body(f)
  {
  }

  lemma ChunkHead(c: AudioChunk, e: seq<byte>, rest: seq<byte>)
    requires |e| >= 4 && e[4..] == KeyBytes(c.stream) + (Le(4, c.seqNo) + (Le(8, c.firstSampleIndex) + (Le(4,
        c.sampleCount) + rest)))
    ensures |e| >= 52 && e[52..] == rest
    ensures KeyAt(e, 4) == c.stream && U32At(e, 36) == c.seqNo && U64At(e, 40) == c.firstSampleIndex
        && U32At(e, 48) == c.sampleCount
  {
    FieldKey(e, 4, c.stream, Le(4, c.seqNo) + (Le(8, c.firstSampleIndex) + (Le(4, c.sampleCount) + rest)));
    ChunkNumbers(e, c.seqNo, c.firstSampleIndex, c.sampleCount, rest);
  }

  lemma ChunkNumbers(e: seq<byte>, seqNo: u32, first: u64, count: u32, rest: seq<byte>)
    requires |e| >= 36 && e[36..] == Le(4, seqNo) + (Le(8, first) + (Le(4, count) + rest))
    ensures |e| >= 52 && e[52..] == rest
    ensures U32At(e, 36) == seqNo && U64At(e, 40) == first && U32At(e, 48) == count
  {
    var tail := Le(4, count) + rest;
    Field32(e, 36, seqNo, Le(8, first) + tail);
    Field64(e, 40, first, tail);
    Field32(e, 48, count, rest);
  }

  lemma ChunkTail(c: AudioChunk, e: seq<byte>)
    requires |e| >= 52 && |c.payload| <= U32_MAX
    requires e[52..] == Le(8, c.captureTsUs) + (WordBytes(c.crc32c) + (Le(4, |c.payload|) + c.payload))
    ensures |e| == AUDIO_CHUNK_HEADER_LEN + |c.payload|
    ensures U64At(e, 52) == c.captureTsUs && WordOf(e[60..64]) == c.crc32c && U32At(e, 64) == |c.payload|
        && e[68..] == c.payload
  {
    var r6 := Le(4, |c.payload|) + c.payload;
    Field64(e, 52, c.captureTsUs, WordBytes(c.crc32c) + r6);
    Peel(e, 60, WordBytes(c.crc32c), r6);
    WordReads(c.crc32c);
    Field32(e, 64, |c.payload|, c.payload);
  }

  lemma ChunkFields(c: AudioChunk, e: seq<byte>)
    requires e == Encode(ChunkFrame(c)) && |c.payload| <= U32_MAX
    ensures |e| == AUDIO_CHUNK_HEADER_LEN + |c.payload| && U32At(e, 64) == |c.payload|
    ensures AudioChunk(KeyAt(e, 4), U32At(e, 36), U64At(e, 40), U32At(e, 48), U64At(e, 52), WordOf(e[60..64]),
        e[68..]) == c
  {
    Header(ChunkFrame(c));
    var rest := Le(8, c.captureTsUs) + (WordBytes(c.crc32c) + (Le(4, |c.payload|) + c.payload));
    ChunkHead(c, e, rest);
    ChunkTail(c, e);
  }

  lemma CountedFields(e: seq<byte>, at: nat, rs: seq<SeqRange>)
    requires at <= |e| && e[at..] == CountedRanges(rs) && |rs| <= 0xFFFF
    ensures |e| == at + 2 + 8 * |rs| && U16At(e, at) == |rs| && RangesAt(e, at + 2, |rs|) == rs
  {
    assert rs[..|rs|] == rs;
    Field16(e, at, |rs|, RangeBytes(rs));
    assert e[at + 2..] == RangeBytes(rs) + [];
    RangesRead(e, at + 2, rs, []);
  }

  lemma AckFields(a: AckStatus, e: seq<byte>)
    requires e == Encode(AckFrame(a)) && |a.holes| <= 0xFFFF
    ensures |e| == 42 + 8 * |a.holes| && KeyAt(e, 4) == a.stream && U32At(e, 36) == a.chwm
    ensures U16At(e, 40) == |a.holes| && RangesAt(e, 42, |a.holes|) == a.holes
  {
    Header(AckFrame(a));
    var counted := CountedRanges(a.holes);
    FieldKey(e, 4, a.stream, Le(4, a.chwm) + counted);
    Field32(e, 36, a.chwm, counted);
    CountedFields(e, 40, a.holes);
  }

  lemma ListFields(list: RangeList, e: seq<byte>)
    requires |e| >= 4 && e[4..] == KeyBytes(list.stream) + CountedRanges(list.ranges) && |list.ranges| <= 0xFFFF
    ensures |e| == 38 + 8 * |list.ranges| && KeyAt(e, 4) == list.stream
    ensures U16At(e, 36) == |list.ranges| && RangesAt(e, 38, |list.ranges|) == list.ranges
  {
    FieldKey(e, 4, list.stream, CountedRanges(list.ranges));
    CountedFields(e, 36, list.ranges);
  }

  lemma PingFields(p: TimePing, e: seq<byte>)
    requires e == Encode(PingFrame(p))
    ensures |e| == 16 && U32At(e, 4) == p.pingId && U64At(e, 8) == p.t1
  {
    Header(PingFrame(p));
    Field32(e, 4, p.pingId, Le(8, p.t1));
    assert e[8..] == Le(8, p.t1) + [];
    Field64(e, 8, p.t1, []);
  }

  lemma TimesFields(e: seq<byte>, t1: u64, t2: u64, t3: u64)
    requires |e| >= 8 && e[8..] == Le(8, t1) + (Le(8, t2) + Le(8, t3))
    ensures |e| == 32 && U64At(e, 8) == t1 && U64At(e, 16) == t2 && U64At(e, 24) == t3
  {
    SplitTimes(e, Le(8, t1), Le(8, t2), Le(8, t3));
    Reads64(t1);
    Reads64(t2);
    Reads64(t3);
  }

  lemma SplitTimes(e: seq<byte>, x: seq<byte>, y: seq<byte>, z: seq<byte>)
    requires |e| >= 8 && |x| == |y| == |z| == 8 && e[8..] == x + (y + z)
    ensures |e| == 32 && e[8..16] == x && e[16..24] == y && e[24..32] == z
  {
    assert e[8..16] == e[8..][..8] && e[16..24] == e[8..][8..16] && e[24..32] == e[8..][16..24];
  }

  lemma PongFields(p: TimePong, e: seq<byte>)
    requires e == Encode(PongFrame(p))
    ensures |e| == 32 && U32At(e, 4) == p.pingId && U64At(e, 8) == p.t1 && U64At(e, 16) == p.t2 && U64At(e, 24) == p.t3
  {
    Header(PongFrame(p));
    Field32(e, 4, p.pingId, Le(8, p.t1) + (Le(8, p.t2) + Le(8, p.t3)));
    TimesFields(e, p.t1, p.t2, p.t3);
  }

  // ---- the decoder on encoded frames, their prefixes, and their extensions ---------------------

  /** What `encoded_len` announces is what `encode` writes, for every frame that fits. */
  lemma EncodedLenIsExact(f: Frame)
    requires |RangesOfFrame(f)| <= 0xFFFF
    ensures |Encode(f)| == EncodedLen(f)
  {
    Header(f);
    CountedLen(RangesOfFrame(f));
  }

  lemma CountedLen(rs: seq<SeqRange>)
    ensures |CountedRanges(rs)| == 2 + 8 * Min(|rs|, 0xFFFF)
  {
  }

  lemma TooBig(f: Frame)
    requires EncodedLen(f) > MAX_FRAME_BYTES
    ensures |Encode(f)| > MAX_FRAME_BYTES
  {
    Header(f);
    CountedLen(RangesOfFrame(f));
  }

  /** One of the two is a prefix of the other. */
  ghost predicate Agree(b: seq<byte>, e: seq<byte>) { b <= e || e <= b }

  lemma AgreeUpTo(b: seq<byte>, e: seq<byte>, k: nat)
    requires Agree(b, e) && k <= |b| && k <= |e|
    ensures b[..k] == e[..k]
  {
  }

  lemma AgreeAll(b: seq<byte>, e: seq<byte>)
    requires Agree(b, e) && |b| == |e|
    ensures b == e
  {
  }

  /** The decoder on a message of which `e` is the intended encoding of f, cut short or continued. */
  function Heard(f: Frame, e: seq<byte>, b: seq<byte>): Result<Decoded, DecodeError> {
    if |b| < |e| then Err(Truncated)
    else if !Upright(RangesOfFrame(f)) then Err(Malformed("inverted range"))
    else if |b| > |e| then Err(Malformed("trailing bytes"))
    else Ok(Known(f))
  }

  lemma ChunkWhole(b: seq<byte>, len: nat)
    requires |b| == AUDIO_CHUNK_HEADER_LEN + len && U32At(b, 64) == len && len <= MAX_CHUNK_PAYLOAD_BYTES
    ensures ChunkLayout(b)
         == Ok(Known(ChunkFrame(AudioChunk(KeyAt(b, 4), U32At(b, 36), U64At(b, 40), U32At(b, 48), U64At(b, 52),
             WordOf(b[60..64]), b[68..]))))
  {
    assert b[68..|b|] == b[68..];
  }

  lemma ChunkExact(c: AudioChunk, e: seq<byte>)
    requires e == Encode(ChunkFrame(c)) && |c.payload| <= MAX_CHUNK_PAYLOAD_BYTES
    ensures ChunkLayout(e) == Ok(Known(ChunkFrame(c)))
  {
    ChunkFields(c, e);
    ChunkWhole(e, |c.payload|);
  }

  lemma ChunkInexact(b: seq<byte>, len: nat)
    requires |b| >= AUDIO_CHUNK_HEADER_LEN ==> U32At(b, 64) == len
    requires len <= MAX_CHUNK_PAYLOAD_BYTES && |b| != AUDIO_CHUNK_HEADER_LEN + len
    ensures ChunkLayout(b) == Err(if |b| < AUDIO_CHUNK_HEADER_LEN + len then Truncated else Malformed("trailing bytes"))
  {
  }

  lemma HearChunk(c: AudioChunk, e: seq<byte>, b: seq<byte>)
    requires e == Encode(ChunkFrame(c)) && |c.payload| <= MAX_CHUNK_PAYLOAD_BYTES && Agree(b, e)
    ensures ChunkLayout(b) == Heard(ChunkFrame(c), e, b)
  {
    hide Encode, Body;
    if |b| == |e| {
      AgreeAll(b, e);
      ChunkExact(c, e);
    } else {
      ChunkFields(c, e);
      if |b| >= AUDIO_CHUNK_HEADER_LEN {
        AgreeUpTo(b, e, 68);
        SamePiece(b, e, 64, 68, 68);
      }
      ChunkInexact(b, |c.payload|);
    }
  }

  lemma HearAck(a: AckStatus, e: seq<byte>, b: seq<byte>)
    requires e == Encode(AckFrame(a)) && |a.holes| <= 8186 && Agree(b, e)
    ensures AckLayout(b) == Heard(AckFrame(a), e, b)
  {
    AckFields(a, e);
    if |b| >= 42 {
      AgreeUpTo(b, e, 42);
      SamePiece(b, e, 40, 42, 42);
      if |b| >= |e| {
        AgreeUpTo(b, e, |e|);
        SameRanges(b, e, 42, |a.holes|);
        if |b| == |e| { AgreeAll(b, e); }
      }
    }
  }

  lemma HearList(f: Frame, t: byte, list: RangeList, e: seq<byte>, b: seq<byte>)
    requires f == ListFrame(t, list) && RangesOfFrame(f) == list.ranges && e == Encode(f)
    requires |list.ranges| <= MAX_RANGES_PER_FRAME && Agree(b, e)
    requires Body(f) == KeyBytes(list.stream) + CountedRanges(list.ranges)
    ensures ListLayout(b, t) == Heard(f, e, b)
  {
    Header(f);
    ListFields(list, e);
    if |b| >= 38 {
      AgreeUpTo(b, e, 38);
      SamePiece(b, e, 36, 38, 38);
      if |b| >= |e| {
        AgreeUpTo(b, e, |e|);
        SameRanges(b, e, 38, |list.ranges|);
        if |b| == |e| { AgreeAll(b, e); }
      }
    }
  }

  lemma HearPing(p: TimePing, e: seq<byte>, b: seq<byte>)
    requires e == Encode(PingFrame(p)) && Agree(b, e)
    ensures PingLayout(b) == Heard(PingFrame(p), e, b)
  {
    PingFields(p, e);
    if |b| == |e| { AgreeAll(b, e); }
  }

  lemma HearPong(p: TimePong, e: seq<byte>, b: seq<byte>)
    requires e == Encode(PongFrame(p)) && Agree(b, e)
    ensures PongLayout(b) == Heard(PongFrame(p), e, b)
  {
    PongFields(p, e);
    if |b| == |e| { AgreeAll(b, e); }
  }

  lemma SameHeader(f: Frame, e: seq<byte>, b: seq<byte>)
    requires e == Encode(f) && Agree(b, e) && FRAME_HEADER_LEN <= |b|
    ensures b[0..2] == MAGIC && b[2] == PROTOCOL_VERSION && b[3] == FrameType(f)
    ensures |e| == 4 + |Body(f)| && e[4..] == Body(f)
  {
    Header(f);
    AgreeUpTo(b, e, 4);
    SamePiece(b, e, 0, 2, 4);
    assert b[2] == b[..4][2] == e[2] && b[3] == b[..4][3] == e[3];
  }

  /** A message that agrees with an encoding this far is handed to that frame type's decoder. */
  ghost predicate Begins(f: Frame, e: seq<byte>, b: seq<byte>) {
    && EncodedLen(f) <= MAX_FRAME_BYTES && e == Encode(f)
    && Agree(b, e) && FRAME_HEADER_LEN <= |b| <= MAX_FRAME_BYTES
  }

  lemma HearChunkFrame(c: AudioChunk, e: seq<byte>, b: seq<byte>)
    requires Begins(ChunkFrame(c), e, b)
    ensures Layout(b) == Heard(ChunkFrame(c), e, b)
  {
    hide Heard, Encode, PongLayout, PingLayout, ChunkLayout, AckLayout, ListLayout;
    SameHeader(ChunkFrame(c), e, b);
    HearChunk(c, e, b);
  }

  lemma HearAckFrame(a: AckStatus, e: seq<byte>, b: seq<byte>)
    requires Begins(AckFrame(a), e, b)
    ensures Layout(b) == Heard(AckFrame(a), e, b)
  {
    hide Heard, Encode, PongLayout, PingLayout, ChunkLayout, AckLayout, ListLayout;
    SameHeader(AckFrame(a), e, b);
    HearAck(a, e, b);
  }

  lemma HearListFrame(f: Frame, t: byte, list: RangeList, e: seq<byte>, b: seq<byte>)
    requires Begins(f, e, b) && f == ListFrame(t, list) && FrameType(f) == t
    requires t == FT_BACKFILL_REQUEST || t == FT_GAP_REPORT || t == FT_HAVE_SUMMARY
    ensures Layout(b) == Heard(f, e, b)
  {
    hide Heard, Encode, PongLayout, PingLayout, ChunkLayout, AckLayout, ListLayout;
    SameHeader(f, e, b);
    HearList(f, t, list, e, b);
  }

  lemma HearPingFrame(p: TimePing, e: seq<byte>, b: seq<byte>)
    requires Begins(PingFrame(p), e, b)
    ensures Layout(b) == Heard(PingFrame(p), e, b)
  {
    hide Heard, Encode, PongLayout, PingLayout, ChunkLayout, AckLayout, ListLayout;
    SameHeader(PingFrame(p), e, b);
    HearPing(p, e, b);
  }

  lemma HearPongFrame(p: TimePong, e: seq<byte>, b: seq<byte>)
    requires Begins(PongFrame(p), e, b)
    ensures Layout(b) == Heard(PongFrame(p), e, b)
  {
    hide Heard, Encode, PongLayout, PingLayout, ChunkLayout, AckLayout, ListLayout;
    SameHeader(PongFrame(p), e, b);
    HearPong(p, e, b);
  }

  /** Every message that starts as a fitting frame's encoding, or that the encoding continues. */
  lemma HearFrame(f: Frame, e: seq<byte>, b: seq<byte>)
    requires Begins(f, e, b)
    ensures Layout(b) == Heard(f, e, b)
  {
    match f {
      case ChunkFrame(c) => HearChunkFrame(c, e, b);
      case AckFrame(a) => HearAckFrame(a, e, b);
      case BackfillRequest(list) => HearListFrame(f, FT_BACKFILL_REQUEST, list, e, b);
      case GapReport(list) => HearListFrame(f, FT_GAP_REPORT, list, e, b);
      case HaveSummary(list) => HearListFrame(f, FT_HAVE_SUMMARY, list, e, b);
      case PingFrame(p) => HearPingFrame(p, e, b);
      case PongFrame(p) => HearPongFrame(p, e, b);
    }
  }

  // ---- the bijection --------------------------------------------------------------------------------

  /** Exactly which frames survive the wire, and what becomes of the others. */
  lemma DecodeOfEncode(f: Frame)
    ensures Layout(Encode(f)) ==
            if EncodedLen(f) > MAX_FRAME_BYTES then Err(Oversize(|Encode(f)|))
            else if !Upright(RangesOfFrame(f)) then Err(Malformed("inverted range"))
            else Ok(Known(f))
  {
    if EncodedLen(f) > MAX_FRAME_BYTES {
      TooBig(f);
    } else {
      Header(f);
      EncodedLenIsExact(f);
      HearFrame(f, Encode(f), Encode(f));
    }
  }

  /** A message cut short anywhere is recognised as such. */
  lemma PrefixIsTruncated(f: Frame, n: nat)
    requires WellFormed(f) && n < |Encode(f)|
    ensures Layout(Encode(f)[..n]) == Err(Truncated)
  {
    EncodedLenIsExact(f);
    if n >= FRAME_HEADER_LEN { HearFrame(f, Encode(f), Encode(f)[..n]); }
  }

  /** A message with anything after the frame is refused. */
  lemma ExtensionIsRefused(f: Frame, extra: seq<byte>)
    requires WellFormed(f) && extra != []
    ensures var b := Encode(f) + extra;
            Layout(b) == if |b| > MAX_FRAME_BYTES then Err(Oversize(|b|)) else Err(Malformed("trailing bytes"))
  {
    var b := Encode(f) + extra;
    Header(f);
    if |b| <= MAX_FRAME_BYTES { HearFrame(f, Encode(f), b); }
  }

  lemma TwoParts(b: seq<byte>, i: nat, j: nat)
    requires i <= j <= |b|
    ensures b[i..j] + b[j..] == b[i..]
  {
  }

  lemma CountedBytes(rs: seq<SeqRange>)
    requires |rs| <= 0xFFFF
    ensures CountedRanges(rs) == Le(2, |rs|) + RangeBytes(rs)
  {
    assert rs[..|rs|] == rs;
  }

  lemma CountedWrite(b: seq<byte>, at: nat, n: nat)
    requires at + 2 <= |b| && n == U16At(b, at) && |b| == at + 2 + 8 * n
    ensures CountedRanges(RangesAt(b, at + 2, n)) == b[at..]
  {
    CountedBytes(RangesAt(b, at + 2, n));
    Rewrites16(b, at);
    RangesWrite(b, at + 2, n);
    assert b[at + 2..at + 2 + 8 * n] == b[at + 2..];
    TwoParts(b, at, at + 2);
  }

  lemma ChunkWriteTail(b: seq<byte>, c: AudioChunk)
    requires |b| >= 68 && U32At(b, 64) == |c.payload| && c.payload == b[68..]
    requires c.captureTsUs == U64At(b, 52) && c.crc32c == WordOf(b[60..64])
    ensures Le(8, c.captureTsUs) + (WordBytes(c.crc32c) + (Le(4, |c.payload|) + c.payload)) == b[52..]
  {
    Rewrites64(b, 52);
    WordWrites(b[60..64]);
    Rewrites32(b, 64);
    TwoParts(b, 64, 68);
    TwoParts(b, 60, 64);
    TwoParts(b, 52, 60);
  }

  lemma ChunkWriteHead(b: seq<byte>, c: AudioChunk)
    requires |b| >= 68 && c.stream == KeyAt(b, 4) && c.seqNo == U32At(b, 36)
    requires c.firstSampleIndex == U64At(b, 40) && c.sampleCount == U32At(b, 48)
    ensures KeyBytes(c.stream) + (Le(4, c.seqNo) + (Le(8, c.firstSampleIndex) + (Le(4, c.sampleCount) + b[52..])))
        == b[4..]
  {
    KeyWrites(b, 4);
    Rewrites32(b, 36);
    Rewrites64(b, 40);
    Rewrites32(b, 48);
    TwoParts(b, 48, 52);
    TwoParts(b, 40, 48);
    TwoParts(b, 36, 40);
    TwoParts(b, 4, 36);
  }

  lemma ChunkWrite(b: seq<byte>, f: Frame)
    requires ChunkLayout(b) == Ok(Known(f))
    ensures f.ChunkFrame? && Body(f) == b[4..] && |b| == EncodedLen(f)
  {
    var c := f.chunk;
    assert c.payload == b[68..];
    ChunkWriteTail(b, c);
    ChunkWriteHead(b, c);
  }

  lemma AckWrite(b: seq<byte>, f: Frame)
    requires AckLayout(b) == Ok(Known(f))
    ensures f.AckFrame? && Body(f) == b[4..] && |b| == EncodedLen(f) && Upright(f.ack.holes)
  {
    hide Le, U32At, RangesAt;
    var n: nat := U16At(b, 40);
    assert |b| == 42 + 8 * n && f.ack.holes == RangesAt(b, 42, n);
    CountedWrite(b, 40, n);
    AckBody(b, f.ack);
  }

  lemma AckBody(b: seq<byte>, a: AckStatus)
    requires |b| >= 42 && a.stream == KeyAt(b, 4) && a.chwm == U32At(b, 36) && CountedRanges(a.holes) == b[40..]
    ensures Body(AckFrame(a)) == b[4..]
  {
    KeyWrites(b, 4);
    Rewrites32(b, 36);
    TwoParts(b, 36, 40);
    TwoParts(b, 4, 36);
  }

  lemma ListWrite(b: seq<byte>, t: byte, f: Frame)
    requires ListLayout(b, t) == Ok(Known(f))
    requires t == FT_BACKFILL_REQUEST || t == FT_GAP_REPORT || t == FT_HAVE_SUMMARY
    ensures FrameType(f) == t && Body(f) == b[4..] && |b| == EncodedLen(f) && Upright(RangesOfFrame(f))
  {
    hide Le, RangesAt;
    KeyWrites(b, 4);
    CountedWrite(b, 36, U16At(b, 36));
    TwoParts(b, 4, 36);
  }

  lemma PingWrite(b: seq<byte>, f: Frame)
    requires PingLayout(b) == Ok(Known(f))
    ensures f.PingFrame? && Body(f) == b[4..] && |b| == EncodedLen(f)
  {
    Rewrites32(b, 4);
    Rewrites64(b, 8);
    assert b[8..16] == b[8..];
    TwoParts(b, 4, 8);
  }

  lemma TimesWrite(b: seq<byte>)
    requires |b| == 32
    ensures Le(8, U64At(b, 8)) + (Le(8, U64At(b, 16)) + Le(8, U64At(b, 24))) == b[8..]
  {
    var x, y, z := Le(8, U64At(b, 8)), Le(8, U64At(b, 16)), Le(8, U64At(b, 24));
    assert x == b[8..16] by { Rewrites64(b, 8); }
    assert y == b[16..24] by { Rewrites64(b, 16); }
    assert z == b[24..32] by { Rewrites64(b, 24); }
    JoinTimes(b, x, y, z);
  }

  lemma JoinTimes(b: seq<byte>, x: seq<byte>, y: seq<byte>, z: seq<byte>)
    requires |b| == 32 && x == b[8..16] && y == b[16..24] && z == b[24..32]
    ensures x + (y + z) == b[8..]
  {
    ThreeParts(b, 8, 16, 24, 32);
    assert b[8..32] == b[8..];
  }

  lemma PongWrite(b: seq<byte>, f: Frame)
    requires PongLayout(b) == Ok(Known(f))
    ensures f.PongFrame? && Body(f) == b[4..] && |b| == EncodedLen(f)
  {
    hide Le, U32At, U64At;
    Rewrites32(b, 4);
    TimesWrite(b);
    TwoParts(b, 4, 8);
  }

  /** Encoding reproduces, byte for byte, every message the decoder accepts as a known frame. */
  lemma EncodeOfDecode(b: seq<byte>, f: Frame)
    requires Layout(b) == Ok(Known(f))
    ensures Encode(f) == b && WellFormed(f)
  {
    if b[3] == FT_AUDIO_CHUNK {
      ChunkWrite(b, f);
    } else if b[3] == FT_ACK_STATUS {
      AckWrite(b, f);
    } else if b[3] == FT_TIME_PING {
      PingWrite(b, f);
    } else if b[3] == FT_TIME_PONG {
      PongWrite(b, f);
    } else {
      ListWrite(b, b[3], f);
    }
    HeaderBytes(b);
  }

  lemma HeaderBytes(b: seq<byte>)
    requires |b| >= 4 && b[0..2] == MAGIC
    ensures b == MAGIC + [b[2], b[3]] + b[4..]
  {
    assert b == b[0..2] + [b[2], b[3]] + b[4..];
  }

  /** No two well-formed frames look alike on the wire. */
  lemma EncodeInjective(f: Frame, g: Frame)
    requires WellFormed(f) && WellFormed(g) && Encode(f) == Encode(g)
    ensures f == g
  {
    DecodeOfEncode(f);
    DecodeOfEncode(g);
  }
}
