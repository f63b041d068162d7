/**
 * The streaming FLAC encoder: samples in slabs of any size, whole FLAC frames packed into chunks out. The FLAC
 * frame coder itself is a parameter.
 */
module Encoder {
  import opened Machine
  import opened Frames

  const BLOCK_SIZE := 4096
  const NOMINAL_CHUNK_MS := 500

  datatype Config = Config(sampleRate: u32, bitsPerSample: nat)

  datatype CodecError =
    | UnsupportedBitDepth(bits: nat)
    | UnsupportedSampleRate(rate: nat)
    | EncodeFailed(reason: string)
    | FrameTooLarge(len: nat)
    | Finished

  /** One protocol chunk's worth of encoded audio. */
  datatype EncodedChunk = EncodedChunk(payload: seq<byte>, firstSampleIndex: nat, sampleCount: nat)

  /** The frame coder: block, frame number, and whether to code verbatim. */
  type Flac = (seq<int>, nat, bool) -> Result<seq<byte>, string>

  /** A frame is never empty. */
  ghost predicate Sane(flac: Flac) {
    forall block, n, verbatim :: flac(block, n, verbatim).Ok? ==> flac(block, n, verbatim).value != []
  }

  function Validate(cfg: Config): Result<(), CodecError> {
    if cfg.bitsPerSample != 16 && cfg.bitsPerSample != 24 then Err(UnsupportedBitDepth(cfg.bitsPerSample))
    else if cfg.sampleRate == 0 || cfg.sampleRate >= 0x10_0000 then Err(UnsupportedSampleRate(cfg.sampleRate))
    else Ok(())
  }

  function NominalSamples(cfg: Config): nat { cfg.sampleRate * NOMINAL_CHUNK_MS / 1_000 }

  // ---- the encoder as a function of its state -----------------------------------------------

  datatype State = State(
    pending: seq<int>,
    frameNo: nat,
    samplesIn: nat,
    cursor: nat,
    payload: seq<byte>,
    first: nat,
    count: nat,
    finished: bool)

  const NEW := State([], 0, 0, 0, [], 0, 0, false)

  /** A frame that would not fit a chunk is coded again verbatim. */
  function FrameBytes(flac: Flac, block: seq<int>, n: nat): Result<seq<byte>, CodecError> {
    match flac(block, n, false)
    case Err(reason) => Err(EncodeFailed(reason))
    case Ok(bytes) =>
      if |bytes| <= MAX_CHUNK_PAYLOAD_BYTES then Ok(bytes)
      else
        match flac(block, n, true)
        case Err(reason) => Err(EncodeFailed(reason))
        case Ok(verbatim) =>
          if |verbatim| > MAX_CHUNK_PAYLOAD_BYTES then Err(FrameTooLarge(|verbatim|)) else Ok(verbatim)
  }

  /** The encoder together with the chunks it has emitted so far. */
  datatype Progress = Progress(s: State, out: seq<EncodedChunk>)

  function ChunkOf(s: State): EncodedChunk { EncodedChunk(s.payload, s.first, s.count) }

  function TakeChunk(p: Progress): Progress {
    Progress(p.s.(payload := [], count := 0), p.out + [ChunkOf(p.s)])
  }

  /** Close the chunk first if this frame would overflow it. */
  function MakeRoom(p: Progress, len: nat): Progress {
    if p.s.payload != [] && |p.s.payload| + len > MAX_CHUNK_PAYLOAD_BYTES then TakeChunk(p) else p
  }

  function Extend(p: Progress, bytes: seq<byte>, n: nat): Progress {
    var s := if p.s.payload == [] then p.s.(first := p.s.cursor) else p.s;
    p.(s := s.(payload := s.payload + bytes, count := s.count + n, cursor := s.cursor + n))
  }

  /** Close the chunk once it is long enough. */
  function CloseIfLong(p: Progress, nominal: nat): Progress {
    if p.s.count >= nominal then TakeChunk(p) else p
  }

  function AppendFrame(p: Progress, bytes: seq<byte>, n: nat, nominal: nat): Progress {
    CloseIfLong(Extend(MakeRoom(p, |bytes|), bytes, n), nominal)
  }

  function EncodeBlock(flac: Flac, nominal: nat, p: Progress, block: seq<int>): Result<Progress, CodecError> {
    match FrameBytes(flac, block, p.s.frameNo)
    case Err(e) => Err(e)
    case Ok(bytes) => Ok(AppendFrame(p.(s := p.s.(frameNo := p.s.frameNo + 1)), bytes, |block|, nominal))
  }

  /** One more sample; a full block is encoded at once. */
  function PushOne(flac: Flac, nominal: nat, p: Progress, x: int): Result<Progress, CodecError> {
    var pending := p.s.pending + [x];
    if |pending| < BLOCK_SIZE then Ok(p.(s := p.s.(pending := pending, samplesIn := p.s.samplesIn + 1)))
    else EncodeBlock(flac, nominal, p.(s := p.s.(pending := [], samplesIn := p.s.samplesIn + 1)), pending)
  }

  /** Samples one after the other. */
  function Push(flac: Flac, nominal: nat, p: Progress, samples: seq<int>): Result<Progress, CodecError>
    decreases |samples|
  {
    if samples == [] then Ok(p)
    else
      match PushOne(flac, nominal, p, samples[0])
      case Err(e) => Err(e)
      case Ok(q) => Push(flac, nominal, q, samples[1..])
  }

  /** The trailing partial block, then the last chunk. */
  function Finish(flac: Flac, nominal: nat, p: Progress): Result<Progress, CodecError> {
    var start := p.(s := p.s.(finished := true, pending := []));
    var flushed := if p.s.pending == [] then Ok(start) else EncodeBlock(flac, nominal, start, p.s.pending);
    match flushed
    case Err(e) => Err(e)
    case Ok(q) => Ok(Flush(q))
  }

  function Flush(p: Progress): Progress { if p.s.count > 0 then TakeChunk(p) else p }

  /** The chunks of a whole take. */
  function Chunks(flac: Flac, nominal: nat, samples: seq<int>): Result<seq<EncodedChunk>, CodecError> {
    match Push(flac, nominal, Progress(NEW, []), samples)
    case Err(e) => Err(e)
    case Ok(p) =>
      match Finish(flac, nominal, p)
      case Err(e) => Err(e)
      case Ok(q) => Ok(q.out)
  }

  // ---- slabs do not matter --------------------------------------------------------------------

  function Concat(slabs: seq<seq<int>>): seq<int>
    decreases |slabs|
  {
    if slabs == [] then [] else slabs[0] + Concat(slabs[1..])
  }

  function PushSlabs(flac: Flac, nominal: nat, p: Progress, slabs: seq<seq<int>>): Result<Progress, CodecError>
    decreases |slabs|
  {
    if slabs == [] then Ok(p)
    else
      match Push(flac, nominal, p, slabs[0])
      case Err(e) => Err(e)
      case Ok(q) => PushSlabs(flac, nominal, q, slabs[1..])
  }

  lemma {:induction false} PushConcat(flac: Flac, nominal: nat, p: Progress, a: seq<int>, b: seq<int>)
    ensures Push(flac, nominal, p, a + b)
         == match Push(flac, nominal, p, a)
            case Err(e) => Err(e)
            case Ok(q) => Push(flac, nominal, q, b)
    decreases |a|
  {
    if a == [] {
      assert a + b == b;
    } else {
      assert (a + b)[1..] == a[1..] + b;
      match PushOne(flac, nominal, p, a[0]) {
        case Err(_) =>
        case Ok(q) => PushConcat(flac, nominal, q, a[1..], b);
      }
    }
  }

  /** However the samples are cut into slabs, the encoder ends the same. */
  lemma {:induction false} SlabsDoNotMatter(flac: Flac, nominal: nat, p: Progress, slabs: seq<seq<int>>)
    ensures PushSlabs(flac, nominal, p, slabs) == Push(flac, nominal, p, Concat(slabs))
    decreases |slabs|
  {
    if slabs != [] {
      PushConcat(flac, nominal, p, slabs[0], Concat(slabs[1..]));
      match Push(flac, nominal, p, slabs[0]) {
        case Err(_) =>
        case Ok(q) => SlabsDoNotMatter(flac, nominal, q, slabs[1..]);
      }
    }
  }

  // ---- chunks emitted earlier do not matter either -----------------------------------------------

  function Rebase(pre: seq<EncodedChunk>, p: Progress): Progress { Progress(p.s, pre + p.out) }

  lemma TakeChunkRebase(pre: seq<EncodedChunk>, p: Progress)
    ensures TakeChunk(Rebase(pre, p)) == Rebase(pre, TakeChunk(p))
  {
    assert pre + p.out + [ChunkOf(p.s)] == pre + (p.out + [ChunkOf(p.s)]);
  }

  lemma AppendFrameRebase(pre: seq<EncodedChunk>, p: Progress, bytes: seq<byte>, n: nat, nominal: nat)
    ensures AppendFrame(Rebase(pre, p), bytes, n, nominal) == Rebase(pre, AppendFrame(p, bytes, n, nominal))
  {
    TakeChunkRebase(pre, p);
    TakeChunkRebase(pre, Extend(MakeRoom(p, |bytes|), bytes, n));
  }

  function RebaseResult(pre: seq<EncodedChunk>, r: Result<Progress, CodecError>): Result<Progress, CodecError> {
    match r
    case Err(e) => Err(e)
    case Ok(p) => Ok(Rebase(pre, p))
  }

  lemma EncodeBlockRebase(flac: Flac, nominal: nat, pre: seq<EncodedChunk>, p: Progress, block: seq<int>)
    ensures EncodeBlock(flac, nominal, Rebase(pre, p), block) == RebaseResult(pre, EncodeBlock(flac, nominal, p, block))
  {
    var r := FrameBytes(flac, block, p.s.frameNo);
    if r.Ok? { AppendFrameRebase(pre, p.(s := p.s.(frameNo := p.s.frameNo + 1)), r.value, |block|, nominal); }
  }

  lemma {:induction false} PushRebase(flac: Flac, nominal: nat, pre: seq<EncodedChunk>, p: Progress, samples: seq<int>)
    ensures Push(flac, nominal, Rebase(pre, p), samples) == RebaseResult(pre, Push(flac, nominal, p, samples))
    decreases |samples|
  {
    if samples != [] {
      var block := p.s.pending + [samples[0]];
      EncodeBlockRebase(flac, nominal, pre, p.(s := p.s.(pending := [], samplesIn := p.s.samplesIn + 1)), block);
      var r := PushOne(flac, nominal, p, samples[0]);
      assert PushOne(flac, nominal, Rebase(pre, p), samples[0]) == RebaseResult(pre, r);
      if r.Ok? { PushRebase(flac, nominal, pre, r.value, samples[1..]); }
    }
  }

  lemma FinishRebase(flac: Flac, nominal: nat, pre: seq<EncodedChunk>, p: Progress)
    ensures Finish(flac, nominal, Rebase(pre, p)) == RebaseResult(pre, Finish(flac, nominal, p))
  {
    var start := p.(s := p.s.(finished := true, pending := []));
    EncodeBlockRebase(flac, nominal, pre, start, p.s.pending);
    var flushed := if p.s.pending == [] then Ok(start) else EncodeBlock(flac, nominal, start, p.s.pending);
    if flushed.Ok? { TakeChunkRebase(pre, flushed.value); }
  }

  // ---- what the chunks are -----------------------------------------------------------------------

  function Payloads(out: seq<EncodedChunk>): seq<byte>
    decreases |out|
  {
    if out == [] then [] else Payloads(out[..|out| - 1]) + out[|out| - 1].payload
  }

  function SampleTotal(out: seq<EncodedChunk>): nat
    decreases |out|
  {
    if out == [] then 0 else SampleTotal(out[..|out| - 1]) + out[|out| - 1].sampleCount
  }

  lemma Snoc(out: seq<EncodedChunk>, c: EncodedChunk)
    ensures Payloads(out + [c]) == Payloads(out) + c.payload
    ensures SampleTotal(out + [c]) == SampleTotal(out) + c.sampleCount
  {
    assert (out + [c])[..|out|] == out;
  }

  /** Frame n of the samples: their n-th block. */
  function Block(samples: seq<int>, n: nat): seq<int>
    requires n * BLOCK_SIZE <= |samples|
  {
    samples[n * BLOCK_SIZE..Min((n + 1) * BLOCK_SIZE, |samples|)]
  }

  /** The first n frames, back to back: the plain definition of the stream's audio bytes. */
  function FrameStream(flac: Flac, samples: seq<int>, n: nat): (b: seq<byte>)
    requires n > 0 ==> (n - 1) * BLOCK_SIZE <= |samples|
    decreases n
  {
    if n == 0 then []
    else
      FrameStream(flac, samples, n - 1)
      + match FrameBytes(flac, Block(samples, n - 1), n - 1)
        case Ok(bytes) => bytes
        case Err(_) => []
  }

  /**
   * A chunk is a run of whole frames: not empty, within the payload bound, and at the sum of the counts before
   * it, without a gap or an overlap in the sample domain.
   */
  ghost predicate WellChunked(out: seq<EncodedChunk>) {
    forall i :: 0 <= i < |out| ==>
      && 0 < |out[i].payload| <= MAX_CHUNK_PAYLOAD_BYTES && out[i].sampleCount > 0
      && out[i].firstSampleIndex == SampleTotal(out[..i])
  }

  /** What holds between the encoder and the samples it has taken so far. */
  ghost predicate Sound(flac: Flac, p: Progress, samples: seq<int>) {
    var s := p.s;
    && s.samplesIn == |samples| && |samples| == s.frameNo * BLOCK_SIZE + |s.pending| && |s.pending| < BLOCK_SIZE
    && s.pending == samples[s.frameNo * BLOCK_SIZE..]
    && Packed(flac, p, samples, s.frameNo, s.frameNo * BLOCK_SIZE)
  }

  /** n frames and `taken` samples are packed into the emitted chunks and the open one. */
  ghost predicate Packed(flac: Flac, p: Progress, samples: seq<int>, n: nat, taken: nat) {
    var s := p.s;
    && WellChunked(p.out)
    && s.cursor == taken == SampleTotal(p.out) + s.count
    && |s.payload| <= MAX_CHUNK_PAYLOAD_BYTES
    && (s.payload == [] <==> s.count == 0)
    && (s.payload != [] ==> s.first == SampleTotal(p.out))
    && (n > 0 ==> (n - 1) * BLOCK_SIZE <= |samples|)
    && Payloads(p.out) + s.payload == FrameStream(flac, samples, n)
  }

  lemma WellChunkedSnoc(out: seq<EncodedChunk>, c: EncodedChunk)
    requires WellChunked(out) && 0 < |c.payload| <= MAX_CHUNK_PAYLOAD_BYTES && c.sampleCount > 0
    requires c.firstSampleIndex == SampleTotal(out)
    ensures WellChunked(out + [c])
  {
    var longer := out + [c];
    assert longer[..|out|] == out;
    forall i | 0 <= i < |out| ensures longer[..i] == out[..i] { }
  }

  lemma TakeChunkPacks(flac: Flac, p: Progress, samples: seq<int>, n: nat, taken: nat)
    requires Packed(flac, p, samples, n, taken) && p.s.payload != []
    ensures Packed(flac, TakeChunk(p), samples, n, taken)
  {
    hide WellChunked, Payloads, SampleTotal, FrameStream;
    Snoc(p.out, ChunkOf(p.s));
    WellChunkedSnoc(p.out, ChunkOf(p.s));
    assert Payloads(p.out + [ChunkOf(p.s)]) + [] == Payloads(p.out) + p.s.payload;
  }

  lemma MakeRoomPacks(flac: Flac, p: Progress, samples: seq<int>, n: nat, taken: nat, len: nat)
    requires Packed(flac, p, samples, n, taken) && len <= MAX_CHUNK_PAYLOAD_BYTES
    ensures Packed(flac, MakeRoom(p, len), samples, n, taken)
        && |MakeRoom(p, len).s.payload| + len <= MAX_CHUNK_PAYLOAD_BYTES
  {
    if MakeRoom(p, len) != p { TakeChunkPacks(flac, p, samples, n, taken); }
  }

  lemma FrameStreamNext(flac: Flac, samples: seq<int>, n: nat, bytes: seq<byte>)
    requires n * BLOCK_SIZE <= |samples| && FrameBytes(flac, Block(samples, n), n) == Ok(bytes)
    ensures FrameStream(flac, samples, n + 1) == FrameStream(flac, samples, n) + bytes
  {
  }

  lemma ExtendPacks(flac: Flac, p: Progress, samples: seq<int>, n: nat, taken: nat, bytes: seq<byte>, count: nat)
    requires Packed(flac, p, samples, n, taken) && n * BLOCK_SIZE <= |samples|
    requires FrameBytes(flac, Block(samples, n), n) == Ok(bytes) && bytes != [] && count > 0
    requires |p.s.payload| + |bytes| <= MAX_CHUNK_PAYLOAD_BYTES
    ensures Packed(flac, Extend(p, bytes, count), samples, n + 1, taken + count)
  {
    FrameStreamNext(flac, samples, n, bytes);
    assert Payloads(p.out) + (p.s.payload + bytes) == (Payloads(p.out) + p.s.payload) + bytes;
  }

  lemma AppendFramePacks(flac: Flac, p: Progress, samples: seq<int>, n: nat, taken: nat, bytes: seq<byte>,
      count: nat, nominal: nat)
    requires Packed(flac, p, samples, n, taken) && n * BLOCK_SIZE <= |samples|
    requires FrameBytes(flac, Block(samples, n), n) == Ok(bytes) && bytes != [] && count > 0
    ensures Packed(flac, AppendFrame(p, bytes, count, nominal), samples, n + 1, taken + count)
  {
    hide Packed, FrameStream, FrameBytes;
    FrameFits(flac, Block(samples, n), n);
    MakeRoomPacks(flac, p, samples, n, taken, |bytes|);
    var q := MakeRoom(p, |bytes|);
    ExtendPacks(flac, q, samples, n, taken, bytes, count);
    var r := Extend(q, bytes, count);
    if r.s.count >= nominal { TakeChunkPacks(flac, r, samples, n + 1, taken + count); }
  }

  lemma EncodeBlockIs(flac: Flac, nominal: nat, p: Progress, block: seq<int>)
    requires Sane(flac) && EncodeBlock(flac, nominal, p, block).Ok?
    ensures var r := FrameBytes(flac, block, p.s.frameNo);
            && r.Ok? && r.value != []
            && EncodeBlock(flac, nominal, p, block) == Ok(AppendFrame(p.(s := p.s.(frameNo := p.s.frameNo + 1)),
                r.value, |block|, nominal))
  {
    FrameFits(flac, block, p.s.frameNo);
  }

  lemma AppendFrameKeeps(p: Progress, bytes: seq<byte>, n: nat, nominal: nat)
    ensures var q := AppendFrame(p, bytes, n, nominal);
            q.s.frameNo == p.s.frameNo && q.s.pending == p.s.pending && q.s.samplesIn == p.s.samplesIn
                && q.s.finished == p.s.finished
  {
  }

  lemma FrameFits(flac: Flac, block: seq<int>, n: nat)
    ensures FrameBytes(flac, block, n).Ok? ==> |FrameBytes(flac, block, n).value| <= MAX_CHUNK_PAYLOAD_BYTES
    ensures Sane(flac) && FrameBytes(flac, block, n).Ok? ==> FrameBytes(flac, block, n).value != []
  {
  }

  /** Frames already coded do not depend on the samples still to come. */
  lemma {:induction false} FrameStreamGrows(flac: Flac, samples: seq<int>, x: int, n: nat)
    requires n * BLOCK_SIZE <= |samples|
    ensures FrameStream(flac, samples + [x], n) == FrameStream(flac, samples, n)
    decreases n
  {
    if n > 0 {
      FrameStreamGrows(flac, samples, x, n - 1);
      assert Block(samples + [x], n - 1) == Block(samples, n - 1);
    }
  }

  lemma PackedGrows(flac: Flac, p: Progress, samples: seq<int>, x: int, n: nat, taken: nat)
    requires Packed(flac, p, samples, n, taken) && n * BLOCK_SIZE <= |samples|
    ensures Packed(flac, p, samples + [x], n, taken)
  {
    FrameStreamGrows(flac, samples, x, n);
  }

  lemma NextBlock(n: nat)
    ensures (n + 1) * BLOCK_SIZE == n * BLOCK_SIZE + BLOCK_SIZE
  {
  }

  /** A full block of pending samples has just been coded. */
  lemma BlockSound(flac: Flac, q: Progress, samples: seq<int>, n: nat, bytes: seq<byte>, nominal: nat)
    requires |samples| == (n + 1) * BLOCK_SIZE && FrameBytes(flac, Block(samples, n), n) == Ok(bytes) && bytes != []
    requires Packed(flac, q, samples, n, n * BLOCK_SIZE)
    requires q.s.pending == [] && q.s.samplesIn == |samples| && q.s.frameNo == n + 1
    ensures Sound(flac, AppendFrame(q, bytes, BLOCK_SIZE, nominal), samples)
  {
    hide Packed, AppendFrame, FrameBytes, Block;
    NextBlock(n);
    AppendFramePacks(flac, q, samples, n, n * BLOCK_SIZE, bytes, BLOCK_SIZE, nominal);
    AppendFrameKeeps(q, bytes, BLOCK_SIZE, nominal);
  }

  lemma PushOneStays(flac: Flac, nominal: nat, p: Progress, samples: seq<int>, x: int)
    requires Sound(flac, p, samples) && |p.s.pending| + 1 < BLOCK_SIZE
    ensures Sound(flac, PushOne(flac, nominal, p, x).value, samples + [x])
  {
    hide Packed;
    var more, n := samples + [x], p.s.frameNo;
    PackedGrows(flac, p, samples, x, n, n * BLOCK_SIZE);
    assert p.s.pending + [x] == more[n * BLOCK_SIZE..];
    StillPending(flac, p, PushOne(flac, nominal, p, x).value, more, n);
  }

  lemma PushOneFills(flac: Flac, nominal: nat, p: Progress, samples: seq<int>, x: int, coded: Progress)
    requires Sane(flac) && Sound(flac, p, samples) && |p.s.pending| + 1 == BLOCK_SIZE
    requires coded == p.(s := p.s.(pending := [], samplesIn := p.s.samplesIn + 1, frameNo := p.s.frameNo + 1))
    requires FrameBytes(flac, p.s.pending + [x], p.s.frameNo).Ok?
    ensures Sound(flac, AppendFrame(coded, FrameBytes(flac, p.s.pending + [x], p.s.frameNo).value, BLOCK_SIZE,
        nominal), samples + [x])
  {
    hide Packed, AppendFrame, FrameBytes;
    var more, n, block := samples + [x], p.s.frameNo, p.s.pending + [x];
    NextBlock(n);
    PackedGrows(flac, p, samples, x, n, n * BLOCK_SIZE);
    SamePacking(flac, p, coded, more, n, n * BLOCK_SIZE);
    assert Block(more, n) == block;
    FrameFits(flac, block, n);
    BlockSound(flac, coded, more, n, FrameBytes(flac, block, n).value, nominal);
  }

  lemma PushOneSound(flac: Flac, nominal: nat, p: Progress, samples: seq<int>, x: int)
    requires Sane(flac) && Sound(flac, p, samples) && PushOne(flac, nominal, p, x).Ok?
    ensures Sound(flac, PushOne(flac, nominal, p, x).value, samples + [x])
  {
    hide Packed, EncodeBlock, FrameBytes, AppendFrame;
    if |p.s.pending| + 1 < BLOCK_SIZE {
      PushOneStays(flac, nominal, p, samples, x);
    } else {
      var q := p.(s := p.s.(pending := [], samplesIn := p.s.samplesIn + 1));
      var block := p.s.pending + [x];
      EncodeBlockIs(flac, nominal, q, block);
      PushOneFills(flac, nominal, p, samples, x, q.(s := q.s.(frameNo := q.s.frameNo + 1)));
    }
  }

  /** Only the cursor, the open chunk and the emitted ones matter for packing. */
  lemma SamePacking(flac: Flac, p: Progress, q: Progress, samples: seq<int>, n: nat, taken: nat)
    requires Packed(flac, p, samples, n, taken) && p.out == q.out
    requires q.s.cursor == p.s.cursor && q.s.payload == p.s.payload && q.s.first == p.s.first && q.s.count == p.s.count
    ensures Packed(flac, q, samples, n, taken)
  {
  }

  lemma StillPending(flac: Flac, p: Progress, q: Progress, samples: seq<int>, n: nat)
    requires Packed(flac, p, samples, n, n * BLOCK_SIZE)
        && q == p.(s := p.s.(pending := q.s.pending, samplesIn := q.s.samplesIn))
    requires n * BLOCK_SIZE <= |samples| && q.s.pending == samples[n * BLOCK_SIZE..] && |q.s.pending| < BLOCK_SIZE
    requires q.s.samplesIn == |samples| && q.s.frameNo == n
    ensures Sound(flac, q, samples)
  {
    SamePacking(flac, p, q, samples, n, n * BLOCK_SIZE);
  }

  lemma {:induction false} PushSound(flac: Flac, nominal: nat, p: Progress, before: seq<int>, samples: seq<int>)
    requires Sane(flac) && Sound(flac, p, before)
    ensures Push(flac, nominal, p, samples).Ok? ==> Sound(flac, Push(flac, nominal, p, samples).value, before + samples)
    decreases |samples|
  {
    hide Sound, PushOne;
    if samples == [] {
      assert before + samples == before;
    } else if Push(flac, nominal, p, samples).Ok? {
      PushOneSound(flac, nominal, p, before, samples[0]);
      PushSound(flac, nominal, PushOne(flac, nominal, p, samples[0]).value, before + [samples[0]], samples[1..]);
      assert before + [samples[0]] + samples[1..] == before + samples;
    }
  }

  /** Number of frames a take needs. */
  function FrameCount(samples: seq<int>): nat { (|samples| + BLOCK_SIZE - 1) / BLOCK_SIZE }

  /** The chunks of a take: well formed, accounting for every sample, and exactly the take's frames in order. */
  ghost predicate WholeTake(flac: Flac, samples: seq<int>, out: seq<EncodedChunk>) {
    && WellChunked(out) && SampleTotal(out) == |samples|
    && Payloads(out) == FrameStream(flac, samples, FrameCount(samples))
  }

  lemma LastChunk(flac: Flac, q: Progress, samples: seq<int>, n: nat)
    requires Packed(flac, q, samples, n, |samples|) && n == FrameCount(samples)
    ensures WholeTake(flac, samples, Flush(q).out)
  {
    if q.s.count > 0 { TakeChunkPacks(flac, q, samples, n, |samples|); }
    assert Payloads(Flush(q).out) + [] == Payloads(Flush(q).out);
  }

  lemma LastFrameCount(samples: seq<int>, n: nat, taken: nat)
    requires taken == n * BLOCK_SIZE && taken < |samples| < taken + BLOCK_SIZE
    ensures FrameCount(samples) == n + 1 && (n + 1) * BLOCK_SIZE == taken + BLOCK_SIZE
  {
  }

  lemma WholeBlocks(samples: seq<int>, n: nat)
    requires |samples| == n * BLOCK_SIZE
    ensures FrameCount(samples) == n
  {
  }

  lemma LastBlock(
    flac: Flac, nominal: nat, p: Progress, coded: Progress, samples: seq<int>, n: nat, taken: nat, bytes: seq<byte>)
    requires Packed(flac, p, samples, n, taken) && taken < |samples|
    requires FrameCount(samples) == n + 1 && n * BLOCK_SIZE <= |samples| < (n + 1) * BLOCK_SIZE
    requires coded == p.(s := p.s.(finished := true, pending := [], frameNo := n + 1))
    requires FrameBytes(flac, Block(samples, n), n) == Ok(bytes) && bytes != []
    ensures WholeTake(flac, samples, Flush(AppendFrame(coded, bytes, |samples| - taken, nominal)).out)
  {
    hide Packed, AppendFrame, FrameBytes, FrameCount, WholeTake;
    var count := |samples| - taken;
    var last := AppendFrame(coded, bytes, count, nominal);
    SamePacking(flac, p, coded, samples, n, taken);
    AppendFramePacks(flac, coded, samples, n, taken, bytes, count, nominal);
    LastChunk(flac, last, samples, n + 1);
  }

  lemma FinishSound(flac: Flac, nominal: nat, p: Progress, samples: seq<int>)
    requires Sane(flac) && Sound(flac, p, samples) && Finish(flac, nominal, p).Ok?
    ensures WholeTake(flac, samples, Finish(flac, nominal, p).value.out)
  {
    hide Packed, EncodeBlock, FrameBytes, AppendFrame, FrameCount, WholeTake;
    var n, block, start := p.s.frameNo, p.s.pending, p.(s := p.s.(finished := true, pending := []));
    NextBlock(n);
    if block == [] {
      SamePacking(flac, p, start, samples, n, n * BLOCK_SIZE);
      WholeBlocks(samples, n);
      LastChunk(flac, start, samples, n);
    } else {
      EncodeBlockIs(flac, nominal, start, block);
      assert Block(samples, n) == block;
      LastFrameCount(samples, n, n * BLOCK_SIZE);
      var coded, bytes := start.(s := start.s.(frameNo := n + 1)), FrameBytes(flac, block, n).value;
      LastBlock(flac, nominal, p, coded, samples, n, n * BLOCK_SIZE, bytes);
    }
  }

  lemma NothingYet(flac: Flac)
    ensures Sound(flac, Progress(NEW, []), [])
  {
  }

  /** Whatever the samples, the chunks of the take are its FLAC frames, one per block of 4096 samples, packed whole. */
  lemma ChunksAreTheFrames(flac: Flac, nominal: nat, samples: seq<int>)
    requires Sane(flac) && Chunks(flac, nominal, samples).Ok?
    ensures WholeTake(flac, samples, Chunks(flac, nominal, samples).value)
  {
    var start := Progress(NEW, []);
    NothingYet(flac);
    PushSound(flac, nominal, start, [], samples);
    assert [] + samples == samples;
    FinishSound(flac, nominal, Push(flac, nominal, start, samples).value, samples);
  }

  // ---- chunk lengths ----------------------------------------------------------------------------

  /** No emitted chunk is longer than the nominal length and one block, and the open one is still short of it. */
  ghost predicate Short(p: Progress, nominal: nat) {
    && (p.s.count < nominal || p.s.count == 0) && |p.s.pending| < BLOCK_SIZE
    && forall i :: 0 <= i < |p.out| ==> p.out[i].sampleCount <= nominal + BLOCK_SIZE
  }

  lemma AppendFrameShort(p: Progress, bytes: seq<byte>, n: nat, nominal: nat)
    requires Short(p, nominal) && n <= BLOCK_SIZE
    ensures Short(AppendFrame(p, bytes, n, nominal), nominal)
  {
    var q := MakeRoom(p, |bytes|);
    assert Short(q, nominal);
  }

  lemma EncodeBlockShort(flac: Flac, nominal: nat, p: Progress, block: seq<int>)
    requires Short(p, nominal) && |block| <= BLOCK_SIZE && EncodeBlock(flac, nominal, p, block).Ok?
    ensures Short(EncodeBlock(flac, nominal, p, block).value, nominal)
  {
    match FrameBytes(flac, block, p.s.frameNo)
    case Ok(bytes) =>
      AppendFrameShort(p.(s := p.s.(frameNo := p.s.frameNo + 1)), bytes, |block|, nominal);
  }

  lemma PushOneShort(flac: Flac, nominal: nat, p: Progress, x: int)
    requires Short(p, nominal) && PushOne(flac, nominal, p, x).Ok?
    ensures Short(PushOne(flac, nominal, p, x).value, nominal)
  {
    hide EncodeBlock;
    var pending := p.s.pending + [x];
    if |pending| == BLOCK_SIZE {
      EncodeBlockShort(flac, nominal, p.(s := p.s.(pending := [], samplesIn := p.s.samplesIn + 1)), pending);
    }
  }

  lemma {:induction false} PushShort(flac: Flac, nominal: nat, p: Progress, samples: seq<int>)
    requires Short(p, nominal) && Push(flac, nominal, p, samples).Ok?
    ensures Short(Push(flac, nominal, p, samples).value, nominal)
    decreases |samples|
  {
    hide PushOne, Short;
    if samples != [] {
      PushOneShort(flac, nominal, p, samples[0]);
      PushShort(flac, nominal, PushOne(flac, nominal, p, samples[0]).value, samples[1..]);
    }
  }

  lemma FinishShort(flac: Flac, nominal: nat, p: Progress)
    requires Short(p, nominal) && Finish(flac, nominal, p).Ok?
    ensures Short(Finish(flac, nominal, p).value, nominal)
  {
    var start := p.(s := p.s.(finished := true, pending := []));
    if p.s.pending != [] {
      EncodeBlockShort(flac, nominal, start, p.s.pending);
    }
  }

  /** Every chunk of a take is at most a block longer than the nominal length. */
  lemma ChunksAreShort(flac: Flac, nominal: nat, samples: seq<int>)
    requires Chunks(flac, nominal, samples).Ok?
    ensures forall i :: 0 <= i < |Chunks(flac, nominal, samples).value| ==>
        Chunks(flac, nominal, samples).value[i].sampleCount <= nominal + BLOCK_SIZE
  {
    var start := Progress(NEW, []);
    PushShort(flac, nominal, start, samples);
    FinishShort(flac, nominal, Push(flac, nominal, start, samples).value);
  }
}
