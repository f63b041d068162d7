/** The streaming encoder as it runs, proved against the encoder's state functions. */
module StreamEncoder {
  import opened Machine
  import opened Frames
  import opened Encoder
  import opened Streaminfo

  // ---- whole stretches of samples at once --------------------------------------------------

  function Given(p: Progress, n: nat): Progress { p.(s := p.s.(samplesIn := p.s.samplesIn + n)) }

  /** Samples that do not fill the block only wait. */
  lemma {:induction false} PushWaits(flac: Flac, nominal: nat, p: Progress, xs: seq<int>)
    requires |p.s.pending| + |xs| < BLOCK_SIZE
    ensures Push(flac, nominal, p, xs) == Ok(Given(p.(s := p.s.(pending := p.s.pending + xs)), |xs|))
    decreases |xs|
  {
    if xs == [] {
      assert p.s.pending + xs == p.s.pending;
    } else {
      var q := PushOne(flac, nominal, p, xs[0]).value;
      PushWaits(flac, nominal, q, xs[1..]);
      assert p.s.pending + [xs[0]] + xs[1..] == p.s.pending + xs;
    }
  }

  /** Samples that just fill it have it coded. */
  lemma PushFills(flac: Flac, nominal: nat, p: Progress, xs: seq<int>)
    requires |p.s.pending| + |xs| == BLOCK_SIZE && xs != []
    ensures Push(flac, nominal, p, xs) == EncodeBlock(flac, nominal, Given(p.(s := p.s.(pending := [])), |xs|),
        p.s.pending + xs)
  {
    var front, last := xs[..|xs| - 1], xs[|xs| - 1];
    var q := Given(p.(s := p.s.(pending := p.s.pending + front)), |front|);
    assert xs == front + [last];
    PushConcat(flac, nominal, p, front, [last]);
    PushWaits(flac, nominal, p, front);
    PushJustOne(flac, nominal, q, last);
    LastOneFills(flac, nominal, q, last);
    assert p.s.pending + front + [last] == p.s.pending + xs;
    assert Given(q.(s := q.s.(pending := [])), 1) == Given(p.(s := p.s.(pending := [])), |xs|);
  }

  lemma LastOneFills(flac: Flac, nominal: nat, q: Progress, x: int)
    requires |q.s.pending| + 1 == BLOCK_SIZE
    ensures PushOne(flac, nominal, q, x)
            == EncodeBlock(flac, nominal, Given(q.(s := q.s.(pending := [])), 1), q.s.pending + [x])
  {
  }

  lemma PushJustOne(flac: Flac, nominal: nat, p: Progress, x: int)
    ensures Push(flac, nominal, p, [x]) == PushOne(flac, nominal, p, x)
  {
    assert [x][1..] == [];
  }

  function WithTotal(p: Progress, m: nat): Progress { p.(s := p.s.(samplesIn := m)) }

  /** The running total of samples plays no part in coding. */
  lemma {:induction false} PushIgnoresTotal(flac: Flac, nominal: nat, p: Progress, xs: seq<int>, m: nat)
    ensures Push(flac, nominal, WithTotal(p, m), xs)
         == match Push(flac, nominal, p, xs)
            case Err(e) => Err(e)
            case Ok(q) => Ok(WithTotal(q, m + |xs|))
    decreases |xs|
  {
    if xs == [] {
    } else {
      OneIgnoresTotal(flac, nominal, p, xs[0], m);
      match PushOne(flac, nominal, p, xs[0]) {
        case Err(_) =>
        case Ok(q) =>
          PushIgnoresTotal(flac, nominal, q, xs[1..], m + 1);
      }
    }
  }

  lemma OneIgnoresTotal(flac: Flac, nominal: nat, p: Progress, x: int, m: nat)
    ensures PushOne(flac, nominal, WithTotal(p, m), x)
         == match PushOne(flac, nominal, p, x)
            case Err(e) => Err(e)
            case Ok(q) => Ok(WithTotal(q, m + 1))
  {
    if |p.s.pending| + 1 >= BLOCK_SIZE {
      EncodeIgnoresTotal(flac, nominal, Given(p.(s := p.s.(pending := [])), 1), p.s.pending + [x], m + 1);
    }
  }

  lemma EncodeIgnoresTotal(flac: Flac, nominal: nat, p: Progress, block: seq<int>, m: nat)
    ensures EncodeBlock(flac, nominal, WithTotal(p, m), block)
         == match EncodeBlock(flac, nominal, p, block)
            case Err(e) => Err(e)
            case Ok(q) => Ok(WithTotal(q, m))
  {
  }

  lemma TotalStays(flac: Flac, nominal: nat, p: Progress, block: seq<int>)
    ensures EncodeBlock(flac, nominal, p, block).Ok? ==>
        EncodeBlock(flac, nominal, p, block).value.s.samplesIn == p.s.samplesIn
  {
  }

  lemma PushCodes(flac: Flac, nominal: nat, p: Progress, xs: seq<int>)
    requires |p.s.pending| + |xs| == BLOCK_SIZE && xs != []
    ensures Push(flac, nominal, p, xs)
         == match EncodeBlock(flac, nominal, p.(s := p.s.(pending := [])), p.s.pending + xs)
            case Err(e) => Err(e)
            case Ok(q) => Ok(Given(q, |xs|))
  {
    var emptied := p.(s := p.s.(pending := []));
    PushFills(flac, nominal, p, xs);
    EncodeIgnoresTotal(flac, nominal, emptied, p.s.pending + xs, p.s.samplesIn + |xs|);
    TotalStays(flac, nominal, emptied, p.s.pending + xs);
  }

  /** The first part of a slab, then the rest. */
  lemma PushPart(flac: Flac, nominal: nat, p: Progress, xs: seq<int>, take: nat, m: nat)
    requires take <= |xs|
    ensures Push(flac, nominal, WithTotal(p, m), xs)
         == match Push(flac, nominal, p, xs[..take])
            case Err(e) => Err(e)
            case Ok(q) => Push(flac, nominal, WithTotal(q, m + take), xs[take..])
  {
    assert xs == xs[..take] + xs[take..];
    PushConcat(flac, nominal, WithTotal(p, m), xs[..take], xs[take..]);
    PushIgnoresTotal(flac, nominal, p, xs[..take], m);
  }

  // ---- the encoder object ----------------------------------------------------------------------

  class StreamEncoder {
    const cfg: Config
    const flac: Flac
    const nominalChunkSamples: nat
    /** Samples awaiting a full block. */
    var pending: seq<int>
    var nextFrameNumber: nat
    /** Total samples consumed from the caller. */
    var samplesIn: nat
    /** Total samples already encoded into frames. */
    var encodedCursor: nat
    var chunkPayload: seq<byte>
    var chunkFirstSample: nat
    var chunkSamples: nat
    var finished: bool

    ghost predicate Valid() reads this { |pending| < BLOCK_SIZE && Validate(cfg).Ok? }

    ghost function Abs(): State
      reads this
    {
      State(pending, nextFrameNumber, samplesIn, encodedCursor, chunkPayload, chunkFirstSample, chunkSamples, finished)
    }

    /** The configuration must have been validated. */
    constructor (cfg: Config, flac: Flac)
      requires Validate(cfg).Ok?
      ensures Valid() && Abs() == NEW && this.cfg == cfg && this.flac == flac
          && nominalChunkSamples == NominalSamples(cfg)
    {
      this.cfg := cfg;
      this.flac := flac;
      nominalChunkSamples := NominalSamples(cfg);
      pending := [];
      nextFrameNumber := 0;
      samplesIn := 0;
      encodedCursor := 0;
      chunkPayload := [];
      chunkFirstSample := 0;
      chunkSamples := 0;
      finished := false;
    }

    method TakeChunk() returns (chunk: EncodedChunk)
      requires Valid()
      modifies this
      ensures Valid()
      ensures chunk == ChunkOf(old(Abs())) && Abs() == old(Abs()).(payload := [], count := 0)
    {
      chunk := EncodedChunk(chunkPayload, chunkFirstSample, chunkSamples);
      chunkPayload := [];
      chunkSamples := 0;
    }

    method AppendFrame(bytes: seq<byte>, n: nat, out: seq<EncodedChunk>)
        returns (r: Result<seq<EncodedChunk>, CodecError>)
      requires Valid()
      modifies this
      ensures Valid()
      ensures if |bytes| > MAX_CHUNK_PAYLOAD_BYTES then r == Err(FrameTooLarge(|bytes|))
              else r.Ok? && Progress(Abs(), r.value) == Encoder.AppendFrame(Progress(old(Abs()), out), bytes, n,
                  nominalChunkSamples)
    {
      if |bytes| > MAX_CHUNK_PAYLOAD_BYTES { return Err(FrameTooLarge(|bytes|)); }
      var chunks := out;
      if chunkPayload != [] && |chunkPayload| + |bytes| > MAX_CHUNK_PAYLOAD_BYTES {
        var c := TakeChunk();
        chunks := chunks + [c];
      }
      if chunkPayload == [] { chunkFirstSample := encodedCursor; }
      chunkPayload := chunkPayload + bytes;
      chunkSamples := chunkSamples + n;
      encodedCursor := encodedCursor + n;
      if chunkSamples >= nominalChunkSamples {
        var c := TakeChunk();
        chunks := chunks + [c];
      }
      return Ok(chunks);
    }

    /** Code one block, verbatim if it would not fit a chunk otherwise. */
    method EncodeBlock(samples: seq<int>) returns (r: Result<seq<byte>, CodecError>)
      requires Valid()
      modifies `nextFrameNumber
      ensures r == FrameBytes(flac, samples, old(nextFrameNumber))
      ensures nextFrameNumber == if r.Ok? then old(nextFrameNumber) + 1 else old(nextFrameNumber)
    {
      var coded := flac(samples, nextFrameNumber, false);
      if coded.Err? { return Err(EncodeFailed(coded.error)); }
      var bytes := coded.value;
      if |bytes| > MAX_CHUNK_PAYLOAD_BYTES {
        var verbatim := flac(samples, nextFrameNumber, true);
        if verbatim.Err? { return Err(EncodeFailed(verbatim.error)); }
        bytes := verbatim.value;
        if |bytes| > MAX_CHUNK_PAYLOAD_BYTES { return Err(FrameTooLarge(|bytes|)); }
      }
      nextFrameNumber := nextFrameNumber + 1;
      return Ok(bytes);
    }

    /** Code the pending samples as a block and append its frame. */
    method FlushPending(out: seq<EncodedChunk>) returns (r: Result<seq<EncodedChunk>, CodecError>)
      requires |pending| <= BLOCK_SIZE && Validate(cfg).Ok?
      modifies this
      ensures Valid()
      ensures match Encoder.EncodeBlock(flac, nominalChunkSamples, Progress(old(Abs()).(pending := []), out),
          old(pending))
              case Err(e) => r == Err(e)
              case Ok(q) => r == Ok(q.out) && Abs() == q.s
    {
      var samples := pending;
      pending := [];
      var coded := EncodeBlock(samples);
      if coded.Err? { return Err(coded.error); }
      FrameFits(flac, samples, nextFrameNumber - 1);
      r := AppendFrame(coded.value, |samples|, out);
    }

    /** Add samples that at most fill the block; a full block is coded. */
    method Fill(xs: seq<int>, out: seq<EncodedChunk>) returns (r: Result<seq<EncodedChunk>, CodecError>)
      requires Valid() && xs != [] && |pending| + |xs| <= BLOCK_SIZE
      modifies this
      ensures Valid()
      ensures match Push(flac, nominalChunkSamples, Progress(old(Abs()), out), xs)
              case Err(e) => r == Err(e)
              case Ok(q) => r == Ok(q.out) && Abs() == q.s.(samplesIn := old(samplesIn))
    {
      ghost var p := Progress(Abs(), out);
      if |pending| + |xs| < BLOCK_SIZE {
        PushWaits(flac, nominalChunkSamples, p, xs);
        pending := pending + xs;
        return Ok(out);
      }
      PushCodes(flac, nominalChunkSamples, p, xs);
      pending := pending + xs;
      r := FlushPending(out);
    }

    /** Push samples, in a slab of any size. */
    method PushI32(samples: seq<int>) returns (r: Result<seq<EncodedChunk>, CodecError>)
      requires Valid()
      modifies this
      ensures Valid()
      ensures old(finished) ==> r == Err(Finished) && Abs() == old(Abs())
      ensures !old(finished) ==>
                match Push(flac, nominalChunkSamples, Progress(old(Abs()), []), samples)
                case Err(e) => r == Err(e)
                case Ok(q) => r == Ok(q.out) && Abs() == q.s
    {
      if finished { return Err(Finished); }
      ghost var start := Progress(Abs(), []);
      ghost var before := samplesIn;
      samplesIn := samplesIn + |samples|;
      var out: seq<EncodedChunk> := [];
      var rest := samples;
      while rest != []
        invariant |rest| <= |samples| && Valid() && samplesIn == before + |samples|
        invariant Push(flac, nominalChunkSamples, start, samples)
               == Push(flac, nominalChunkSamples, WithTotal(Progress(Abs(), out), samplesIn - |rest|), rest)
        decreases |rest|
      {
        var take := Min(BLOCK_SIZE - |pending|, |rest|);
        ghost var p := Progress(Abs(), out);
        PushPart(flac, nominalChunkSamples, p, rest, take, samplesIn - |rest|);
        var filled := Fill(rest[..take], out);
        if filled.Err? { return Err(filled.error); }
        out := filled.value;
        rest := rest[take..];
      }
      return Ok(out);
    }

    /** Push float samples in the Web Audio range. */
    method PushF32(samples: seq<real>) returns (r: Result<seq<EncodedChunk>, CodecError>)
      requires Valid()
      modifies this
      ensures Valid()
      ensures old(finished) ==> r == Err(Finished) && Abs() == old(Abs())
      ensures !old(finished) ==>
                match Push(flac, nominalChunkSamples, Progress(old(Abs()), []), QuantizeAll(samples, cfg.bitsPerSample))
                case Err(e) => r == Err(e)
                case Ok(q) => r == Ok(q.out) && Abs() == q.s
    {
      var ints := QuantizeAll(samples, cfg.bitsPerSample);
      r := PushI32(ints);
    }

    /** Flush the trailing partial block and the last chunk. */
    method Finish() returns (r: Result<seq<EncodedChunk>, CodecError>)
      requires Valid()
      modifies this
      ensures Valid()
      ensures old(finished) ==> r == Err(Finished) && Abs() == old(Abs())
      ensures !old(finished) ==>
                match Encoder.Finish(flac, nominalChunkSamples, Progress(old(Abs()), []))
                case Err(e) => r == Err(e)
                case Ok(q) => r == Ok(q.out) && Abs() == q.s
    {
      if finished { return Err(Finished); }
      finished := true;
      var out: seq<EncodedChunk> := [];
      if pending != [] {
        var flushed := FlushPending(out);
        if flushed.Err? { return Err(flushed.error); }
        out := flushed.value;
      }
      if chunkSamples > 0 {
        var c := TakeChunk();
        out := out + [c];
      }
      return Ok(out);
    }
  }
}
