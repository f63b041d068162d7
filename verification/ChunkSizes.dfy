/** Why the encoder's chunks end where they do, and which coding a frame gets. */
module ChunkSizes {
  import opened Machine
  import opened Frames
  import opened Encoder

  /** Accepted are exactly the two bit depths, at rates that fill at most 20 bits. */
  lemma ConfigsAccepted(cfg: Config)
    ensures Validate(cfg).Ok? <==> cfg.bitsPerSample in {16, 24} && 0 < cfg.sampleRate < 1_048_576
  {
  }

  /** The nominal length is half a second, rounded down to whole samples. */
  lemma NominalIsHalfASecond(cfg: Config)
    ensures 2 * NominalSamples(cfg) <= cfg.sampleRate < 2 * NominalSamples(cfg) + 2
  {
  }

  ghost predicate FitsAChunk(r: Result<seq<byte>, string>) { r.Ok? && |r.value| <= MAX_CHUNK_PAYLOAD_BYTES }

  /** A frame is coded the normal way whenever that fits a chunk; verbatim only when it does not, and verbatim does. */
  lemma FrameChosen(flac: Flac, block: seq<int>, n: nat)
    ensures var normal, verbatim, r := flac(block, n, false), flac(block, n, true), FrameBytes(flac, block, n);
            && (FitsAChunk(normal) ==> r == Ok(normal.value))
            && (normal.Ok? && !FitsAChunk(normal) && FitsAChunk(verbatim) ==> r == Ok(verbatim.value))
            && (r.Ok? <==> FitsAChunk(normal) || (normal.Ok? && FitsAChunk(verbatim)))
  {
  }

  /** The chunk ends on a frame boundary, with the nominal length reached or no room for the frame that follows. */
  ghost predicate Full(flac: Flac, nominal: nat, samples: seq<int>, c: EncodedChunk) {
    exists k: nat ::
      && Boundary(k, c.firstSampleIndex + c.sampleCount) && k * BLOCK_SIZE <= |samples|
      && (c.sampleCount >= nominal || NoRoom(c.payload, FrameBytes(flac, Block(samples, k), k)))
  }

  ghost predicate Boundary(k: nat, at: nat) { at == k * BLOCK_SIZE }

  ghost predicate NoRoom(payload: seq<byte>, frame: Result<seq<byte>, CodecError>) {
    frame.Ok? && |payload| + |frame.value| > MAX_CHUNK_PAYLOAD_BYTES
  }

  ghost predicate AllFull(flac: Flac, nominal: nat, samples: seq<int>, out: seq<EncodedChunk>) {
    forall i :: 0 <= i < |out| ==> Full(flac, nominal, samples, out[i])
  }

  /** The open chunk ends at the cursor, at the start of frame k. */
  ghost predicate OpenAt(s: State, k: nat) {
    s.cursor == k * BLOCK_SIZE && (if s.payload == [] then s.count == 0 else s.first + s.count == s.cursor)
  }

  lemma MakeRoomFull(flac: Flac, nominal: nat, p: Progress, k: nat, samples: seq<int>, bytes: seq<byte>)
    requires AllFull(flac, nominal, samples, p.out) && OpenAt(p.s, k) && k * BLOCK_SIZE <= |samples|
    requires FrameBytes(flac, Block(samples, k), k) == Ok(bytes)
    ensures var q := MakeRoom(p, |bytes|);
            AllFull(flac, nominal, samples, q.out) && OpenAt(q.s, k) && q.s.cursor == p.s.cursor
  {
    hide FrameBytes, Block;
    if MakeRoom(p, |bytes|) != p {
      var c := ChunkOf(p.s);
      assert Boundary(k, c.firstSampleIndex + c.sampleCount);
      assert Full(flac, nominal, samples, c);
    }
  }

  /** After a frame every closed chunk is full, save one the take's short last block has closed. */
  lemma AppendFrameFull(flac: Flac, nominal: nat, p: Progress, k: nat, samples: seq<int>, bytes: seq<byte>, n: nat)
    requires AllFull(flac, nominal, samples, p.out) && OpenAt(p.s, k) && k * BLOCK_SIZE <= |samples|
    requires FrameBytes(flac, Block(samples, k), k) == Ok(bytes) && n > 0
    ensures var q := AppendFrame(p, bytes, n, nominal);
            && (n == BLOCK_SIZE && k * BLOCK_SIZE + n <= |samples| ==> AllFull(flac, nominal, samples, q.out))
            && (q.s.count > 0 ==> AllFull(flac, nominal, samples, q.out))
            && forall i :: 0 <= i < |q.out| - 1 ==> Full(flac, nominal, samples, q.out[i])
  {
    hide FrameBytes, Block, Full;
    var roomy := MakeRoom(p, |bytes|);
    MakeRoomFull(flac, nominal, p, k, samples, bytes);
    var longer := Extend(roomy, bytes, n);
    var c := ChunkOf(longer.s);
    if longer.s.count >= nominal && n == BLOCK_SIZE && k * BLOCK_SIZE + n <= |samples| {
      LongIsFull(flac, nominal, samples, c, k);
    }
  }

  lemma LongIsFull(flac: Flac, nominal: nat, samples: seq<int>, c: EncodedChunk, k: nat)
    requires c.firstSampleIndex + c.sampleCount == k * BLOCK_SIZE + BLOCK_SIZE <= |samples| && c.sampleCount >= nominal
    ensures Full(flac, nominal, samples, c)
  {
    assert Boundary(k + 1, c.firstSampleIndex + c.sampleCount) && Boundary(k + 1, (k + 1) * BLOCK_SIZE);
  }

  /** One more sample of the take. */
  lemma PushOneFull(flac: Flac, nominal: nat, p: Progress, before: seq<int>, x: int, samples: seq<int>)
    requires Sane(flac) && Sound(flac, p, before) && PushOne(flac, nominal, p, x).Ok?
    requires before + [x] <= samples && AllFull(flac, nominal, samples, p.out)
    ensures AllFull(flac, nominal, samples, PushOne(flac, nominal, p, x).value.out)
  {
    hide FrameBytes, Block, AllFull, AppendFrame, WellChunked, FrameStream, Payloads;
    if |p.s.pending| + 1 == BLOCK_SIZE {
      var q, k := p.(s := p.s.(pending := [], samplesIn := p.s.samplesIn + 1)), p.s.frameNo;
      var block := p.s.pending + [x];
      EncodeBlockIs(flac, nominal, q, block);
      BlockOfTake(before, p.s.pending, x, samples, k);
      var coded := q.(s := q.s.(frameNo := k + 1));
      AppendFrameFull(flac, nominal, coded, k, samples, FrameBytes(flac, block, k).value, BLOCK_SIZE);
    }
  }

  lemma BlockOfTake(before: seq<int>, pending: seq<int>, x: int, samples: seq<int>, k: nat)
    requires |before| == k * BLOCK_SIZE + |pending| && pending == before[k * BLOCK_SIZE..]
    requires |pending| + 1 == BLOCK_SIZE && before + [x] <= samples
    ensures k * BLOCK_SIZE + BLOCK_SIZE <= |samples| && Block(samples, k) == pending + [x]
  {
    NextBlock(k);
    assert samples[..|before| + 1] == before + [x];
    assert Block(samples, k) == (before + [x])[k * BLOCK_SIZE..];
  }

  lemma {:induction false} PushFull(flac: Flac, nominal: nat, p: Progress, before: seq<int>, rest: seq<int>,
      samples: seq<int>)
    requires Sane(flac) && Sound(flac, p, before) && Push(flac, nominal, p, rest).Ok?
    requires before + rest == samples && AllFull(flac, nominal, samples, p.out)
    ensures AllFull(flac, nominal, samples, Push(flac, nominal, p, rest).value.out)
    decreases |rest|
  {
    hide Sound, PushOne, AllFull;
    if rest != [] {
      PushOneSound(flac, nominal, p, before, rest[0]);
      assert before + [rest[0]] + rest[1..] == samples;
      PushOneFull(flac, nominal, p, before, rest[0], samples);
      PushFull(flac, nominal, PushOne(flac, nominal, p, rest[0]).value, before + [rest[0]], rest[1..], samples);
    }
  }

  lemma FinishFull(flac: Flac, nominal: nat, p: Progress, samples: seq<int>)
    requires Sane(flac) && Sound(flac, p, samples) && Finish(flac, nominal, p).Ok?
    requires AllFull(flac, nominal, samples, p.out)
    ensures var out := Finish(flac, nominal, p).value.out;
            forall i :: 0 <= i < |out| - 1 ==> Full(flac, nominal, samples, out[i])
  {
    hide FrameBytes, Block, Full, AppendFrame, WellChunked, FrameStream, Payloads;
    if p.s.pending != [] {
      var start, k := p.(s := p.s.(finished := true, pending := [])), p.s.frameNo;
      EncodeBlockIs(flac, nominal, start, p.s.pending);
      ShortBlockOfTake(samples, p.s.pending, k);
      var coded := start.(s := start.s.(frameNo := k + 1));
      AppendFrameFull(flac, nominal, coded, k, samples, FrameBytes(flac, p.s.pending, k).value, |p.s.pending|);
    }
  }

  lemma ShortBlockOfTake(samples: seq<int>, pending: seq<int>, k: nat)
    requires |samples| == k * BLOCK_SIZE + |pending| && |pending| < BLOCK_SIZE && pending == samples[k * BLOCK_SIZE..]
    ensures Block(samples, k) == pending
  {
    NextBlock(k);
  }

  /** Every chunk of a take but the last is full. */
  lemma ChunksAreFull(flac: Flac, nominal: nat, samples: seq<int>)
    requires Sane(flac) && Chunks(flac, nominal, samples).Ok?
    ensures var out := Chunks(flac, nominal, samples).value;
            forall i :: 0 <= i < |out| - 1 ==> Full(flac, nominal, samples, out[i])
  {
    hide Sound, Full, Finish, Push;
    var start := Progress(NEW, []);
    NothingYet(flac);
    assert [] + samples == samples;
    PushSound(flac, nominal, start, [], samples);
    PushFull(flac, nominal, start, [], samples, samples);
    FinishFull(flac, nominal, Push(flac, nominal, start, samples).value, samples);
  }
}
