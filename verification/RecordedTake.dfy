/** The recorder object drives the protocol exactly as the end-to-end theorem has it: one take, call by call. */
module RecordedTake {
  import opened Machine
  import opened Frames
  import opened Encoder
  import FlacFile
  import Sender
  import StreamHeader
  import Utf8
  import opened Protocol
  import opened EndToEnd
  import opened RecorderRun
  import opened RecorderEngine

  // ---- calls on the sender alone ----------------------------------------------------------------

  ghost function Call(s: Sender.State, step: Step): Sender.State {
    match step
    case Arm(ts, header) => if s.take.Idle? && Sender.Room(s, 0) then Sender.Arm(s, ts, header) else s
    case Push(count, ts, payload) =>
      if s.take.Streaming? && Sender.Room(s, count) then Sender.PushAudio(s, count, ts, payload) else s
    case Finish => if s.take.Streaming? && s.nextSeq > 0 then Sender.Finish(s) else s
    case _ => s
  }

  ghost function CallAll(s: Sender.State, steps: seq<Step>): Sender.State
    decreases |steps|
  {
    if steps == [] then s else Call(CallAll(s, steps[..|steps| - 1]), steps[|steps| - 1])
  }

  /** A step the recorder itself takes. */
  predicate OwnStep(step: Step) { step.Arm? || step.Push? || step.Finish? }

  lemma CallIsStep(s: System, step: Step)
    requires OwnStep(step)
    ensures Apply(s, step).sender == Call(s.sender, step)
  {
  }

  /** In the protocol, the recorder's own steps are these calls. */
  lemma {:induction false} CallsAreSteps(s: System, steps: seq<Step>)
    requires AllOwn(steps)
    ensures Execute(s, steps).sender == CallAll(s.sender, steps)
    decreases |steps|
  {
    hide Apply, Call;
    if steps != [] {
      var front, last := steps[..|steps| - 1], steps[|steps| - 1];
      CallsAreSteps(s, front);
      ExecuteConcat(s, front, [last]);
      assert front + [last] == steps;
      var mid := Execute(s, front);
      assert [last][1..] == [] && Execute(mid, [last]) == Execute(Apply(mid, last), []);
      CallIsStep(mid, last);
    }
  }

  ghost predicate AllOwn(steps: seq<Step>) { forall i :: 0 <= i < |steps| ==> OwnStep(steps[i]) }

  lemma {:induction false} PushCallsAreOwn(epochUs: u64, rate: u32, chunks: seq<EncodedChunk>, n: nat)
    requires rate > 0 && Pushable(chunks) && n <= |chunks|
    ensures AllOwn(PushCalls(epochUs, rate, chunks, n))
    decreases n
  {
    if n > 0 { PushCallsAreOwn(epochUs, rate, chunks, n - 1); }
  }

  /** The calls of a take, as a run of the protocol in which nothing else happens. */
  lemma TakeIsARun(stream: StreamKey, budget: nat, ids: set<SinkId>, h: StreamHeader.StreamHeaderV1, rate: u32,
      chunks: seq<EncodedChunk>)
    requires rate > 0 && Pushable(chunks)
    ensures Execute(Start(stream, budget, ids), TakeCalls(h, rate, chunks)).sender
        == CallAll(Sender.New(stream, budget), TakeCalls(h, rate, chunks))
  {
    hide Call, CallAll, Execute, PushCalls;
    PushCallsAreOwn(h.clockEpochUs, rate, chunks, |chunks|);
    AllOwnAround(Step.Arm(h.clockEpochUs, StreamHeader.Encoded(h)), PushCalls(h.clockEpochUs, rate, chunks, |chunks|));
    CallsAreSteps(Start(stream, budget, ids), TakeCalls(h, rate, chunks));
  }

  lemma AllOwnAround(arm: Step, pushes: seq<Step>)
    requires OwnStep(arm) && AllOwn(pushes)
    ensures AllOwn([arm] + pushes + [Step.Finish])
  {
  }

  lemma CallSnoc(s: Sender.State, steps: seq<Step>, step: Step)
    ensures CallAll(s, steps + [step]) == Call(CallAll(s, steps), step)
  {
    assert (steps + [step])[..|steps|] == steps;
  }

  lemma CallAppended(s: Sender.State, before: seq<Step>, calls: seq<Step>, call: Step)
    ensures CallAll(s, before + (calls + [call])) == Call(CallAll(s, before + calls), call)
  {
    assert before + (calls + [call]) == (before + calls) + [call];
    CallSnoc(s, before + calls, call);
  }

  lemma {:induction false} PushesAreCalls(
    s: Sender.State, before: seq<Step>, armed: Sender.State, chunks: seq<EncodedChunk>, n: nat,
    epochUs: u64, rate: u32)
    requires rate > 0 && Pushable(chunks) && n <= |chunks| && armed == CallAll(s, before) && RoomFor(armed, chunks)
    ensures CallAll(s, before + PushCalls(epochUs, rate, chunks, n)) == PushEach(armed, chunks[..n], epochUs, rate)
    decreases n
  {
    if n == 0 {
      assert before + [] == before && chunks[..0] == [];
    } else {
      PushesAreCalls(s, before, armed, chunks, n - 1, epochUs, rate);
      CallAppended(s, before, PushCalls(epochUs, rate, chunks, n - 1), PushCall(epochUs, rate, chunks, n - 1));
      PushIsCall(armed, chunks, n, epochUs, rate);
    }
  }

  lemma PushIsCall(armed: Sender.State, chunks: seq<EncodedChunk>, n: nat, epochUs: u64, rate: u32)
    requires rate > 0 && Pushable(chunks) && 0 < n <= |chunks| && RoomFor(armed, chunks)
    ensures Call(PushEach(armed, chunks[..n - 1], epochUs, rate), PushCall(epochUs, rate, chunks, n - 1))
         == PushEach(armed, chunks[..n], epochUs, rate)
  {
    RoomStays(armed, chunks, n - 1, epochUs, rate);
    NextFits(armed, chunks, n - 1);
    assert chunks[..n][..n - 1] == chunks[..n - 1];
  }

  // ---- chunks handed over a slab at a time ------------------------------------------------------

  lemma {:induction false} PushEachConcat(
    s: Sender.State, a: seq<EncodedChunk>, b: seq<EncodedChunk>, epochUs: u64, rate: u32)
    requires rate > 0
    ensures PushEach(s, a + b, epochUs, rate) == PushEach(PushEach(s, a, epochUs, rate), b, epochUs, rate)
    decreases |b|
  {
    if b == [] {
      assert a + b == a;
    } else {
      var front := b[..|b| - 1];
      assert (a + b)[..|a + b| - 1] == a + front;
      PushEachConcat(s, a, front, epochUs, rate);
    }
  }

  /** What is still to come, once these slabs are in. */
  function Rest(flac: Flac, nominal: nat, p: Progress, slabs: seq<seq<int>>): Result<seq<EncodedChunk>, CodecError> {
    match PushSlabs(flac, nominal, p, slabs)
    case Err(e) => Err(e)
    case Ok(q) =>
      match Encoder.Finish(flac, nominal, q)
      case Err(e) => Err(e)
      case Ok(last) => Ok(last.out)
  }

  /** One slab more: its chunks follow those emitted so far. */
  lemma SlabEmits(flac: Flac, nominal: nat, p: Progress, slab: seq<int>)
    ensures Encoder.Push(flac, nominal, p, slab)
         == RebaseResult(p.out, Encoder.Push(flac, nominal, Progress(p.s, []), slab))
  {
    PushRebase(flac, nominal, p.out, Progress(p.s, []), slab);
    assert p.out + [] == p.out;
  }

  lemma {:induction false} OutGrows(flac: Flac, nominal: nat, p: Progress, slabs: seq<seq<int>>)
    requires Rest(flac, nominal, p, slabs).Ok?
    ensures p.out <= Rest(flac, nominal, p, slabs).value
    decreases |slabs|
  {
    if slabs == [] {
      FinishRebase(flac, nominal, p.out, Progress(p.s, []));
      assert p.out + [] == p.out;
    } else {
      SlabEmits(flac, nominal, p, slabs[0]);
      OutGrows(flac, nominal, Encoder.Push(flac, nominal, p, slabs[0]).value, slabs[1..]);
    }
  }

  /** A prefix leaves room for what follows it. */
  lemma RoomForMore(
    armed: Sender.State, all: seq<EncodedChunk>, done: seq<EncodedChunk>, more: seq<EncodedChunk>,
    epochUs: u64, rate: u32)
    requires rate > 0 && RoomFor(armed, all) && done + more <= all
    ensures RoomFor(PushEach(armed, done, epochUs, rate), more)
    ensures PushEach(armed, done, epochUs, rate).nextSeq == armed.nextSeq + |done|
  {
    var n := |done + more|;
    assert all[..|done|] == done && all[..n] == done + more;
    RoomStays(armed, all, |done|, epochUs, rate);
    TotalsGrow(all, n);
    TotalsAdd(done, more);
    assert forall i :: 0 <= i < |more| ==> more[i] == all[|done| + i];
  }

  lemma {:induction false} TotalsAdd(a: seq<EncodedChunk>, b: seq<EncodedChunk>)
    ensures SampleTotal(a + b) == SampleTotal(a) + SampleTotal(b)
    decreases |b|
  {
    if b == [] {
      assert a + b == a;
    } else {
      assert (a + b)[..|a + b| - 1] == a + b[..|b| - 1];
      TotalsAdd(a, b[..|b| - 1]);
    }
  }

  // ---- a whole take -----------------------------------------------------------------------------

  /** The next slab can be pushed, and the rest of the take is the same. */
  lemma NextSlab(
    flac: Flac, nominal: nat, p: Progress, rest: seq<seq<int>>, chunks: seq<EncodedChunk>,
    armed: Sender.State, epochUs: u64, rate: u32)
    requires rest != [] && Rest(flac, nominal, p, rest) == Ok(chunks) && rate > 0 && RoomFor(armed, chunks)
    ensures var r := Encoder.Push(flac, nominal, Progress(p.s, []), rest[0]);
            && r.Ok? && RoomFor(PushEach(armed, p.out, epochUs, rate), r.value.out)
            && Rest(flac, nominal, Rebase(p.out, r.value), rest[1..]) == Ok(chunks)
            && PushEach(armed, p.out + r.value.out, epochUs, rate)
               == PushEach(PushEach(armed, p.out, epochUs, rate), r.value.out, epochUs, rate)
            && (r.value.s.finished <==> p.s.finished)
  {
    var r := Encoder.Push(flac, nominal, Progress(p.s, []), rest[0]);
    SlabEmits(flac, nominal, p, rest[0]);
    FlacFile.StillOpen(flac, nominal, Progress(p.s, []), rest[0]);
    OutGrows(flac, nominal, Rebase(p.out, r.value), rest[1..]);
    RoomForMore(armed, chunks, p.out, r.value.out, epochUs, rate);
    PushEachConcat(armed, p.out, r.value.out, epochUs, rate);
  }

  /** With every slab in, finishing hands over the rest and drains. */
  lemma LastSlab(
    flac: Flac, nominal: nat, p: Progress, chunks: seq<EncodedChunk>, armed: Sender.State, epochUs: u64, rate: u32)
    requires Rest(flac, nominal, p, []) == Ok(chunks) && rate > 0 && RoomFor(armed, chunks) && armed.nextSeq > 0
    ensures var r := Encoder.Finish(flac, nominal, Progress(p.s, []));
            var now := PushEach(armed, p.out, epochUs, rate);
            && r.Ok? && RoomFor(now, r.value.out) && now.nextSeq > 0
            && FinishAfter(now, r.value.out, epochUs, rate) == FinishAfter(armed, chunks, epochUs, rate)
  {
    var r := Encoder.Finish(flac, nominal, Progress(p.s, []));
    FinishRebase(flac, nominal, p.out, Progress(p.s, []));
    assert p.out + [] == p.out;
    assert chunks == p.out + r.value.out;
    RoomForMore(armed, chunks, p.out, r.value.out, epochUs, rate);
    PushEachConcat(armed, p.out, r.value.out, epochUs, rate);
  }

  /** The calls of a take, on a sender that is armed. */
  lemma TakeIsCalls(
    start: Sender.State, before: seq<Step>, chunks: seq<EncodedChunk>, epochUs: u64, rate: u32)
    requires rate > 0 && Pushable(chunks) && RoomFor(CallAll(start, before), chunks)
    requires CallAll(start, before).nextSeq > 0
    ensures CallAll(start, before + PushCalls(epochUs, rate, chunks, |chunks|) + [Step.Finish])
         == FinishAfter(CallAll(start, before), chunks, epochUs, rate)
  {
    PushesAreCalls(start, before, CallAll(start, before), chunks, |chunks|, epochUs, rate);
    CallSnoc(start, before + PushCalls(epochUs, rate, chunks, |chunks|), Step.Finish);
    RoomStays(CallAll(start, before), chunks, |chunks|, epochUs, rate);
    assert chunks[..|chunks|] == chunks;
  }

  lemma ArmedHasRoom(armed: Sender.State, chunks: seq<EncodedChunk>)
    requires Pushable(chunks) && armed.take.Streaming? && armed.nextSeq == 1 && armed.nextFirst == 0
    ensures RoomFor(armed, chunks)
  {
  }

  /** The pushes of a recording, one a chunk. */
  ghost function Pushes(cfg: Config, flac: Flac, slabs: seq<seq<real>>, epochUs: u64): seq<Step>
    requires Validate(cfg).Ok? && Sane(flac) && CapturedFits(cfg, flac, slabs)
  {
    CapturedIsWhole(cfg, flac, slabs);
    var chunks := CapturedChunks(cfg, flac, slabs).value;
    PushCalls(epochUs, cfg.sampleRate, chunks, |chunks|)
  }

  /** Push every slab, then finish: the sender has then had exactly a take's calls. */
  method RecordSlabs(engine: RecorderEngine, slabs: seq<seq<real>>, ghost start: Sender.State, ghost before: seq<Step>)
    requires engine.Valid() && engine.encoder.Abs() == NEW && Sane(engine.encoder.flac)
    requires engine.encoder.nominalChunkSamples == NominalSamples(engine.encoder.cfg)
    requires engine.sampleRate == engine.encoder.cfg.sampleRate
    requires CapturedFits(engine.encoder.cfg, engine.encoder.flac, slabs)
    requires engine.sender.Abs() == CallAll(start, before)
    requires engine.sender.Abs().take.Streaming? && engine.sender.Abs().nextSeq == 1
    requires engine.sender.Abs().nextFirst == 0
    modifies engine.encoder, engine.sender.Core(), engine.sender.sinkRepr
    ensures engine.Valid()
    ensures engine.sender.Abs()
         == CallAll(start, before + Pushes(engine.encoder.cfg, engine.encoder.flac, slabs, engine.clockEpochUs)
                           + [Step.Finish])
  {
    ghost var cfg, flac, nominal := engine.encoder.cfg, engine.encoder.flac, NominalSamples(engine.encoder.cfg);
    ghost var ints, chunks := QuantizeSlabs(slabs, cfg.bitsPerSample), CapturedChunks(cfg, flac, slabs).value;
    ghost var armed, epochUs, rate := engine.sender.Abs(), engine.clockEpochUs, engine.sampleRate;
    ghost var p := Progress(NEW, []);
    CapturedIsWhole(cfg, flac, slabs);
    assert ints[0..] == ints;
    ArmedHasRoom(armed, chunks);
    for i := 0 to |slabs|
      invariant engine.Valid() && engine.encoder.Abs() == p.s && !p.s.finished
      invariant engine.sender.sinkRepr == old(engine.sender.sinkRepr)
      invariant Rest(flac, nominal, p, ints[i..]) == Ok(chunks)
      invariant engine.sender.Abs() == PushEach(armed, p.out, epochUs, rate)
    {
      assert ints[i..][0] == ints[i] && ints[i..][1..] == ints[i + 1..];
      NextSlab(flac, nominal, p, ints[i..], chunks, armed, epochUs, rate);
      ghost var q := Encoder.Push(flac, nominal, Progress(p.s, []), ints[i]).value;
      var pushed := engine.PushSamples(slabs[i]);
      p := Rebase(p.out, q);
    }
    assert ints[|slabs|..] == [];
    LastSlab(flac, nominal, p, chunks, armed, epochUs, rate);
    var stopped := engine.Finish();
    TakeIsCalls(start, before, chunks, epochUs, rate);
  }

  /** A fresh sender has room for its header chunk, and streams once it has it. */
  lemma ArmStreams(stream: StreamKey, budget: nat, epochUs: u64, header: seq<byte>)
    ensures var armed := Sender.Arm(Sender.New(stream, budget), epochUs, header);
            && armed == CallAll(Sender.New(stream, budget), [Step.Arm(epochUs, header)])
            && armed.take.Streaming? && armed.nextSeq == 1 && armed.nextFirst == 0
  {
    var fresh_ := Sender.New(stream, budget);
    CallSnoc(fresh_, [], Step.Arm(epochUs, header));
    assert [] + [Step.Arm(epochUs, header)] == [Step.Arm(epochUs, header)];
    ProduceAside(fresh_, Sender.ChunkFor(stream, 0, 0, 0, epochUs, header));
  }

  /**
   * A recorder from creation to the end of its take: whatever the slabs, its sender is where the protocol's own run
   * of the take leaves it, with exactly the calls that the end-to-end theorem takes for this recording.
   */
  method RecordTake(
    stream: StreamKey, cfg: Config, flac: Flac, deviceDesc: Utf8.Str, epochUs: u64, wallClockHintMs: u64,
    budget: nat, slabs: seq<seq<real>>, ghost ids: set<SinkId>)
    returns (engine: RecorderEngine)
    requires Validate(cfg).Ok? && Sane(flac) && CapturedFits(cfg, flac, slabs)
    ensures engine.Valid() && fresh(engine)
    ensures (CapturedIsWhole(cfg, flac, slabs);
             engine.sender.Abs()
             == Execute(Start(stream, budget, ids),
                        TakeCalls(HeaderFor(cfg, deviceDesc, epochUs, wallClockHintMs), cfg.sampleRate,
                                  CapturedChunks(cfg, flac, slabs).value)).sender)
  {
    ghost var header := StreamHeader.Encoded(HeaderFor(cfg, deviceDesc, epochUs, wallClockHintMs));
    ArmStreams(stream, budget, epochUs, header);
    engine := new RecorderEngine(stream, cfg, flac, deviceDesc, epochUs, wallClockHintMs, budget);
    RecordSlabs(engine, slabs, Sender.New(stream, budget), [Step.Arm(epochUs, header)]);
    CapturedIsWhole(cfg, flac, slabs);
    TakeIsARun(stream, budget, ids, HeaderFor(cfg, deviceDesc, epochUs, wallClockHintMs), cfg.sampleRate,
        CapturedChunks(cfg, flac, slabs).value);
  }
}
