/**
 * The recorder inside the protocol: its log is a function of its own calls alone, whatever happens between them;
 * hence the end-to-end theorem.
 */
module RecorderRun {
  import opened Machine
  import opened Sets
  import opened Frames
  import opened Encoder
  import opened Streaminfo
  import opened FlacFile
  import opened EndToEnd
  import StreamHeader
  import Sender
  import opened Protocol
  import Guarantees

  datatype Phase = Before | During | Past

  /** All of the sender that the recorder's calls determine. */
  datatype Take = Take(phase: Phase, log: seq<AudioChunk>, nextFirst: u64)

  ghost function Control(stream: StreamKey, t: Take, step: Step): Take {
    match step
    case Arm(ts, header) =>
      if t.phase.Before? && |t.log| < U32_MAX then
        t.(phase := During, log := t.log + [Sender.ChunkFor(stream, 0, 0, 0, ts, header)])
      else t
    case Push(count, ts, payload) =>
      if t.phase.During? && |t.log| < U32_MAX && t.nextFirst + count <= U64_MAX then
        t.(log := t.log + [Sender.ChunkFor(stream, |t.log|, t.nextFirst, count, ts, payload)],
            nextFirst := t.nextFirst + count)
      else t
    case Finish => if t.phase.During? && |t.log| > 0 then t.(phase := Past) else t
    case _ => t
  }

  ghost function ControlRun(stream: StreamKey, t: Take, steps: seq<Step>): Take
    decreases |steps|
  {
    if steps == [] then t else ControlRun(stream, Control(stream, t, steps[0]), steps[1..])
  }

  /** The recorder's own calls among the steps of a run. */
  function Calls(steps: seq<Step>): seq<Step>
    decreases |steps|
  {
    if steps == [] then []
    else (if steps[0].Arm? || steps[0].Push? || steps[0].Finish? then [steps[0]] else []) + Calls(steps[1..])
  }

  lemma {:induction false} OnlyCallsMatter(stream: StreamKey, t: Take, steps: seq<Step>)
    ensures ControlRun(stream, t, steps) == ControlRun(stream, t, Calls(steps))
    decreases |steps|
  {
    if steps != [] {
      OnlyCallsMatter(stream, Control(stream, t, steps[0]), steps[1..]);
      assert ([steps[0]] + Calls(steps[1..]))[1..] == Calls(steps[1..]);
      assert [] + Calls(steps[1..]) == Calls(steps[1..]);
    }
  }

  /** The sender, seen from its calls. */
  ghost predicate Follows(sender: Sender.State, log: seq<AudioChunk>, stream: StreamKey, t: Take) {
    && sender.stream == stream && log == t.log && sender.nextSeq == |log| && sender.nextFirst == t.nextFirst
    && (match t.phase
        case Before => sender.take.Idle?
        case During => sender.take.Streaming?
        case Past => (sender.take.Draining? || sender.take.Closed?) && sender.final == Some(|log| - 1))
  }

  /** What every sender move other than the recorder's own calls leaves alone. */
  ghost predicate Aside(a: Sender.State, b: Sender.State) {
    && b.stream == a.stream && b.nextSeq == a.nextSeq && b.nextFirst == a.nextFirst && b.final == a.final
    && (b.take == a.take || (a.take.Draining? && b.take.Closed?))
  }

  lemma ProduceAside(s: Sender.State, c: AudioChunk)
    requires s.nextSeq < U32_MAX
    ensures Aside(s.(nextSeq := s.nextSeq + 1), Sender.Produce(s, c))
  {
  }

  lemma HandleAside(s: Sender.State, id: SinkId, f: Frame)
    ensures Aside(s, Sender.HandleFrame(s, id, f))
  {
  }

  lemma ManageAside(s: Sender.State, id: SinkId, up: bool)
    ensures Aside(s, Sender.AddSink(s, id)) && Aside(s, Sender.RemoveSink(s, id))
    ensures Aside(s, Sender.SetConnected(s, id, up)) && Aside(s, Sender.PopFrame(s, id).0)
  {
  }

  /** Steps that are not the recorder's own. */
  lemma OtherStep(s: System, step: Step)
    requires !step.Arm? && !step.Push? && !step.Finish?
    ensures Aside(s.sender, Apply(s, step).sender) && Apply(s, step).log == s.log
  {
    match step {
      case DeliverToSender(id, f) => HandleAside(s.sender, id, f);
      case AddSink(id) => ManageAside(s.sender, id, true);
      case RemoveSink(id) => ManageAside(s.sender, id, true);
      case SetConnected(id, up) => ManageAside(s.sender, id, up);
      case Pop(id) => ManageAside(s.sender, id, true);
      case _ =>
    }
  }

  lemma OwnStep(s: System, stream: StreamKey, t: Take, step: Step)
    requires Follows(s.sender, s.log, stream, t) && (step.Arm? || step.Push? || step.Finish?)
    requires t.phase.Before? ==> s.sender.nextFirst == 0
    ensures var n := Apply(s, step); Follows(n.sender, n.log, stream, Control(stream, t, step))
  {
    match step {
      case Arm(ts, header) =>
        if s.sender.take.Idle? && Sender.Room(s.sender, 0) {
          ProduceAside(s.sender, Sender.ChunkFor(stream, 0, 0, 0, ts, header));
        }
      case Push(count, ts, payload) =>
        if s.sender.take.Streaming? && Sender.Room(s.sender, count) {
          ProduceAside(s.sender.(nextFirst := s.sender.nextFirst + count),
                       Sender.ChunkFor(stream, s.sender.nextSeq, s.sender.nextFirst, count, ts, payload));
        }
      case _ =>
    }
  }

  lemma {:induction false} RunFollows(s: System, stream: StreamKey, t: Take, steps: seq<Step>)
    requires Follows(s.sender, s.log, stream, t) && (t.phase.Before? ==> t.nextFirst == 0)
    ensures var n := Execute(s, steps); Follows(n.sender, n.log, stream, ControlRun(stream, t, steps))
    decreases |steps|
  {
    if steps != [] {
      if steps[0].Arm? || steps[0].Push? || steps[0].Finish? {
        OwnStep(s, stream, t, steps[0]);
      } else {
        OtherStep(s, steps[0]);
      }
      RunFollows(Apply(s, steps[0]), stream, Control(stream, t, steps[0]), steps[1..]);
    }
  }

  // ---- the recorder's calls for a take ---------------------------------------------------------------

  ghost function PushCall(epochUs: u64, rate: u32, chunks: seq<EncodedChunk>, i: nat): Step
    requires rate > 0 && Pushable(chunks) && i < |chunks|
  {
    Push(chunks[i].sampleCount, CaptureTs(epochUs, rate, chunks[i].firstSampleIndex), chunks[i].payload)
  }

  ghost function PushCalls(epochUs: u64, rate: u32, chunks: seq<EncodedChunk>, n: nat): (steps: seq<Step>)
    requires rate > 0 && Pushable(chunks) && n <= |chunks|
    decreases n
  {
    if n == 0 then [] else PushCalls(epochUs, rate, chunks, n - 1) + [PushCall(epochUs, rate, chunks, n - 1)]
  }

  /** Arm with the header, push every chunk in order, finish. */
  ghost function TakeCalls(h: StreamHeader.StreamHeaderV1, rate: u32, chunks: seq<EncodedChunk>): seq<Step>
    requires rate > 0 && Pushable(chunks)
  {
    [Arm(h.clockEpochUs, StreamHeader.Encoded(h))] + PushCalls(h.clockEpochUs, rate, chunks, |chunks|) + [Finish]
  }

  lemma {:induction false} ControlConcat(stream: StreamKey, t: Take, a: seq<Step>, b: seq<Step>)
    ensures ControlRun(stream, t, a + b) == ControlRun(stream, ControlRun(stream, t, a), b)
    decreases |a|
  {
    if a == [] {
      assert a + b == b;
    } else {
      assert (a + b)[1..] == a[1..] + b;
      ControlConcat(stream, Control(stream, t, a[0]), a[1..], b);
    }
  }

  lemma ControlOne(stream: StreamKey, t: Take, step: Step)
    ensures ControlRun(stream, t, [step]) == Control(stream, t, step)
  {
    assert [step][1..] == [];
  }

  /** The log after the first n pushes. */
  ghost predicate LoggedUpTo(t: Take, stream: StreamKey, h: StreamHeader.StreamHeaderV1, rate: u32,
      chunks: seq<EncodedChunk>, n: nat)
    requires rate > 0 && Pushable(chunks) && n <= |chunks|
  {
    && t.phase.During? && |t.log| == n + 1 && t.log[0] == StreamHeader.HeaderChunk(stream, h)
    && t.nextFirst == SampleTotal(chunks[..n])
    && forall i :: 0 <= i < n ==> t.log[i + 1] == Logged(stream, h.clockEpochUs, rate, chunks, i)
  }

  lemma PushIs(t: Take, stream: StreamKey, h: StreamHeader.StreamHeaderV1, rate: u32, chunks: seq<EncodedChunk>, n: nat)
    requires rate > 0 && Pushable(chunks) && n < |chunks|
    requires t.phase.During? && |t.log| == n + 1 && t.nextFirst == SampleTotal(chunks[..n])
    ensures SampleTotal(chunks[..n + 1]) <= U64_MAX
    ensures Control(stream, t, PushCall(h.clockEpochUs, rate, chunks, n))
         == Take(During, t.log + [Logged(stream, h.clockEpochUs, rate, chunks, n)], SampleTotal(chunks[..n + 1]))
  {
    hide CaptureTs;
    assert chunks[..n + 1][..n] == chunks[..n];
    assert SampleTotal(chunks[..n + 1]) == SampleTotal(chunks[..n]) + chunks[n].sampleCount;
    hide SampleTotal;
    TotalsGrow(chunks, n + 1);
  }

  lemma PushLogs(t: Take, stream: StreamKey, h: StreamHeader.StreamHeaderV1, rate: u32, chunks: seq<EncodedChunk>,
      n: nat)
    requires rate > 0 && Pushable(chunks) && n < |chunks| && LoggedUpTo(t, stream, h, rate, chunks, n)
    ensures LoggedUpTo(Control(stream, t, PushCall(h.clockEpochUs, rate, chunks, n)), stream, h, rate, chunks, n + 1)
  {
    PushIs(t, stream, h, rate, chunks, n);
    var c := Logged(stream, h.clockEpochUs, rate, chunks, n);
    forall i | 0 <= i < n + 1 ensures (t.log + [c])[i + 1] == Logged(stream, h.clockEpochUs, rate, chunks, i) { }
  }

  lemma {:induction false} PushesLog(t: Take, stream: StreamKey, h: StreamHeader.StreamHeaderV1, rate: u32,
      chunks: seq<EncodedChunk>, n: nat)
    requires rate > 0 && Pushable(chunks) && n <= |chunks| && LoggedUpTo(t, stream, h, rate, chunks, 0)
    ensures LoggedUpTo(ControlRun(stream, t, PushCalls(h.clockEpochUs, rate, chunks, n)), stream, h, rate, chunks, n)
    decreases n
  {
    if n > 0 {
      PushesLog(t, stream, h, rate, chunks, n - 1);
      var before := PushCalls(h.clockEpochUs, rate, chunks, n - 1);
      var call := PushCall(h.clockEpochUs, rate, chunks, n - 1);
      ControlConcat(stream, t, before, [call]);
      ControlOne(stream, ControlRun(stream, t, before), call);
      PushLogs(ControlRun(stream, t, before), stream, h, rate, chunks, n - 1);
    }
  }

  /** A whole take's calls leave exactly the recorded log, and a known final seq. */
  lemma TakeLogs(stream: StreamKey, h: StreamHeader.StreamHeaderV1, rate: u32, chunks: seq<EncodedChunk>)
    requires rate > 0 && Pushable(chunks)
    ensures var t := ControlRun(stream, Take(Before, [], 0), TakeCalls(h, rate, chunks));
            t.phase.Past? && Recorded(t.log, stream, h, rate, chunks)
  {
    var arm, pushes := Arm(h.clockEpochUs, StreamHeader.Encoded(h)), PushCalls(h.clockEpochUs, rate, chunks, |chunks|);
    var start := Take(Before, [], 0);
    ControlConcat(stream, start, [arm] + pushes, [Finish]);
    ControlConcat(stream, start, [arm], pushes);
    ControlOne(stream, start, arm);
    var armed := Control(stream, start, arm);
    assert chunks[..0] == [];
    PushesLog(armed, stream, h, rate, chunks, |chunks|);
    ControlOne(stream, ControlRun(stream, armed, pushes), Finish);
  }

  // ---- end to end -------------------------------------------------------------------------------------

  /** The chunks a recorder emits for slabs pushed one after the other. */
  function RecorderChunks(flac: Flac, nominal: nat, slabs: seq<seq<int>>): Result<seq<EncodedChunk>, CodecError> {
    match PushSlabs(flac, nominal, Progress(NEW, []), slabs)
    case Err(e) => Err(e)
    case Ok(p) =>
      match Encoder.Finish(flac, nominal, p)
      case Err(e) => Err(e)
      case Ok(q) => Ok(q.out)
  }

  lemma SlabbedChunks(flac: Flac, nominal: nat, slabs: seq<seq<int>>)
    ensures RecorderChunks(flac, nominal, slabs) == Chunks(flac, nominal, Concat(slabs))
  {
    SlabsDoNotMatter(flac, nominal, Progress(NEW, []), slabs);
  }

  /** The captured samples of a take, slab after slab. */
  function Joined(slabs: seq<seq<real>>): seq<real>
    decreases |slabs|
  {
    if slabs == [] then [] else slabs[0] + Joined(slabs[1..])
  }

  function QuantizeSlabs(slabs: seq<seq<real>>, bits: nat): (q: seq<seq<int>>)
    requires bits > 0
    ensures |q| == |slabs|
  {
    seq(|slabs|, i requires 0 <= i < |slabs| => QuantizeAll(slabs[i], bits))
  }

  /** Cutting the floats into slabs and quantizing each is quantizing the whole. */
  lemma {:induction false} QuantizeConcat(slabs: seq<seq<real>>, bits: nat)
    requires bits > 0
    ensures Concat(QuantizeSlabs(slabs, bits)) == QuantizeAll(Joined(slabs), bits)
    decreases |slabs|
  {
    if slabs != [] {
      QuantizeConcat(slabs[1..], bits);
      assert QuantizeSlabs(slabs, bits)[1..] == QuantizeSlabs(slabs[1..], bits);
      assert QuantizeAll(Joined(slabs), bits)
          == QuantizeAll(slabs[0], bits) + QuantizeAll(Joined(slabs[1..]), bits);
    }
  }

  /** The chunks a recorder emits for slabs of captured samples. */
  function CapturedChunks(cfg: Config, flac: Flac, slabs: seq<seq<real>>): Result<seq<EncodedChunk>, CodecError>
    requires Validate(cfg).Ok?
  {
    RecorderChunks(flac, NominalSamples(cfg), QuantizeSlabs(slabs, cfg.bitsPerSample))
  }

  /** They are those of the whole recording, and can all be sent. */
  lemma CapturedIsWhole(cfg: Config, flac: Flac, slabs: seq<seq<real>>)
    requires Validate(cfg).Ok?
    ensures CapturedChunks(cfg, flac, slabs)
         == Chunks(flac, NominalSamples(cfg), QuantizeAll(Joined(slabs), cfg.bitsPerSample))
    ensures Sane(flac) && CapturedFits(cfg, flac, slabs) ==> Pushable(CapturedChunks(cfg, flac, slabs).value)
  {
    SlabbedChunks(flac, NominalSamples(cfg), QuantizeSlabs(slabs, cfg.bitsPerSample));
    QuantizeConcat(slabs, cfg.bitsPerSample);
    if Sane(flac) && CapturedFits(cfg, flac, slabs) {
      ChunksArePushable(cfg, flac, QuantizeAll(Joined(slabs), cfg.bitsPerSample));
    }
  }

  /** The take encodes, and stays short of the seq sentinel and the sample clock's end. */
  predicate CapturedFits(cfg: Config, flac: Flac, slabs: seq<seq<real>>)
    requires Validate(cfg).Ok?
  {
    && CapturedChunks(cfg, flac, slabs).Ok?
    && |CapturedChunks(cfg, flac, slabs).value| + 1 < U32_MAX && |Joined(slabs)| <= U64_MAX
  }

  /** What the recorder did in this run was to record these slabs: its calls, among all else that happened. */
  ghost predicate Records(steps: seq<Step>, cfg: Config, flac: Flac, slabs: seq<seq<real>>,
      h: StreamHeader.StreamHeaderV1)
    requires Validate(cfg).Ok? && Sane(flac)
  {
    && CapturedFits(cfg, flac, slabs)
    && (CapturedIsWhole(cfg, flac, slabs);
        Calls(steps) == TakeCalls(h, cfg.sampleRate, CapturedChunks(cfg, flac, slabs).value))
  }

  /** In any state of any run, a sink's store knows only the recorder's own chunks. */
  lemma StoreIsGenuine(stream: StreamKey, budget: nat, ids: set<SinkId>, steps: seq<Step>, id: SinkId)
    requires id in Guarantees.After(stream, budget, ids, steps).nodes
    ensures var s := Guarantees.After(stream, budget, ids, steps);
            Genuine(s.nodes[id].store, s.log) && s.sender.nextSeq == |s.log|
  {
    Guarantees.AfterOk(stream, budget, ids, steps);
    var s := Guarantees.After(stream, budget, ids, steps);
    assert NodeOk(s.nodes[id], s.log, s.sender.ring.gaps, s.sender.final);
  }

  /**
   * End to end: take any run of the protocol - any drops, reorderings, duplicates, disconnects and crashes - in
   * which the recorder's own calls are those of a take pushed in some slabs. Once a sink's durable store holds
   * every chunk, the file the server assembles from it is exactly the one-shot encode of all the samples.
   */
  lemma ServedFileIsTheEncode(
    cfg: Config, flac: Flac, slabs: seq<seq<real>>, h: StreamHeader.StreamHeaderV1,
    stream: StreamKey, budget: nat, ids: set<SinkId>, steps: seq<Step>, id: SinkId, allowPartial: bool)
    requires Validate(cfg).Ok? && Sane(flac) && Records(steps, cfg, flac, slabs, h)
    requires h.codecHeader == CodecHeader(cfg) && |h.deviceDesc| <= 65_394
    requires var s := Guarantees.After(stream, budget, ids, steps);
             id in s.nodes && Below(|s.log|) <= s.nodes[id].store.Keys
    ensures var s := Guarantees.After(stream, budget, ids, steps);
            var whole := FlacMono(cfg, flac, QuantizeAll(Joined(slabs), cfg.bitsPerSample));
            && whole.Ok?
            && FileOf(true, s.sender.final, StoredRows(s.nodes[id].store), allowPartial) == Served(whole.value)
  {
    var s := Guarantees.After(stream, budget, ids, steps);
    var chunks := CapturedChunks(cfg, flac, slabs).value;
    CapturedIsWhole(cfg, flac, slabs);
    TakeLogs(stream, h, cfg.sampleRate, chunks);
    OnlyCallsMatter(stream, Take(Before, [], 0), steps);
    RunFollows(Start(stream, budget, ids), stream, Take(Before, [], 0), steps);
    StoreIsGenuine(stream, budget, ids, steps, id);
    assert s.nodes[id].store.Keys == Below(|s.log|);
    var ints := QuantizeAll(Joined(slabs), cfg.bitsPerSample);
    FileFromStore(cfg, flac, ints, stream, h, s.log, s.nodes[id].store, allowPartial);
  }
}
