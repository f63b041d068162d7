/**
 * One recorder, its sinks, and a network that drops, reorders, duplicates and disconnects, as a step function.
 * A run is any list of steps from the initial system.
 */
module Protocol {
  import opened Machine
  import opened Ranges
  import opened Frames
  import Receiver
  import Sender
  import opened SenderFacts

  type SinkId = Sender.SinkId

  /** Most holes an ACK frame can carry before it outgrows the frame limit and is dropped as oversize. */
  const MAX_ACK_HOLES := (MAX_FRAME_BYTES - FRAME_HEADER_LEN - 32 - 4 - 2) / 8

  /**
   * A sink: its volatile receiver, the chunks ingested but not yet persisted, and its durable store.
   */
  datatype Node = Node(recv: Receiver.State, unsaved: map<u32, AudioChunk>, store: map<u32, AudioChunk>)

  const NEW_NODE := Node(Receiver.NEW, map[], map[])

  /**
   * `toSinks` and `toSender` hold every frame ever sent: delivering any of them at any time, any number of
   * times or never, covers loss, reordering, duplication and delay. `log` and `everAdded` are history.
   */
  datatype System = System(
    sender: Sender.State,
    log: seq<AudioChunk>,
    everAdded: set<SinkId>,
    nodes: map<SinkId, Node>,
    toSinks: set<(SinkId, Frame)>,
    toSender: set<(SinkId, Frame)>)

  function Start(stream: StreamKey, budget: nat, ids: set<SinkId>): System {
    System(Sender.New(stream, budget), [], {}, map id | id in ids :: NEW_NODE, {}, {})
  }

  datatype Step =
    | Arm(clockEpochUs: u64, header: seq<byte>)
    | Push(count: u32, ts: u64, payload: seq<byte>)
    | Finish
    | AddSink(id: SinkId)
    | RemoveSink(id: SinkId)
    | SetConnected(id: SinkId, up: bool)
    | Pop(id: SinkId)
    | DeliverToSink(id: SinkId, frame: Frame)
    | Persist(id: SinkId, seqNo: u32)
    | SendAck(id: SinkId)
    | RequestBackfill(id: SinkId, ranges: seq<SeqRange>)
    | DeliverToSender(id: SinkId, frame: Frame)
    | LearnFinal(id: SinkId)
    | Crash(id: SinkId, keptGaps: set<u32>, keptFinal: bool)
    | SyncPush(source: SinkId, target: SinkId, seqNo: u32)

  // ---- a sink's own moves ---------------------------------------------------

  /** A chunk or gap report reaches a sink; a newly stored chunk waits to be persisted. */
  ghost function Receive(n: Node, f: Frame): Node {
    match f
    case ChunkFrame(c) =>
      var (recv, outcome) := Receiver.Ingest(n.recv, c);
      if outcome.Stored? || outcome.ContinuityViolation? then n.(recv := recv, unsaved := n.unsaved[c.seqNo := c])
      else n.(recv := recv)
    case GapReport(list) => n.(recv := Receiver.RecordGaps(n.recv, list.ranges))
    case _ => n
  }

  /** Insert-if-absent into the durable store. */
  function Save(n: Node, s: u32): Node {
    if s !in n.unsaved then n
    else n.(unsaved := n.unsaved - {s}, store := if s in n.store then n.store else n.store[s := n.unsaved[s]])
  }

  /** Everything volatile is lost; the receiver is rebuilt from what was durable. */
  function Recover(n: Node, keptGaps: set<u32>, keptFinal: bool): Node {
    n.(unsaved := map[],
       recv := Receiver.State(
         n.store.Keys,
         map s | s in n.store :: Receiver.MetaOf(n.store[s]),
         keptGaps * n.recv.gaps,
         if keptFinal then n.recv.final else None,
         []))
  }

  // ---- the step function -------------------------------------------------------

  /** One step; a step whose guard fails changes nothing. */
  ghost function Apply(s: System, step: Step): System {
    match step
    case Arm(ts, header) =>
      if s.sender.take.Idle? && Sender.Room(s.sender, 0) then
        s.(sender := Sender.Arm(s.sender, ts, header),
           log := s.log + [Sender.ChunkFor(s.sender.stream, 0, 0, 0, ts, header)])
      else s
    case Push(count, ts, payload) =>
      if s.sender.take.Streaming? && Sender.Room(s.sender, count) then
        s.(sender := Sender.PushAudio(s.sender, count, ts, payload),
           log := s.log + [Sender.ChunkFor(s.sender.stream, s.sender.nextSeq, s.sender.nextFirst, count, ts, payload)])
      else s
    case Finish => if s.sender.take.Streaming? && s.sender.nextSeq > 0 then s.(sender := Sender.Finish(s.sender)) else s
    case AddSink(id) =>
      if id in s.nodes then s.(sender := Sender.AddSink(s.sender, id), everAdded := s.everAdded + {id}) else s
    case RemoveSink(id) => s.(sender := Sender.RemoveSink(s.sender, id))
    case SetConnected(id, up) => s.(sender := Sender.SetConnected(s.sender, id, up))
    case Pop(id) =>
      var (sender, f) := Sender.PopFrame(s.sender, id);
      s.(sender := sender, toSinks := if f.Some? then s.toSinks + {(id, f.value)} else s.toSinks)
    case DeliverToSink(id, f) =>
      if id in s.nodes && (id, f) in s.toSinks then s.(nodes := s.nodes[id := Receive(s.nodes[id], f)]) else s
    case Persist(id, n) => if id in s.nodes then s.(nodes := s.nodes[id := Save(s.nodes[id], n)]) else s
    case SendAck(id) =>
      if id in s.nodes && CanAck(s.nodes[id]) then
        s.(toSender := s.toSender + {(id, AckFrame(Receiver.AckOf(s.nodes[id].recv, s.sender.stream)))})
      else s
    case RequestBackfill(id, ranges) =>
      s.(toSender := s.toSender + {(id, BackfillRequest(RangeList(s.sender.stream, ranges)))})
    case DeliverToSender(id, f) =>
      if (id, f) in s.toSender then s.(sender := Sender.HandleFrame(s.sender, id, f)) else s
    case LearnFinal(id) =>
      if id in s.nodes && s.sender.final.Some? then
        s.(nodes := s.nodes[id := s.nodes[id].(recv := Receiver.SetFinal(s.nodes[id].recv, s.sender.final.value))])
      else s
    case Crash(id, keptGaps, keptFinal) =>
      if id in s.nodes then s.(nodes := s.nodes[id := Recover(s.nodes[id], keptGaps, keptFinal)]) else s
    case SyncPush(source, target, n) =>
      if source in s.nodes && target in s.nodes && n in s.nodes[source].store then
        s.(nodes := s.nodes[target := Receive(s.nodes[target], ChunkFrame(s.nodes[source].store[n]))])
      else s
  }

  /** The sink's contract: persist before acknowledging; and the ACK must fit a frame. */
  ghost predicate CanAck(n: Node) { n.unsaved == map[] && |Receiver.Holes(n.recv)| <= MAX_ACK_HOLES }

  ghost function Execute(s: System, steps: seq<Step>): System
    decreases |steps|
  {
    if steps == [] then s else Execute(Apply(s, steps[0]), steps[1..])
  }

  lemma {:induction false} ExecuteConcat(s: System, a: seq<Step>, b: seq<Step>)
    ensures Execute(s, a + b) == Execute(Execute(s, a), b)
    decreases |a|
  {
    if a == [] {
      assert a + b == b;
    } else {
      assert (a + b)[1..] == a[1..] + b;
      ExecuteConcat(Apply(s, a[0]), a[1..], b);
    }
  }

  // ---- the invariant ---------------------------------------------------------------

  /** Chunks follow each other in the sample domain, from 0 and without overflow. */
  ghost predicate TimelineOk(log: seq<AudioChunk>, nextFirst: u64) {
    && (|log| == 0 ==> nextFirst == 0)
    && (|log| > 0 ==> log[0].firstSampleIndex == 0 && log[0].sampleCount == 0)
    && (|log| > 0 ==> log[|log| - 1].firstSampleIndex + log[|log| - 1].sampleCount == nextFirst)
    && (forall i :: 0 < i < |log| ==> log[i].firstSampleIndex == log[i - 1].firstSampleIndex + log[i - 1].sampleCount)
    && nextFirst <= |log| * U32_MAX
  }

  ghost predicate Genuine(chunks: map<u32, AudioChunk>, log: seq<AudioChunk>) {
    forall s :: s in chunks ==> s < |log| && chunks[s] == log[s]
  }

  ghost predicate GenuineMeta(meta: map<u32, Receiver.ChunkMeta>, log: seq<AudioChunk>) {
    forall s :: s in meta ==> s < |log| && meta[s] == Receiver.MetaOf(log[s])
  }

  /** A sink knows only what was produced: its chunks are the recorder's own, its gaps were declared. */
  ghost predicate NodeOk(n: Node, log: seq<AudioChunk>, gaps: set<u32>, final: Option<u32>) {
    match n
    case Node(recv, unsaved, store) =>
      && Genuine(store, log) && Genuine(unsaved, log)
      && recv.held == recv.meta.Keys == store.Keys + unsaved.Keys
      && GenuineMeta(recv.meta, log)
      && recv.gaps <= gaps
      && (recv.final.Some? ==> recv.final == final)
      && recv.flags == []
  }

  /** Frames on the way to the sender: an ACK claims only what its sink has stored, or declared gaps. */
  ghost predicate HonestReply(id: SinkId, f: Frame, nodes: map<SinkId, Node>, gaps: set<u32>) {
    || f.BackfillRequest?
    || (f.AckFrame? && id in nodes && Sender.ProvenBy(f.ack) <= nodes[id].store.Keys + gaps)
  }

  /** Whatever the sender takes for acknowledged is stored at some sink, or is a declared gap. */
  ghost predicate ProofsOk(s: System) {
    && s.sender.sinks.Keys <= s.everAdded <= s.nodes.Keys
    && (forall id :: id in s.sender.sinks ==> s.sender.sinks[id].proven <= s.nodes[id].store.Keys + s.sender.ring.gaps)
    && (forall x :: x in s.sender.ring.acked ==> x in s.sender.ring.gaps || StoredSomewhere(s, x))
  }

  ghost predicate StoredSomewhere(s: System, x: u32)
    requires s.everAdded <= s.nodes.Keys
  {
    exists id :: id in s.everAdded && x in s.nodes[id].store
  }

  ghost predicate NetOk(s: System) {
    && (forall m :: m in s.toSinks ==> HonestFrame(m.1, s.log, s.sender.ring.gaps))
    && (forall m :: m in s.toSender ==> HonestReply(m.0, m.1, s.nodes, s.sender.ring.gaps))
  }

  ghost predicate NodesOk(s: System) {
    forall id :: id in s.nodes ==> NodeOk(s.nodes[id], s.log, s.sender.ring.gaps, s.sender.final)
  }

  ghost predicate Inv(s: System) {
    match s
    case System(sender, log, _, _, _, _) =>
      && SenderOk(sender, log) && TimelineOk(log, sender.nextFirst)
      && NodesOk(s) && ProofsOk(s) && NetOk(s)
  }

  /** What every step can only add to: history, declared gaps, a final seq once known, durable stores. */
  ghost predicate Grows(a: System, b: System) {
    match a
    case System(sender, log, everAdded, nodes, _, _) =>
      && |log| <= |b.log| && b.log[..|log|] == log
      && sender.ring.gaps <= b.sender.ring.gaps
      && (sender.final.Some? ==> b.sender.final == sender.final)
      && (sender.take.Closed? ==> b.sender.take.Closed?)
      && everAdded <= b.everAdded
      && nodes.Keys == b.nodes.Keys
      && (forall id :: id in nodes ==> nodes[id].store.Keys <= b.nodes[id].store.Keys)
  }

  lemma {:induction false} StartOk(stream: StreamKey, budget: nat, ids: set<SinkId>)
    ensures Inv(Start(stream, budget, ids))
  {
    NewKeeps(stream, budget);
  }

  // ---- growth keeps what was already true ---------------------------------------------

  lemma NodeOkGrows(n: Node, a: System, b: System)
    requires NodeOk(n, a.log, a.sender.ring.gaps, a.sender.final) && Grows(a, b)
    ensures NodeOk(n, b.log, b.sender.ring.gaps, b.sender.final)
  {
    forall s | 0 <= s < |a.log| ensures b.log[s] == a.log[s] {
      assert b.log[..|a.log|][s] == b.log[s];
    }
  }

  lemma NetOkGrows(a: System, b: System)
    requires NetOk(a) && Grows(a, b)
    ensures forall m :: m in a.toSinks ==> HonestFrame(m.1, b.log, b.sender.ring.gaps)
    ensures forall m :: m in a.toSender ==> HonestReply(m.0, m.1, b.nodes, b.sender.ring.gaps)
  {
    forall s | 0 <= s < |a.log| ensures b.log[s] == a.log[s] {
      assert b.log[..|a.log|][s] == b.log[s];
    }
  }

  lemma ProofsGrow(a: System, b: System)
    requires ProofsOk(a) && Grows(a, b)
    ensures forall id :: id in a.sender.sinks ==>
        a.sender.sinks[id].proven <= b.nodes[id].store.Keys + b.sender.ring.gaps
    ensures b.everAdded <= b.nodes.Keys ==>
              forall x :: x in a.sender.ring.acked ==> x in b.sender.ring.gaps || StoredSomewhere(b, x)
  {
    if b.everAdded <= b.nodes.Keys {
      forall x | x in a.sender.ring.acked ensures x in b.sender.ring.gaps || StoredSomewhere(b, x) {
        if StoredSomewhere(a, x) {
          var id :| id in a.everAdded && x in a.nodes[id].store;
          assert id in b.everAdded && x in b.nodes[id].store;
        }
      }
    }
  }
}
