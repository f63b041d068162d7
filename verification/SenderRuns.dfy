/** The sender over whole runs: what it pops first, what it takes for acknowledged, and what it declares lost. */
module SenderRuns {
  import opened Machine
  import opened Sets
  import opened Ranges
  import opened Frames
  import Crc32c
  import Ring
  import Sender
  import opened SenderFacts
  import opened SenderMoves
  import opened Protocol
  import opened ProtocolSteps
  import opened Guarantees

  // ---- transmit order -----------------------------------------------------------------------------

  /**
   * In every run: a chunk is popped only when no control frame waits; it is the recorder's own, resident and not
   * proven held; one from the backlog only when no live chunk is owed, and one from the live queue before every
   * younger live chunk that is owed.
   */
  lemma LiveOutranksBacklog(
    stream: StreamKey, budget: nat, ids: set<SinkId>, steps: seq<Step>, id: SinkId, c: AudioChunk)
    requires id in After(stream, budget, ids, steps).sender.sinks
    requires Sender.PopFrame(After(stream, budget, ids, steps).sender, id).1 == Some(ChunkFrame(c))
    ensures var s := After(stream, budget, ids, steps);
            var tx, ring := s.sender.sinks[id], s.sender.ring;
            && (id, ChunkFrame(c)) in Apply(s, Pop(id)).toSinks
            && tx.connected && tx.control == []
            && c.seqNo < |s.log| && c == s.log[c.seqNo] && Owed(tx, ring, c.seqNo)
            && (c.seqNo in tx.live || c.seqNo in tx.backfill)
            && (forall x :: x in tx.live && Owed(tx, ring, x) ==> c.seqNo in tx.live && c.seqNo <= x)
  {
    hide Inv, Partition, LogOk, QueuesOk, LogOk, Sender.PopTx, After, Owed;
    var s := After(stream, budget, ids, steps);
    AfterOk(stream, budget, ids, steps);
    SinkBooks(s, id);
    PoppedFirst(s.sender.sinks[id], s.sender.ring, s.log, s.sender.nextSeq, c);
  }

  lemma SinkBooks(s: System, id: SinkId)
    requires Inv(s) && id in s.sender.sinks
    ensures |s.log| <= U32_MAX && Partition(s.sender.ring, s.log) && LogOk(s.log)
    ensures QueuesOk(s.sender.sinks[id], s.sender.nextSeq)
    ensures s.sender.sinks[id].control != [] ==> !s.sender.sinks[id].control[0].ChunkFrame?
  {
    var tx := s.sender.sinks[id];
    assert TxOk(tx, s.sender.nextSeq, s.sender.ring.gaps);
    if tx.control != [] { assert tx.control[0] in tx.control; }
  }

  lemma PoppedFirst(tx: Sender.Tx, ring: Ring.State, log: seq<AudioChunk>, nextSeq: u32, c: AudioChunk)
    requires |log| <= U32_MAX && Partition(ring, log) && LogOk(log) && QueuesOk(tx, nextSeq)
    requires Sender.PopTx(tx, ring).1 == Some(ChunkFrame(c))
    requires tx.control != [] ==> !tx.control[0].ChunkFrame?
    ensures tx.connected && tx.control == []
    ensures c.seqNo < |log| && c == log[c.seqNo] && Owed(tx, ring, c.seqNo)
    ensures c.seqNo in tx.live || c.seqNo in tx.backfill
    ensures forall x :: x in tx.live && Owed(tx, ring, x) ==> c.seqNo in tx.live && c.seqNo <= x
  {
    PopOrder(tx, ring);
    assert forall x :: x in ring.chunks ==> x in Below(|log|);
    FirstOrNone(tx.live, tx, ring);
    FirstOrNone(tx.backfill, tx, ring);
    if i: nat :| FirstOwed(tx.live, i, tx, ring) {
      assert tx.live[i] in tx.live;
      forall x | x in tx.live && Owed(tx, ring, x) ensures tx.live[i] <= x {
        var k :| 0 <= k < |tx.live| && tx.live[k] == x;
      }
    } else if i: nat :| FirstOwed(tx.backfill, i, tx, ring) {
      assert tx.backfill[i] in tx.backfill;
    }
  }

  // ---- what counts as acknowledged ------------------------------------------------------------------

  /** What a step proves to the sender: the possession a handled ACK of a registered sink claims. */
  ghost function Heard(s: System, step: Step): set<u32> {
    match step
    case DeliverToSender(id, AckFrame(ack)) =>
      if (id, AckFrame(ack)) in s.toSender && ack.stream == s.sender.stream && id in s.sender.sinks
      then Sender.ProvenBy(ack) else {}
    case _ => {}
  }

  ghost function HeardOver(s: System, steps: seq<Step>): set<u32>
    decreases |steps|
  {
    if steps == [] then {} else Heard(s, steps[0]) + HeardOver(Apply(s, steps[0]), steps[1..])
  }

  lemma ProduceAcks(s: Sender.State, log: seq<AudioChunk>, c: AudioChunk)
    requires BooksOk(s, log) && |log| < U32_MAX && c.seqNo == |log|
    ensures Sender.Produce(s, c).ring.acked == s.ring.acked
  {
    InsertKeepsPartition(s.ring, log, c);
    ProduceShape(s, c);
  }

  lemma HandledAcks(s: System, id: SinkId, f: Frame)
    requires (id, f) in s.toSender
    ensures Sender.HandleFrame(s.sender, id, f).ring.acked == s.sender.ring.acked + Heard(s, DeliverToSender(id, f))
  {
    hide Sender.ProvenBy, Sender.AckTx, Sender.BackfillTx, Sender.DrainedAll;
    assert s.sender.ring.acked + {} == s.sender.ring.acked;
  }

  /** Managing sinks, popping and finishing leave the ring alone. */
  lemma SameRing(s: Sender.State, id: SinkId, up: bool)
    ensures Sender.AddSink(s, id).ring == s.ring && Sender.RemoveSink(s, id).ring == s.ring
    ensures Sender.SetConnected(s, id, up).ring == s.ring && Sender.PopFrame(s, id).0.ring == s.ring
    ensures s.nextSeq > 0 ==> Sender.Finish(s).ring == s.ring
  {
    hide Sender.PopTx, Sender.NewTx, Sender.Connected, Sender.DrainedAll;
  }

  lemma ArmAcks(s: System, ts: u64, header: seq<byte>)
    requires BooksOk(s.sender, s.log) && s.sender.take.Idle? && Sender.Room(s.sender, 0) && s.log == []
    ensures Sender.Arm(s.sender, ts, header).ring.acked == s.sender.ring.acked
  {
    hide Sender.Produce;
    ProduceAcks(s.sender, s.log, Sender.ChunkFor(s.sender.stream, 0, 0, 0, ts, header));
  }

  lemma PushAcks(s: System, count: u32, ts: u64, payload: seq<byte>)
    requires BooksOk(s.sender, s.log) && s.sender.take.Streaming? && Sender.Room(s.sender, count)
    ensures Sender.PushAudio(s.sender, count, ts, payload).ring.acked == s.sender.ring.acked
  {
    hide Sender.Produce, BooksOk;
    PushedBooks(s.sender, s.log, s.sender.nextFirst + count);
    ProduceAcks(s.sender.(nextFirst := s.sender.nextFirst + count), s.log,
        Sender.ChunkFor(s.sender.stream, s.sender.nextSeq, s.sender.nextFirst, count, ts, payload));
  }

  lemma PushedBooks(s: Sender.State, log: seq<AudioChunk>, next: u64)
    requires BooksOk(s, log)
    ensures BooksOk(s.(nextFirst := next), log) && s.nextSeq == |log|
  {
  }

  lemma OwnStepAcks(s: System, step: Step)
    requires Inv(s) && (step.Arm? || step.Push? || step.Finish?)
    ensures Apply(s, step).sender.ring.acked == s.sender.ring.acked
  {
    IdleIsEmpty(s);
    hide Inv, BooksOk, Sender.Arm, Sender.PushAudio, Sender.Finish;
    match step
    case Arm(ts, header) =>
      if s.sender.take.Idle? && Sender.Room(s.sender, 0) { ArmAcks(s, ts, header); }
    case Push(count, ts, payload) =>
      if s.sender.take.Streaming? && Sender.Room(s.sender, count) { PushAcks(s, count, ts, payload); }
    case Finish => SameRing(s.sender, 0, true);
  }

  lemma SinkStepAcks(s: System, step: Step)
    requires step.AddSink? || step.RemoveSink? || step.SetConnected? || step.Pop?
    ensures Apply(s, step).sender.ring == s.sender.ring
  {
    hide Sender.AddSink, Sender.RemoveSink, Sender.SetConnected, Sender.PopFrame;
    match step
    case SetConnected(id, up) => SameRing(s.sender, id, up);
    case AddSink(id) => SameRing(s.sender, id, true);
    case RemoveSink(id) => SameRing(s.sender, id, true);
    case Pop(id) => SameRing(s.sender, id, true);
  }

  lemma NodeStepAcks(s: System, step: Step)
    requires !step.Arm? && !step.Push? && !step.Finish? && !step.DeliverToSender?
    requires !step.AddSink? && !step.RemoveSink? && !step.SetConnected? && !step.Pop?
    ensures Apply(s, step).sender == s.sender
  {
    hide Receive, Save, Recover, CanAck;
  }

  lemma ReplyStepAcks(s: System, id: SinkId, f: Frame)
    ensures var step := DeliverToSender(id, f);
            Apply(s, step).sender.ring.acked == s.sender.ring.acked + Heard(s, step)
  {
    hide Sender.HandleFrame, Sender.ProvenBy;
    assert s.sender.ring.acked + {} == s.sender.ring.acked;
    if (id, f) in s.toSender { HandledAcks(s, id, f); }
  }

  lemma StepAcks(s: System, step: Step)
    requires Inv(s)
    ensures Apply(s, step).sender.ring.acked == s.sender.ring.acked + Heard(s, step)
  {
    hide Inv, Apply, Sender.ProvenBy;
    assert s.sender.ring.acked + {} == s.sender.ring.acked;
    if step.DeliverToSender? {
      ReplyStepAcks(s, step.id, step.frame);
    } else if step.Arm? || step.Push? || step.Finish? {
      OwnStepAcks(s, step);
    } else if step.AddSink? || step.RemoveSink? || step.SetConnected? || step.Pop? {
      SinkStepAcks(s, step);
    } else {
      NodeStepAcks(s, step);
    }
  }

  lemma IdleIsEmpty(s: System)
    requires Inv(s)
    ensures BooksOk(s.sender, s.log) && (s.sender.take.Idle? ==> s.log == [])
  {
  }

  lemma {:induction false} RunAcks(s: System, steps: seq<Step>)
    requires Inv(s)
    ensures Execute(s, steps).sender.ring.acked == s.sender.ring.acked + HeardOver(s, steps)
    decreases |steps|
  {
    hide Inv, Grows, Apply, Heard;
    if steps != [] {
      StepAcks(s, steps[0]);
      StepKeeps(s, steps[0]);
      RunAcks(Apply(s, steps[0]), steps[1..]);
    }
  }

  /** In every run the acknowledged seqs are exactly those that handled ACKs of registered sinks have proven. */
  lemma AckedIsWhatWasProven(stream: StreamKey, budget: nat, ids: set<SinkId>, steps: seq<Step>)
    ensures After(stream, budget, ids, steps).sender.ring.acked == HeardOver(Start(stream, budget, ids), steps)
  {
    AfterOk(stream, budget, ids, []);
    RunAcks(Start(stream, budget, ids), steps);
  }

  // ---- what is declared lost ----------------------------------------------------------------------------

  /** What one insert moves, seen from the acknowledged seqs. */
  lemma InsertSpares(r: Ring.State, log: seq<AudioChunk>, c: AudioChunk)
    requires |log| < U32_MAX && Partition(r, log) && c.seqNo == |log|
    ensures var out := Ring.Insert(r, c);
            && out.gaps - r.gaps !! r.acked && out.evictedAcked - r.evictedAcked <= r.acked
            && (out.gaps != r.gaps ==> forall x :: x in out.chunks && x in r.acked ==> x == 0 || x == c.seqNo)
  {
    assert |log| !in Below(|log|);
    Ring.InsertFacts(r, c);
    GrownFacts(r, log, c);
    PolicySpares(r.(used := r.used + Ring.ChunkCost(c), chunks := r.chunks[c.seqNo := c]), Ring.Insert(r, c), c.seqNo);
    InsertKeepsPartition(r, log, c);
  }

  lemma PolicySpares(r: Ring.State, out: Ring.State, newest: u32)
    requires Ring.EvictionPolicy(r, out) && Ring.IsNewest(r.chunks, newest) && r.gaps <= out.gaps
    ensures out.gaps - r.gaps !! r.acked && out.evictedAcked - r.evictedAcked <= r.acked
    ensures out.gaps != r.gaps ==> forall x :: x in out.chunks && x in r.acked ==> x == 0 || x == newest
  {
    var recoverable, lost := out.evictedAcked - r.evictedAcked, out.gaps - r.gaps;
    if lost != {} {
      forall x | x in out.chunks && x in r.acked ensures x == 0 || x == newest {
        assert x !in Ring.Evictable(r.chunks) * r.acked;
      }
    }
  }

  /** What a step leaves of the gaps, the acknowledged and the evicted. */
  ghost predicate Spared(s: System, t: System) {
    && t.sender.ring.gaps - s.sender.ring.gaps !! s.sender.ring.acked
    && t.sender.ring.evictedAcked - s.sender.ring.evictedAcked <= s.sender.ring.acked
    && (t.sender.ring.gaps != s.sender.ring.gaps ==> forall x ::
          x in t.sender.ring.chunks && x in s.sender.ring.acked ==> x == 0 || x == |t.log| - 1)
  }

  lemma ProduceSpares(s: System, t: System, base: Sender.State, c: AudioChunk)
    requires BooksOk(base, s.log) && |s.log| < U32_MAX && c.seqNo == |s.log| && base.ring == s.sender.ring
    requires t.sender.ring == Sender.Produce(base, c).ring && t.log == s.log + [c]
    ensures Spared(s, t)
  {
    InsertSpares(base.ring, s.log, c);
    ProduceShape(base, c);
  }

  lemma ArmSpares(s: System, ts: u64, header: seq<byte>)
    requires BooksOk(s.sender, s.log) && s.sender.take.Idle? && Sender.Room(s.sender, 0) && s.log == []
    ensures Spared(s, Apply(s, Step.Arm(ts, header)))
  {
    hide BooksOk, Sender.Produce, Spared;
    var c := Sender.ChunkFor(s.sender.stream, 0, 0, 0, ts, header);
    ProduceSpares(s, Apply(s, Step.Arm(ts, header)), s.sender, c);
  }

  lemma PushSpares(s: System, count: u32, ts: u64, payload: seq<byte>)
    requires BooksOk(s.sender, s.log) && s.sender.take.Streaming? && Sender.Room(s.sender, count)
    ensures Spared(s, Apply(s, Step.Push(count, ts, payload)))
  {
    hide BooksOk, Sender.Produce, Spared;
    PushedBooks(s.sender, s.log, s.sender.nextFirst + count);
    var base := s.sender.(nextFirst := s.sender.nextFirst + count);
    var c := Sender.ChunkFor(s.sender.stream, s.sender.nextSeq, s.sender.nextFirst, count, ts, payload);
    ProduceSpares(s, Apply(s, Step.Push(count, ts, payload)), base, c);
  }

  lemma OwnStepSpares(s: System, step: Step)
    requires Inv(s) && (step.Arm? || step.Push?)
    ensures Spared(s, Apply(s, step))
  {
    IdleIsEmpty(s);
    hide Inv, BooksOk, Sender.Arm, Sender.PushAudio;
    if step.Arm? && s.sender.take.Idle? && Sender.Room(s.sender, 0) {
      ArmSpares(s, step.clockEpochUs, step.header);
    } else if step.Push? && s.sender.take.Streaming? && Sender.Room(s.sender, step.count) {
      PushSpares(s, step.count, step.ts, step.payload);
    }
  }

  /** No other step evicts anything. */
  lemma OtherStepSpares(s: System, step: Step)
    requires Inv(s) && !step.Arm? && !step.Push?
    ensures var r, t := s.sender.ring, Apply(s, step).sender.ring;
            t.gaps == r.gaps && t.evictedAcked == r.evictedAcked && t.chunks == r.chunks
  {
    hide Inv;
    if step.DeliverToSender? {
      FrameSpares(s.sender, step.id, step.frame);
    } else if step.Finish? {
      SameRing(s.sender, 0, true);
    } else if step.AddSink? || step.RemoveSink? || step.SetConnected? || step.Pop? {
      SinkStepAcks(s, step);
    } else {
      NodeStepAcks(s, step);
    }
  }

  lemma FrameSpares(s: Sender.State, id: SinkId, f: Frame)
    ensures var t := Sender.HandleFrame(s, id, f).ring;
            t.gaps == s.ring.gaps && t.evictedAcked == s.ring.evictedAcked && t.chunks == s.ring.chunks
  {
    hide Sender.ProvenBy, Sender.AckTx, Sender.BackfillTx, Sender.DrainedAll;
  }

  /**
   * Whatever the run and the step: a chunk is evicted as recoverable only if a handled ACK had proven it; one is
   * declared lost only if none had, and then no proven chunk is left in the ring but seq 0 and the newest.
   */
  lemma OnlyUnprovenIsLost(stream: StreamKey, budget: nat, ids: set<SinkId>, steps: seq<Step>, step: Step)
    ensures var s := After(stream, budget, ids, steps);
            var heard := HeardOver(Start(stream, budget, ids), steps);
            var r, t := s.sender.ring, Apply(s, step).sender.ring;
            && t.evictedAcked - r.evictedAcked <= heard
            && t.gaps - r.gaps !! heard
            && (t.gaps != r.gaps ==>
                  forall x :: x in t.chunks && x in heard ==> x == 0 || x == |Apply(s, step).log| - 1)
  {
    var s := After(stream, budget, ids, steps);
    AfterOk(stream, budget, ids, steps);
    AckedIsWhatWasProven(stream, budget, ids, steps);
    hide Inv, Apply, HeardOver, After;
    if step.Arm? || step.Push? {
      OwnStepSpares(s, step);
    } else {
      OtherStepSpares(s, step);
    }
  }

  // ---- telling the sinks ------------------------------------------------------------------------------------

  lemma ProduceTells(s: System, t: System, base: Sender.State, c: AudioChunk, id: SinkId)
    requires BooksOk(base, s.log) && |s.log| < U32_MAX && c.seqNo == |s.log|
    requires Crc32c.Checksum(c.payload) == c.crc32c && base.stream == s.sender.stream
    requires base.sinks == s.sender.sinks && base.ring == s.sender.ring && id in base.sinks
    requires t.sender.sinks == Sender.Produce(base, c).sinks && t.sender.ring == Sender.Produce(base, c).ring
    ensures Told(s, t, id, c.seqNo)
  {
    hide BooksOk, Sender.Produce, ReportedBehind;
    ProducedEverywhere(base, s.log, c, id);
  }

  /** The sink is owed the new chunk live, and reports of all that was just declared lost. */
  ghost predicate Told(s: System, t: System, id: SinkId, seqNo: u32) {
    && id in s.sender.sinks && id in t.sender.sinks
    && t.sender.sinks[id].live == s.sender.sinks[id].live + [seqNo]
    && ReportedBehind(s.sender.stream, s.sender.sinks[id], t.sender.sinks[id], t.sender.ring.gaps - s.sender.ring.gaps)
  }

  /** In every run, whenever a chunk is produced, every registered sink gets it live and is told of what it cost. */
  lemma EverySinkIsTold(
    stream: StreamKey, budget: nat, ids: set<SinkId>, steps: seq<Step>, step: Step, id: SinkId)
    requires var s := After(stream, budget, ids, steps);
             |Apply(s, step).log| > |s.log| && id in s.sender.sinks
    ensures var s := After(stream, budget, ids, steps);
            |Apply(s, step).log| == |s.log| + 1 && |s.log| < U32_MAX && Told(s, Apply(s, step), id, |s.log|)
  {
    var s := After(stream, budget, ids, steps);
    AfterOk(stream, budget, ids, steps);
    TellsNow(s, step, id);
  }

  /** Only the recorder's own calls add to the log. */
  lemma WhoProduces(s: System, step: Step)
    requires |Apply(s, step).log| > |s.log|
    ensures step.Arm? || step.Push?
    ensures step.Arm? ==> s.sender.take.Idle? && Sender.Room(s.sender, 0)
    ensures step.Push? ==> s.sender.take.Streaming? && Sender.Room(s.sender, step.count)
  {
    hide Receive, Save, Recover, CanAck, Sender.Arm, Sender.PushAudio, Sender.Finish, Sender.PopFrame;
  }

  lemma ArmTells(s: System, ts: u64, header: seq<byte>, id: SinkId)
    requires BooksOk(s.sender, s.log) && s.sender.take.Idle? && Sender.Room(s.sender, 0) && s.log == []
    requires id in s.sender.sinks
    ensures var t := Apply(s, Step.Arm(ts, header)); |t.log| == 1 && Told(s, t, id, 0)
  {
    hide BooksOk, Sender.Produce, Told;
    var c := Sender.ChunkFor(s.sender.stream, 0, 0, 0, ts, header);
    ProduceTells(s, Apply(s, Step.Arm(ts, header)), s.sender, c, id);
  }

  lemma PushTells(s: System, count: u32, ts: u64, payload: seq<byte>, id: SinkId)
    requires BooksOk(s.sender, s.log) && s.sender.take.Streaming? && Sender.Room(s.sender, count)
    requires id in s.sender.sinks
    ensures var t := Apply(s, Step.Push(count, ts, payload));
            |s.log| < U32_MAX && |t.log| == |s.log| + 1 && Told(s, t, id, |s.log|)
  {
    hide BooksOk, Sender.Produce, Told;
    PushedBooks(s.sender, s.log, s.sender.nextFirst + count);
    var base := s.sender.(nextFirst := s.sender.nextFirst + count);
    var c := Sender.ChunkFor(s.sender.stream, s.sender.nextSeq, s.sender.nextFirst, count, ts, payload);
    ProduceTells(s, Apply(s, Step.Push(count, ts, payload)), base, c, id);
  }

  lemma TellsNow(s: System, step: Step, id: SinkId)
    requires Inv(s) && |Apply(s, step).log| > |s.log| && id in s.sender.sinks
    ensures |Apply(s, step).log| == |s.log| + 1 && |s.log| < U32_MAX && Told(s, Apply(s, step), id, |s.log|)
  {
    IdleIsEmpty(s);
    WhoProduces(s, step);
    hide Inv, BooksOk, Told, Apply;
    if step.Arm? {
      ArmTells(s, step.clockEpochUs, step.header, id);
    } else {
      PushTells(s, step.count, step.ts, step.payload, id);
    }
  }
}
