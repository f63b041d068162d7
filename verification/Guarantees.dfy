/** Whole-run guarantees of the protocol: for every run from the start, whatever the network and the sinks do. */
module Guarantees {
  import opened Machine
  import opened Sets
  import opened Frames
  import Sender
  import opened SenderFacts
  import opened Protocol
  import opened ProtocolSteps

  /** The system after a run. */
  ghost function After(stream: StreamKey, budget: nat, ids: set<SinkId>, steps: seq<Step>): System {
    Execute(Start(stream, budget, ids), steps)
  }

  lemma AfterOk(stream: StreamKey, budget: nat, ids: set<SinkId>, steps: seq<Step>)
    ensures Inv(After(stream, budget, ids, steps))
  {
    StartOk(stream, budget, ids);
    RunKeeps(Start(stream, budget, ids), steps);
  }

  /**
   * Conservation of audio: the produced seqs are exactly the disjoint union of the resident, the evicted after
   * an ACK, and the declared gaps; and whatever was evicted after an ACK is durably stored, byte for byte, at
   * some sink.
   */
  lemma ConservationOfAudio(stream: StreamKey, budget: nat, ids: set<SinkId>, steps: seq<Step>)
    ensures var s := After(stream, budget, ids, steps);
            var ring := s.sender.ring;
            && s.sender.produced == Below(|s.log|) == ring.chunks.Keys + ring.evictedAcked + ring.gaps
            && ring.chunks.Keys !! ring.evictedAcked && ring.chunks.Keys !! ring.gaps && ring.evictedAcked !! ring.gaps
            && (forall x :: x in ring.chunks ==> ring.chunks[x] == s.log[x])
            && (forall x :: x in ring.evictedAcked ==> exists id ::
                id in s.nodes && x in s.nodes[id].store && s.nodes[id].store[x] == s.log[x])
  {
    AfterOk(stream, budget, ids, steps);
    var s := After(stream, budget, ids, steps);
    forall x | x in s.sender.ring.evictedAcked
      ensures exists id :: id in s.nodes && x in s.nodes[id].store && s.nodes[id].store[x] == s.log[x]
    {
      assert StoredSomewhere(s, x);
      var id :| id in s.everAdded && x in s.nodes[id].store;
      assert id in s.nodes && NodeOk(s.nodes[id], s.log, s.sender.ring.gaps, s.sender.final);
    }
  }

  /** Every sink the sender counts on durably holds the whole take except declared gaps. */
  ghost predicate AllStored(s: System, sinks: set<SinkId>) {
    && s.sender.final.Some? && s.sender.final.value == |s.log| - 1
    && sinks <= s.nodes.Keys
    && forall id, x :: id in sinks && x in Below(s.sender.final.value + 1) ==>
         x in s.sender.ring.gaps || (x in s.nodes[id].store && s.nodes[id].store[x] == s.log[x])
  }

  lemma DrainedMeansStored(s: System)
    requires Inv(s) && Sender.DrainedAll(s.sender) && s.sender.final == Some(s.sender.nextSeq - 1)
    ensures AllStored(s, s.sender.sinks.Keys)
  {
    forall id, x | id in s.sender.sinks && x in Below(s.sender.final.value + 1)
      ensures x in s.sender.ring.gaps || (x in s.nodes[id].store && s.nodes[id].store[x] == s.log[x])
    {
      assert Sender.SinkSettled(s.sender, id);
      assert x in s.sender.sinks[id].proven + s.sender.ring.gaps;
      assert id in s.nodes && NodeOk(s.nodes[id], s.log, s.sender.ring.gaps, s.sender.final);
    }
  }

  lemma StoredStays(s: System, t: System, sinks: set<SinkId>)
    requires NodesOk(t) && LifecycleOk(t.sender) && t.sender.nextSeq == |t.log|
    requires Grows(s, t) && AllStored(s, sinks) && s.sender.take.Closed?
    ensures AllStored(t, sinks)
  {
    forall id, x | id in sinks && x in Below(t.sender.final.value + 1)
      ensures x in t.sender.ring.gaps || (x in t.nodes[id].store && t.nodes[id].store[x] == t.log[x])
    {
      assert id in s.nodes && x in Below(s.sender.final.value + 1);
      StillStored(t.nodes[id], t.log, t.sender.ring.gaps, t.sender.final, s.nodes[id].store.Keys, s.sender.ring.gaps,
          x);
    }
  }

  lemma StillStored(n: Node, log: seq<AudioChunk>, gaps: set<u32>, final: Option<u32>, stored: set<u32>,
      lost: set<u32>, x: u32)
    requires NodeOk(n, log, gaps, final) && stored <= n.store.Keys && lost <= gaps
    requires x in stored || x in lost
    ensures x in gaps || (x in n.store && n.store[x] == log[x])
  {
  }

  /** A step closes the take only when every registered sink is proven settled. */
  lemma ClosingIsDrained(s: System, step: Step)
    requires !s.sender.take.Closed? && Apply(s, step).sender.take.Closed?
    ensures Sender.DrainedAll(Apply(s, step).sender)
  {
    match step
    case DeliverToSender(id, f) =>
      if f.AckFrame? { AckClosing(s.sender, id, f.ack); }
      assert f.AckFrame?;
    case Finish =>
    case _ =>
      assert false;
  }

  lemma AckClosing(s: Sender.State, id: SinkId, ack: AckStatus)
    requires !s.take.Closed?
    ensures Sender.HandleAck(s, id, ack).take.Closed? ==> Sender.DrainedAll(Sender.HandleAck(s, id, ack))
  {
  }

  /**
   * Honest closing: at the step that closes the take, every registered sink durably holds every seq of
   * 0..=final except declared gaps, with the recorder's own bytes; and those stores hold it ever after.
   */
  lemma HonestClosing(stream: StreamKey, budget: nat, ids: set<SinkId>, before: seq<Step>, step: Step, after: seq<Step>)
    requires !After(stream, budget, ids, before).sender.take.Closed?
    requires After(stream, budget, ids, before + [step]).sender.take.Closed?
    ensures var closed := After(stream, budget, ids, before + [step]);
            var later := After(stream, budget, ids, before + [step] + after);
            && closed.sender.sinks != map[]
            && AllStored(closed, closed.sender.sinks.Keys)
            && later.sender.take.Closed? && AllStored(later, closed.sender.sinks.Keys)
  {
    var start := Start(stream, budget, ids);
    AfterOk(stream, budget, ids, before);
    var s := After(stream, budget, ids, before);
    ExecuteConcat(start, before, [step]);
    assert Execute(s, [step]) == Apply(s, step);
    StepKeeps(s, step);
    ClosingIsDrained(s, step);
    DrainedMeansStored(Apply(s, step));
    ExecuteConcat(start, before + [step], after);
    RunKeeps(Apply(s, step), after);
    StoredStays(Apply(s, step), Execute(Apply(s, step), after), Apply(s, step).sender.sinks.Keys);
  }

  /** Transmit order over whole runs: fresh audio outranks backlog, and nothing is queued twice. */
  lemma TransmitQueues(stream: StreamKey, budget: nat, ids: set<SinkId>, steps: seq<Step>, id: SinkId)
    requires id in After(stream, budget, ids, steps).sender.sinks
    ensures var s := After(stream, budget, ids, steps).sender;
            var tx := s.sinks[id];
            && QueuesOk(tx, s.nextSeq)
            && (forall old_, new_ :: old_ in tx.backfill && new_ in tx.live ==> old_ < new_)
            && (tx.live != [] ==> tx.live[|tx.live| - 1] == s.nextSeq - 1)
  {
    AfterOk(stream, budget, ids, steps);
    var s := After(stream, budget, ids, steps).sender;
    assert TxOk(s.sinks[id], s.nextSeq, s.ring.gaps);
  }

  /** Every ACK in flight, however stale, claims only what its sink has durably stored, or declared gaps. */
  lemma AcksAreDurable(stream: StreamKey, budget: nat, ids: set<SinkId>, steps: seq<Step>, id: SinkId, ack: AckStatus)
    requires (id, AckFrame(ack)) in After(stream, budget, ids, steps).toSender
    ensures var s := After(stream, budget, ids, steps);
            id in s.nodes && Sender.ProvenBy(ack) <= s.nodes[id].store.Keys + s.sender.ring.gaps
  {
    AfterOk(stream, budget, ids, steps);
    var s := After(stream, budget, ids, steps);
    assert HonestReply(id, AckFrame(ack), s.nodes, s.sender.ring.gaps);
  }

  /** A recorder's own chunks never raise a flag at any sink, and its sample index never overflows. */
  lemma NoFalseAlarm(stream: StreamKey, budget: nat, ids: set<SinkId>, steps: seq<Step>)
    ensures var s := After(stream, budget, ids, steps);
            && (forall id :: id in s.nodes ==> s.nodes[id].recv.flags == [])
            && (forall count: u32 :: s.sender.nextSeq < U32_MAX ==> Sender.Room(s.sender, count))
  {
    AfterOk(stream, budget, ids, steps);
    var s := After(stream, budget, ids, steps);
    forall id | id in s.nodes ensures s.nodes[id].recv.flags == [] {
      assert NodeOk(s.nodes[id], s.log, s.sender.ring.gaps, s.sender.final);
    }
  }
}
