/** One lossless round with a sink settles it: ACK in, queues popped dry, everything delivered, ACK in again. */
module Convergence {
  import opened Machine
  import opened Sets
  import opened Ranges
  import opened Frames
  import Ring
  import Receiver
  import Sender
  import opened SenderFacts
  import opened AckReading
  import opened Protocol
  import opened ProtocolSteps
  import opened Guarantees

  // ---- popping a sink's queues dry ------------------------------------------------

  /** Pop until nothing is owed: the sink's final record and the frames, in order. */
  function PopAll(tx: Sender.Tx, ring: Ring.State): (r: (Sender.Tx, seq<Frame>))
    ensures r.0.connected == tx.connected
    decreases |tx.control| + |tx.live| + |tx.backfill|
  {
    var (next, f) := Sender.PopTx(tx, ring);
    if f.None? then (next, [])
    else
      var (last, rest) := PopAll(next, ring);
      (last, [f.value] + rest)
  }

  /** Everything owed comes out: every control frame, and every queued resident chunk the sink is not known to hold. */
  lemma {:induction false} PopAllDelivers(tx: Sender.Tx, ring: Ring.State, log: seq<AudioChunk>, nextSeq: u32)
    requires |log| <= U32_MAX && Partition(ring, log) && LogOk(log) && TxOk(tx, nextSeq, ring.gaps) && tx.connected
    ensures var (last, frames) := PopAll(tx, ring);
            && (forall f :: f in tx.control ==> f in frames)
            && (forall x :: x in tx.queued && x in ring.chunks && x !in tx.proven ==>
                ChunkFrame(ring.chunks[x]) in frames)
            && (forall f :: f in frames ==> HonestFrame(f, log, ring.gaps))
            && Sender.PopTx(last, ring) == (last, None)
            && last.proven == tx.proven
    decreases |tx.control| + |tx.live| + |tx.backfill|
  {
    var (next, f) := Sender.PopTx(tx, ring);
    PopTxKeeps(tx, ring, log, nextSeq);
    if tx.control != [] {
      PopAllDelivers(next, ring, log, nextSeq);
      assert tx.control == [tx.control[0]] + next.control;
    } else {
      PopChunkDelivers(tx, ring, nextSeq);
      if f.Some? { PopAllDelivers(next, ring, log, nextSeq); }
    }
  }

  /** One pop loses nothing: what was owed is popped or still queued. */
  lemma {:induction false} PopChunkDelivers(tx: Sender.Tx, ring: Ring.State, nextSeq: u32)
    requires QueuesOk(tx, nextSeq)
    ensures var (next, c) := Sender.PopChunk(tx, ring);
            && (forall x :: x in tx.queued && x in ring.chunks && x !in tx.proven ==>
                 x in next.queued || (c.Some? && c.value == ring.chunks[x]))
            && (c.None? ==> next.queued == {} && next.live == [] && next.backfill == [])
            && next.proven == tx.proven
    decreases |tx.live| + |tx.backfill|
  {
    if tx.live != [] || tx.backfill != [] {
      var s := if tx.live != [] then tx.live[0] else tx.backfill[0];
      var rest := if tx.live != [] then tx.(live := tx.live[1..]) else tx.(backfill := tx.backfill[1..]);
      PopOneKeeps(tx, nextSeq);
      if s in tx.proven || s !in ring.chunks { PopChunkDelivers(rest.(queued := tx.queued - {s}), ring, nextSeq); }
    }
  }

  // ---- the round as steps -------------------------------------------------------------

  function Repeat(step: Step, k: nat): (steps: seq<Step>)
    ensures |steps| == k
  {
    if k == 0 then [] else [step] + Repeat(step, k - 1)
  }

  function DeliveriesOf(id: SinkId, frames: seq<Frame>): (steps: seq<Step>)
    ensures |steps| == |frames|
    decreases |frames|
  {
    if frames == [] then [] else [DeliverToSink(id, frames[0])] + DeliveriesOf(id, frames[1..])
  }

  function PersistsOf(id: SinkId, seqs: seq<u32>): (steps: seq<Step>)
    ensures |steps| == |seqs|
    decreases |seqs|
  {
    if seqs == [] then [] else [Persist(id, seqs[0])] + PersistsOf(id, seqs[1..])
  }

  function Sent(id: SinkId, frames: seq<Frame>): set<(SinkId, Frame)> { set f | f in frames :: (id, f) }

  function Length(tx: Sender.Tx): nat { |tx.control| + |tx.live| + |tx.backfill| }

  /** Popping dry, as steps: one Pop per frame and a last one that finds nothing. */
  lemma {:induction false} PopsDrain(s: System, id: SinkId)
    requires id in s.sender.sinks && s.sender.sinks[id].connected
    ensures var (last, frames) := PopAll(s.sender.sinks[id], s.sender.ring);
            Execute(s, Repeat(Pop(id), |frames| + 1))
            == s.(sender := s.sender.(sinks := s.sender.sinks[id := last]), toSinks := s.toSinks + Sent(id, frames))
    decreases Length(s.sender.sinks[id])
  {
    hide Apply, Sender.PopTx;
    var tx := s.sender.sinks[id];
    var (next, f) := Sender.PopTx(tx, s.sender.ring);
    var (last, frames) := PopAll(tx, s.sender.ring);
    var t := Apply(s, Pop(id));
    PopOnce(s, id);
    assert Repeat(Pop(id), |frames| + 1)[0] == Pop(id);
    assert Repeat(Pop(id), |frames| + 1)[1..] == Repeat(Pop(id), |frames|);
    if f.None? {
      assert Sent(id, frames) == {};
      assert Execute(t, []) == t;
    } else {
      PopsDrain(t, id);
      assert frames == [f.value] + PopAll(next, s.sender.ring).1;
      assert Sent(id, frames) == {(id, f.value)} + Sent(id, PopAll(next, s.sender.ring).1);
      assert s.sender.sinks[id := next][id := last] == s.sender.sinks[id := last];
    }
  }

  lemma PopOnce(s: System, id: SinkId)
    requires id in s.sender.sinks && s.sender.sinks[id].connected
    ensures var (next, f) := Sender.PopTx(s.sender.sinks[id], s.sender.ring);
            && Apply(s, Pop(id)) == s.(sender := s.sender.(sinks := s.sender.sinks[id := next]),
                 toSinks := if f.Some? then s.toSinks + {(id, f.value)} else s.toSinks)
            && next.connected && (f.Some? ==> Length(next) < Length(s.sender.sinks[id]))
  {
  }

  ghost function ReceiveAll(n: Node, frames: seq<Frame>): Node
    decreases |frames|
  {
    if frames == [] then n else ReceiveAll(Receive(n, frames[0]), frames[1..])
  }

  lemma {:induction false} DeliveriesArrive(s: System, id: SinkId, frames: seq<Frame>)
    requires id in s.nodes && Sent(id, frames) <= s.toSinks
    ensures Execute(s, DeliveriesOf(id, frames)) == s.(nodes := s.nodes[id := ReceiveAll(s.nodes[id], frames)])
    decreases |frames|
  {
    if frames != [] {
      assert (id, frames[0]) in Sent(id, frames);
      var t := Apply(s, DeliverToSink(id, frames[0]));
      assert Sent(id, frames[1..]) <= Sent(id, frames);
      assert DeliveriesOf(id, frames)[1..] == DeliveriesOf(id, frames[1..]);
      DeliveriesArrive(t, id, frames[1..]);
      assert t.nodes[id := ReceiveAll(s.nodes[id], frames)] == s.nodes[id := ReceiveAll(s.nodes[id], frames)];
    } else {
      assert s.nodes[id := s.nodes[id]] == s.nodes;
    }
  }

  /** Delivering honest frames: every chunk ends up held, every report recorded, and nothing is lost. */
  lemma {:induction false} ReceiveAllFacts(n: Node, frames: seq<Frame>, s: System)
    requires NodeOk(n, s.log, s.sender.ring.gaps, s.sender.final)
    requires LogOk(s.log) && TimelineOk(s.log, s.sender.nextFirst)
    requires forall f :: f in frames ==> HonestFrame(f, s.log, s.sender.ring.gaps)
    ensures var out := ReceiveAll(n, frames);
            && n.recv.held <= out.recv.held && n.recv.gaps <= out.recv.gaps && out.recv.final == n.recv.final
            && (forall f :: f in frames && f.ChunkFrame? ==> f.chunk.seqNo in out.recv.held)
            && (forall f :: f in frames && f.GapReport? ==> Members(f.list.ranges) <= out.recv.gaps)
            && NodeOk(out, s.log, s.sender.ring.gaps, s.sender.final)
    decreases |frames|
  {
    if frames != [] {
      hide NodeOk, LogOk, TimelineOk, HonestFrame, Receive;
      var f := frames[0];
      assert f in frames;
      var next := Receive(n, f);
      ReceiveOneFacts(n, f, s);
      assert forall g :: g in frames[1..] ==> g in frames;
      ReceiveAllFacts(next, frames[1..], s);
      assert forall g :: g in frames ==> g == f || g in frames[1..];
    }
  }

  lemma BooksKept(s: System)
    requires Inv(s)
    ensures LogOk(s.log) && TimelineOk(s.log, s.sender.nextFirst)
  {
  }

  /** What one delivery adds. */
  ghost predicate Gained(n: Node, f: Frame, out: Node) {
    && n.recv.held <= out.recv.held && n.recv.gaps <= out.recv.gaps && out.recv.final == n.recv.final
    && (f.ChunkFrame? ==> f.chunk.seqNo in out.recv.held)
    && (f.GapReport? ==> Members(f.list.ranges) <= out.recv.gaps)
  }

  lemma ChunkGained(n: Node, c: AudioChunk, s: System)
    requires NodeOk(n, s.log, s.sender.ring.gaps, s.sender.final)
    requires LogOk(s.log) && TimelineOk(s.log, s.sender.nextFirst) && c.seqNo < |s.log| && c == s.log[c.seqNo]
    ensures Gained(n, ChunkFrame(c), Receive(n, ChunkFrame(c)))
  {
    hide NodeOk, LogOk, TimelineOk, Receiver.Ingest;
    GenuineIngest(n, s.log, s.sender.ring.gaps, s.sender.final, s.sender.nextFirst, c);
  }

  lemma ReceiveOneFacts(n: Node, f: Frame, s: System)
    requires NodeOk(n, s.log, s.sender.ring.gaps, s.sender.final)
    requires LogOk(s.log) && TimelineOk(s.log, s.sender.nextFirst)
    requires HonestFrame(f, s.log, s.sender.ring.gaps)
    ensures Gained(n, f, Receive(n, f)) && NodeOk(Receive(n, f), s.log, s.sender.ring.gaps, s.sender.final)
  {
    hide NodeOk, LogOk, TimelineOk, Receiver.Ingest;
    ReceiveKeeps(n, s.log, s.sender.ring.gaps, s.sender.final, s.sender.nextFirst, f);
    if f.ChunkFrame? { ChunkGained(n, f.chunk, s); }
  }

  function SaveAll(n: Node, seqs: seq<u32>): Node
    decreases |seqs|
  {
    if seqs == [] then n else SaveAll(Save(n, seqs[0]), seqs[1..])
  }

  lemma {:induction false} PersistsSave(s: System, id: SinkId, seqs: seq<u32>)
    requires id in s.nodes
    ensures Execute(s, PersistsOf(id, seqs)) == s.(nodes := s.nodes[id := SaveAll(s.nodes[id], seqs)])
    decreases |seqs|
  {
    if seqs != [] {
      var t := Apply(s, Persist(id, seqs[0]));
      assert PersistsOf(id, seqs)[1..] == PersistsOf(id, seqs[1..]);
      PersistsSave(t, id, seqs[1..]);
      assert t.nodes[id := SaveAll(s.nodes[id], seqs)] == s.nodes[id := SaveAll(s.nodes[id], seqs)];
    } else {
      assert s.nodes[id := s.nodes[id]] == s.nodes;
    }
  }

  lemma {:induction false} SaveAllFacts(n: Node, seqs: seq<u32>)
    ensures var out := SaveAll(n, seqs);
            && out.recv == n.recv
            && out.unsaved.Keys == n.unsaved.Keys - Elems(seqs)
    decreases |seqs|
  {
    if seqs != [] {
      SaveAllFacts(Save(n, seqs[0]), seqs[1..]);
      assert Elems(seqs) == {seqs[0]} + Elems(seqs[1..]);
    }
  }

  // ---- the round -----------------------------------------------------------------------

  ghost function AckFrom(s: System, id: SinkId): Frame
    requires id in s.nodes
  {
    AckFrame(Receiver.AckOf(s.nodes[id].recv, s.sender.stream))
  }

  /** The sink acknowledges and the ACK arrives. */
  ghost function AckExchange(s: System, id: SinkId): seq<Step> {
    if id !in s.nodes then [] else [SendAck(id), DeliverToSender(id, AckFrom(s, id))]
  }

  /** The sender is popped until nothing is owed, and every popped frame arrives. */
  ghost function Transfer(s: System, id: SinkId): seq<Step> {
    if id !in s.sender.sinks then []
    else
      var frames := PopAll(s.sender.sinks[id], s.sender.ring).1;
      Repeat(Pop(id), |frames| + 1) + DeliveriesOf(id, frames)
  }

  /** The sink persists what it has ingested. */
  ghost function PersistRest(s: System, id: SinkId): seq<Step> {
    if id !in s.nodes then [] else PersistsOf(id, Ascending(s.nodes[id].unsaved.Keys))
  }

  /** What a sink does before it may acknowledge: persist what it has, and be told the final seq. */
  ghost function Prime(s: System, id: SinkId): seq<Step> { PersistRest(s, id) + [LearnFinal(id)] }

  /** Acknowledge, be sent what is owed, persist it, acknowledge again. */
  ghost function Exchange(s: System, id: SinkId): seq<Step> {
    var a := AckExchange(s, id);
    var b := Transfer(Execute(s, a), id);
    var c := PersistRest(Execute(s, a + b), id);
    a + b + c + AckExchange(Execute(s, a + b + c), id)
  }

  /** One lossless round with one sink. */
  ghost function Round(s: System, id: SinkId): seq<Step> {
    Prime(s, id) + Exchange(Execute(s, Prime(s, id)), id)
  }

  /** What an ACK leaves owed: every resident chunk it does not prove, and a report for every hole that is a gap. */
  lemma AckOwes(stream: StreamKey, tx: Sender.Tx, ring: Ring.State, ack: AckStatus, produced: set<u32>)
    requires ring.chunks.Keys <= produced && ring.chunks.Keys !! ring.gaps
    ensures var out := Sender.AckTx(stream, tx, ring, Sender.ProvenBy(ack), ack, produced);
            && out.connected == tx.connected && out.proven == Sender.ProvenBy(ack)
            && (forall x :: x in ring.chunks && x !in out.proven ==> x in out.queued)
            && (forall x :: x in Members(ack.holes) * ring.gaps ==> exists f ::
                f in out.control && f.GapReport? && x in Members(f.list.ranges))
  {
    var proven := Sender.ProvenBy(ack);
    var requeued := Sender.Requeue(tx.(proven := proven, chwm := ack.chwm), ring, produced - proven - ring.gaps);
    var gapped := Members(ack.holes) * ring.gaps;
    forall x | x in gapped
      ensures exists f ::
          f in Sender.AckTx(stream, tx, ring, proven, ack, produced).control && f.GapReport?
          && x in Members(f.list.ranges)
    {
      assert gapped - {} == gapped;
      GapFramesComplete(stream, gapped, x);
      var f :| f in Sender.GapFrames(stream, RangesOf(gapped)) && x in Members(f.list.ranges);
      GapFrameFacts(stream, gapped, f);
    }
  }

  /** An ACK exchange, step by step: the sender handles the sink's own status. */
  lemma AckExchanged(s: System, id: SinkId)
    requires id in s.nodes && CanAck(s.nodes[id])
    ensures Execute(s, AckExchange(s, id))
            == s.(sender := Sender.HandleAck(s.sender, id, AckFrom(s, id).ack), toSender := s.toSender + {(id,
                AckFrom(s, id))})
  {
    var a := Apply(s, SendAck(id));
    var b := Apply(a, DeliverToSender(id, AckFrom(s, id)));
    var steps := AckExchange(s, id);
    assert steps[1..] == [DeliverToSender(id, AckFrom(s, id))];
    assert steps[1..][1..] == [];
    assert Execute(a, steps[1..]) == Execute(b, []);
  }

  /** The transfer, step by step. */
  lemma Transferred(s: System, id: SinkId)
    requires id in s.sender.sinks && s.sender.sinks[id].connected && id in s.nodes
    ensures var frames := PopAll(s.sender.sinks[id], s.sender.ring).1;
            var t := Execute(s, Transfer(s, id));
            && t.nodes == s.nodes[id := ReceiveAll(s.nodes[id], frames)]
            && t.log == s.log && t.everAdded == s.everAdded
            && t.sender == s.sender.(sinks := s.sender.sinks[id := PopAll(s.sender.sinks[id], s.sender.ring).0])
  {
    var frames := PopAll(s.sender.sinks[id], s.sender.ring).1;
    var pops := Repeat(Pop(id), |frames| + 1);
    ExecuteConcat(s, pops, DeliveriesOf(id, frames));
    PopsDrain(s, id);
    DeliveriesArrive(Execute(s, pops), id, frames);
  }

  /** After the first ACK and the transfer the sink has everything there is to have. */
  lemma TransferSettles(s: System, id: SinkId, ack: AckStatus)
    requires Inv(s) && id in s.sender.sinks && id in s.nodes
    requires ack == Receiver.AckOf(s.nodes[id].recv, s.sender.stream) && s.nodes[id].unsaved == map[]
    requires s.nodes[id].recv.final.Some?
    requires s.sender.ring.evictedAcked <= s.nodes[id].store.Keys + s.sender.ring.gaps
    requires Owes(s.sender, id, ack)
    ensures var out := ReceiveAll(s.nodes[id], PopAll(s.sender.sinks[id], s.sender.ring).1);
            Receiver.Settled(out.recv) && out.recv.final == s.sender.final
  {
    var tx, ring, n := s.sender.sinks[id], s.sender.ring, s.nodes[id];
    var frames := PopAll(tx, ring).1;
    var out := ReceiveAll(n, frames);
    var final := s.sender.final.value;
    assert TxOk(tx, s.sender.nextSeq, ring.gaps) && NodeOk(n, s.log, ring.gaps, s.sender.final);
    PopAllDelivers(tx, ring, s.log, s.sender.nextSeq);
    BooksKept(s);
    ReceiveAllFacts(n, frames, s);
    AckIsDurable(n, s.log, ring.gaps, s.sender.final, s.sender.stream);
    forall x | x in Below(final + 1) ensures x in out.recv.held + out.recv.gaps {
      assert x in Below(|s.log|);
      if x in ring.chunks {
        assert x in tx.proven || ChunkFrame(ring.chunks[x]) in frames;
        ResidentArrives(n, out, tx.proven, ring, frames, x);
      } else if x in ring.gaps {
        GapArrives(n.recv, out.recv, s.sender.stream, ring.gaps, frames, tx.control, x);
      }
    }
  }

  lemma ResidentArrives(n: Node, out: Node, proven: set<u32>, ring: Ring.State, frames: seq<Frame>, x: u32)
    requires Ring.Consistent(ring) && x in ring.chunks
    requires proven <= n.store.Keys + ring.gaps && n.store.Keys <= n.recv.held <= out.recv.held
    requires x in proven || ChunkFrame(ring.chunks[x]) in frames
    requires forall f :: f in frames && f.ChunkFrame? ==> f.chunk.seqNo in out.recv.held
    ensures x in out.recv.held
  {
    assert ring.chunks[x].seqNo == x;
  }

  lemma GapArrives(r: Receiver.State, out: Receiver.State, stream: StreamKey, gaps: set<u32>, frames: seq<Frame>,
      control: seq<Frame>, x: u32)
    requires InRange(r) && r.final.Some? && x <= r.final.value && x in gaps
    requires r.held <= out.held && r.gaps <= out.gaps
    requires forall y :: y in Members(Receiver.AckOf(r, stream).holes) * gaps ==>
               exists f :: f in control && f.GapReport? && y in Members(f.list.ranges)
    requires forall f :: f in control ==> f in frames
    requires forall f :: f in frames && f.GapReport? ==> Members(f.list.ranges) <= out.gaps
    ensures x in out.held + out.gaps
  {
    if x !in r.held + r.gaps {
      HoleFacts(r, stream);
      assert x in Receiver.HoleSet(r);
      assert x in Members(Receiver.AckOf(r, stream).holes) * gaps;
      var f :| f in control && f.GapReport? && x in Members(f.list.ranges);
      assert f in frames;
    }
  }

  /** With the final seq known, the sink's ACK fits a frame. */
  ghost predicate AckFits(recv: Receiver.State, final: u32) {
    |Receiver.Holes(Receiver.SetFinal(recv, final))| <= MAX_ACK_HOLES
  }

  /** A sink that a round can settle: connected, the take finished, its ACK not too long, holding what was evicted. */
  ghost predicate Ready(s: System, id: SinkId) {
    && id in s.sender.sinks && id in s.nodes
    && s.sender.sinks[id].connected && s.sender.final.Some?
    && AckFits(s.nodes[id].recv, s.sender.final.value)
    && s.sender.ring.evictedAcked <= s.nodes[id].recv.held
  }

  /** Besides that, nothing unsaved, and told the final seq. */
  ghost predicate Primed(s: System, id: SinkId) {
    && id in s.sender.sinks && id in s.nodes
    && s.sender.sinks[id].connected
    && s.nodes[id].recv.final.Some?
    && CanAck(s.nodes[id])
    && s.sender.ring.evictedAcked <= s.nodes[id].store.Keys
  }

  /** What a round with one sink leaves alone. */
  ghost predicate OthersUntouched(s: System, t: System, id: SinkId) {
    && t.log == s.log && t.everAdded == s.everAdded
    && t.sender.sinks.Keys == s.sender.sinks.Keys && t.nodes.Keys == s.nodes.Keys
    && (forall o :: o in s.sender.sinks && o != id ==> t.sender.sinks[o] == s.sender.sinks[o])
    && (forall o :: o in s.nodes && o != id ==> t.nodes[o] == s.nodes[o])
    && t.sender.ring.gaps == s.sender.ring.gaps && t.sender.ring.evictedAcked == s.sender.ring.evictedAcked
    && t.sender.ring.chunks == s.sender.ring.chunks && t.sender.final == s.sender.final
    && t.sender.stream == s.sender.stream
  }

  /** The sink's record after its ACK. */
  ghost function AckedTx(s: Sender.State, id: SinkId, ack: AckStatus): Sender.Tx
    requires id in s.sinks
  {
    Sender.AckTx(s.stream, s.sinks[id], Ring.MarkAcked(s.ring, Sender.ProvenBy(ack)), Sender.ProvenBy(ack), ack,
        s.produced)
  }

  lemma AckUntouched(s: System, t: System, id: SinkId, ack: AckStatus)
    requires id in s.sender.sinks
    requires t == s.(sender := Sender.HandleAck(s.sender, id, ack), toSender := t.toSender)
    ensures OthersUntouched(s, t, id) && t.sender.sinks[id] == AckedTx(s.sender, id, ack)
    ensures t.sender.ring == Ring.MarkAcked(s.sender.ring, Sender.ProvenBy(ack))
  {
  }

  lemma AckPhase(s: System, id: SinkId)
    requires id in s.sender.sinks && id in s.nodes && CanAck(s.nodes[id])
    ensures var t := Execute(s, AckExchange(s, id));
            OthersUntouched(s, t, id) && t.nodes == s.nodes && t.sender.sinks[id] == AckedTx(s.sender, id,
                AckFrom(s, id).ack)
  {
    AckExchanged(s, id);
    AckUntouched(s, Execute(s, AckExchange(s, id)), id, AckFrom(s, id).ack);
  }

  /** What the sink is owed once its ACK is in. */
  ghost predicate Owes(s: Sender.State, id: SinkId, ack: AckStatus)
    requires id in s.sinks
  {
    var tx := s.sinks[id];
    && tx.connected && tx.proven == Sender.ProvenBy(ack)
    && (forall x :: x in s.ring.chunks && x !in tx.proven ==> x in tx.queued)
    && (forall x :: x in Members(ack.holes) * s.ring.gaps ==> exists f ::
        f in tx.control && f.GapReport? && x in Members(f.list.ranges))
  }

  lemma OwedAfterAck(s: Sender.State, a: Sender.State, id: SinkId, ack: AckStatus)
    requires id in s.sinks && id in a.sinks && s.sinks[id].connected
    requires s.ring.chunks.Keys <= s.produced && s.ring.chunks.Keys !! s.ring.gaps
    requires a.ring.chunks == s.ring.chunks && a.ring.gaps == s.ring.gaps && a.sinks[id] == AckedTx(s, id, ack)
    ensures Owes(a, id, ack)
  {
    AckOwes(s.stream, s.sinks[id], Ring.MarkAcked(s.ring, Sender.ProvenBy(ack)), ack, s.produced);
  }

  lemma TransferPhase(a: System, id: SinkId, ack: AckStatus)
    requires Inv(a) && id in a.sender.sinks && id in a.nodes
    requires Owes(a.sender, id, ack) && ack == Receiver.AckOf(a.nodes[id].recv, a.sender.stream)
    requires a.nodes[id].unsaved == map[] && a.nodes[id].recv.final.Some?
    requires a.sender.ring.evictedAcked <= a.nodes[id].store.Keys
    ensures var t := Execute(a, Transfer(a, id));
            && OthersUntouched(a, t, id) && Receiver.Settled(t.nodes[id].recv)
                && t.nodes[id].recv.final == a.sender.final
  {
    TransferSettles(a, id, ack);
    TransferUntouched(a, id);
  }

  lemma TransferUntouched(a: System, id: SinkId)
    requires id in a.sender.sinks && a.sender.sinks[id].connected && id in a.nodes
    ensures var t := Execute(a, Transfer(a, id));
            OthersUntouched(a, t, id) && t.nodes[id] == ReceiveAll(a.nodes[id], PopAll(a.sender.sinks[id],
                a.sender.ring).1)
  {
    Transferred(a, id);
  }

  lemma ResidentsKnown(s: Sender.State, log: seq<AudioChunk>)
    requires SenderOk(s, log)
    ensures s.ring.chunks.Keys <= s.produced && s.ring.chunks.Keys !! s.ring.gaps
  {
  }

  lemma PersistPhase(s: System, id: SinkId)
    requires id in s.nodes
    ensures var t := Execute(s, PersistRest(s, id));
            && t.sender == s.sender && OthersUntouched(s, t, id)
            && t.nodes[id].recv == s.nodes[id].recv && t.nodes[id].unsaved == map[]
  {
    var seqs := Ascending(s.nodes[id].unsaved.Keys);
    AscendingFacts(s.nodes[id].unsaved.Keys);
    PersistsSave(s, id, seqs);
    SaveAllFacts(s.nodes[id], seqs);
    assert Elems(seqs) == s.nodes[id].unsaved.Keys;
  }

  /** A settled sink has no holes left to report. */
  lemma SettledHasNoHoles(n: Node, log: seq<AudioChunk>, gaps: set<u32>, final: Option<u32>)
    requires NodeOk(n, log, gaps, final) && Receiver.Settled(n.recv) && final == Some(|log| - 1) && |log| <= U32_MAX
    ensures Receiver.Holes(n.recv) == []
  {
    var missing := Receiver.HoleSet(n.recv);
    assert missing == {};
    RangesOfFacts(missing);
    assert Canonical([]) && Members([]) == {};
  }

  lemma FinalAck(s: System, id: SinkId)
    requires Inv(s) && id in s.sender.sinks && id in s.nodes && s.nodes[id].unsaved == map[]
    requires Receiver.Settled(s.nodes[id].recv) && s.nodes[id].recv.final == s.sender.final
    ensures var t := Execute(s, AckExchange(s, id));
            && OthersUntouched(s, t, id) && t.nodes == s.nodes
            && Sender.SinkSettled(t.sender, id)
            && (Sender.DrainedAll(t.sender) ==> t.sender.take.Closed?)
  {
    FinalAckFits(s.nodes[id], s.sender, s.log, id);
    AckPhase(s, id);
    AckExchanged(s, id);
    SettlingAck(s.sender, id, AckFrom(s, id).ack);
  }

  lemma FinalAckFits(n: Node, sender: Sender.State, log: seq<AudioChunk>, id: SinkId)
    requires SenderOk(sender, log) && NodeOk(n, log, sender.ring.gaps, sender.final) && n.unsaved == map[]
    requires Receiver.Settled(n.recv) && n.recv.final == sender.final
    ensures CanAck(n) && (sender.take.Draining? || sender.take.Closed?)
    ensures Below(sender.final.value + 1) <= Sender.ProvenBy(Receiver.AckOf(n.recv, sender.stream))
  {
    SettledHasNoHoles(n, log, sender.ring.gaps, sender.final);
    AckIsDurable(n, log, sender.ring.gaps, sender.final, sender.stream);
    SettledAckProvesAll(n.recv, sender.stream);
  }

  lemma SettlingAck(s: Sender.State, id: SinkId, ack: AckStatus)
    requires id in s.sinks && s.final.Some? && Below(s.final.value + 1) <= Sender.ProvenBy(ack)
    requires s.take.Draining? || s.take.Closed?
    ensures var t := Sender.HandleAck(s, id, ack);
            Sender.SinkSettled(t, id) && (Sender.DrainedAll(t) ==> t.take.Closed?)
  {
  }

  /** The exchange settles a primed sink, and touches no other. */
  lemma ExchangeSettles(s: System, id: SinkId)
    requires Inv(s) && Primed(s, id)
    ensures var t := Execute(s, Exchange(s, id));
            && OthersUntouched(s, t, id)
            && Receiver.Settled(t.nodes[id].recv) && Sender.SinkSettled(t.sender, id)
            && (Sender.DrainedAll(t.sender) ==> t.sender.take.Closed?)
  {
    hide Inv, Grows, OthersUntouched, Execute, Owes;
    var a := AckExchange(s, id);
    var s1 := Execute(s, a);
    var b := Transfer(s1, id);
    var s2 := Execute(s1, b);
    var c := PersistRest(s2, id);
    var s3 := Execute(s2, c);
    ExecuteConcat(s, a, b);
    ExecuteConcat(s, a + b, c);
    ExecuteConcat(s, a + b + c, AckExchange(s3, id));
    RunKeeps(s, a);
    RunKeeps(s1, b);
    RunKeeps(s2, c);
    FirstAck(s, id);
    TransferPhase(s1, id, AckFrom(s, id).ack);
    PersistPhase(s2, id);
    UntouchedHas(s, s1, id);
    UntouchedHas(s1, s2, id);
    UntouchedHas(s2, s3, id);
    FinalAck(s3, id);
    UntouchedChain(s, s1, s2, s3, Execute(s3, AckExchange(s3, id)), id);
  }

  /** After the first ACK the sender owes the sink what it lacks; the sink itself is as it was. */
  lemma FirstAck(s: System, id: SinkId)
    requires Inv(s) && Primed(s, id)
    ensures var t := Execute(s, AckExchange(s, id));
            var ack := AckFrom(s, id).ack;
            && OthersUntouched(s, t, id) && t.nodes == s.nodes && id in t.sender.sinks
            && Owes(t.sender, id, ack) && ack == Receiver.AckOf(t.nodes[id].recv, t.sender.stream)
            && t.sender.ring.evictedAcked <= t.nodes[id].store.Keys
  {
    hide Owes, Execute, CanAck;
    AckPhase(s, id);
    ResidentsKnown(s.sender, s.log);
    OwedAfterAck(s.sender, Execute(s, AckExchange(s, id)).sender, id, AckFrom(s, id).ack);
  }

  lemma UntouchedHas(s: System, t: System, id: SinkId)
    requires OthersUntouched(s, t, id)
    ensures t.sender.sinks.Keys == s.sender.sinks.Keys && t.nodes.Keys == s.nodes.Keys
    ensures t.sender.final == s.sender.final
  {
  }

  /** A ready sink is primed by persisting and being told the final seq; the sender does not notice. */
  lemma PrimePhase(s: System, id: SinkId)
    requires Inv(s) && Ready(s, id)
    ensures var t := Execute(s, Prime(s, id)); OthersUntouched(s, t, id) && Primed(t, id)
  {
    hide Inv, Grows, Execute, Apply;
    var saved := Execute(s, PersistRest(s, id));
    ExecuteConcat(s, PersistRest(s, id), [LearnFinal(id)]);
    PersistPhase(s, id);
    RunKeeps(s, PersistRest(s, id));
    OneStep(saved, LearnFinal(id));
    FinalTold(saved, id);
    UntouchedBoth(s, saved, Apply(saved, LearnFinal(id)), id);
  }

  lemma OneStep(s: System, step: Step)
    ensures Execute(s, [step]) == Apply(s, step)
  {
    assert [step][1..] == [] && Execute(Apply(s, step), []) == Apply(s, step);
  }

  lemma FinalTold(s: System, id: SinkId)
    requires Inv(s) && Ready(s, id) && s.nodes[id].unsaved == map[]
    ensures var t := Apply(s, LearnFinal(id)); OthersUntouched(s, t, id) && Primed(t, id)
  {
    hide Inv, Receiver.Holes;
    NodeKnows(s, id);
    assert s.nodes[id].store.Keys + {} == s.nodes[id].store.Keys;
  }

  lemma NodeKnows(s: System, id: SinkId)
    requires Inv(s) && id in s.nodes
    ensures s.nodes[id].recv.held == s.nodes[id].store.Keys + s.nodes[id].unsaved.Keys
    ensures s.nodes[id].recv.final.Some? ==> s.nodes[id].recv.final == s.sender.final
  {
    assert NodeOk(s.nodes[id], s.log, s.sender.ring.gaps, s.sender.final);
  }

  lemma UntouchedBoth(a: System, b: System, c: System, id: SinkId)
    requires OthersUntouched(a, b, id) && OthersUntouched(b, c, id)
    ensures OthersUntouched(a, c, id)
  {
  }

  /** One lossless round settles a ready sink, and touches no other. */
  lemma RoundSettles(s: System, id: SinkId)
    requires Inv(s) && Ready(s, id)
    ensures var t := Execute(s, Round(s, id));
            && OthersUntouched(s, t, id)
            && Receiver.Settled(t.nodes[id].recv) && Sender.SinkSettled(t.sender, id)
            && (Sender.DrainedAll(t.sender) ==> t.sender.take.Closed?)
  {
    hide Inv, Grows, OthersUntouched, Execute, Prime, Exchange, Ready;
    var primed := Execute(s, Prime(s, id));
    PrimePhase(s, id);
    RunKeeps(s, Prime(s, id));
    ExchangeSettles(primed, id);
    ExecuteConcat(s, Prime(s, id), Exchange(primed, id));
    UntouchedBoth(s, primed, Execute(primed, Exchange(primed, id)), id);
    UntouchedHas(s, Execute(s, Round(s, id)), id);
  }

  lemma UntouchedChain(a: System, b: System, c: System, d: System, e: System, id: SinkId)
    requires OthersUntouched(a, b, id) && OthersUntouched(b, c, id) && OthersUntouched(c, d, id)
        && OthersUntouched(d, e, id)
    ensures OthersUntouched(a, e, id)
  {
  }

  // ---- convergence of reachable systems ---------------------------------------------------

  lemma EvictedIsSomewhere(s: System)
    requires Inv(s)
    ensures ProofsOk(s) && s.sender.ring.evictedAcked <= s.sender.ring.acked - s.sender.ring.gaps
    ensures s.sender.sinks.Keys <= s.everAdded
  {
  }

  lemma OneHasIt(s: System, id: SinkId, x: u32)
    requires ProofsOk(s) && s.everAdded <= {id} && id in s.nodes && x in s.sender.ring.acked - s.sender.ring.gaps
    ensures x in s.nodes[id].store
  {
    assert StoredSomewhere(s, x);
  }

  lemma EvictedIsHere(s: System, id: SinkId)
    requires Inv(s) && s.everAdded <= {id} && id in s.nodes
    ensures s.sender.ring.evictedAcked <= s.nodes[id].store.Keys
    ensures s.sender.sinks.Keys <= {id}
  {
    EvictedIsSomewhere(s);
    hide Inv, ProofsOk;
    forall x | x in s.sender.ring.evictedAcked ensures x in s.nodes[id].store { OneHasIt(s, id, x); }
  }

  lemma ClosedIsStored(t: System)
    requires Inv(t) && Sender.DrainedAll(t.sender) && t.sender.take.Closed?
    ensures AllStored(t, t.sender.sinks.Keys)
  {
    DrainedMeansStored(t);
  }

  lemma ReadyStays(s: System, t: System, id: SinkId, o: SinkId)
    requires OthersUntouched(s, t, id) && o != id && Ready(s, o)
    ensures Ready(t, o)
  {
  }

  lemma SettledStays(s: System, t: System, id: SinkId, o: SinkId)
    requires OthersUntouched(s, t, id) && o != id && Sender.SinkSettled(s.sender, o)
    ensures Sender.SinkSettled(t.sender, o)
  {
  }

  /** One round per sink, one after the other. */
  ghost function Rounds(s: System, sinks: seq<SinkId>): seq<Step>
    decreases |sinks|
  {
    if sinks == [] then [] else Round(s, sinks[0]) + Rounds(Execute(s, Round(s, sinks[0])), sinks[1..])
  }

  /** Where a run of rounds stands: these sinks are settled, those are ready. */
  ghost predicate Midway(s: System, sinks: seq<SinkId>, done: set<SinkId>) {
    && NoRepeats(sinks)
    && (forall id :: id in sinks ==> Ready(s, id) && id !in done)
    && (forall id :: id in done ==> Sender.SinkSettled(s.sender, id))
    && s.sender.sinks.Keys == done + Elems(sinks)
    && s.sender.final.Some? && s.sender.sinks != map[]
    && (sinks == [] ==> s.sender.take.Closed?)
  }

  lemma MidwayStep(s: System, t: System, sinks: seq<SinkId>, done: set<SinkId>)
    requires sinks != [] && Midway(s, sinks, done) && OthersUntouched(s, t, sinks[0])
    requires Sender.SinkSettled(t.sender, sinks[0])
    requires Sender.DrainedAll(t.sender) ==> t.sender.take.Closed?
    ensures Midway(t, sinks[1..], done + {sinks[0]})
  {
    hide Ready, Sender.SinkSettled;
    var id, rest := sinks[0], sinks[1..];
    assert id in sinks;
    forall o | o in rest ensures Ready(t, o) && o !in done + {id} {
      var i :| 0 <= i < |rest| && rest[i] == o;
      assert sinks[i + 1] == o;
      assert o in sinks;
      ReadyStays(s, t, id, o);
    }
    forall o | o in done + {id} ensures Sender.SinkSettled(t.sender, o) {
      if o != id { SettledStays(s, t, id, o); }
    }
    assert Elems(sinks) == {id} + Elems(rest);
  }

  lemma RoundAdvances(s: System, sinks: seq<SinkId>, done: set<SinkId>, t: System)
    requires Inv(s) && Midway(s, sinks, done) && sinks != [] && t == Execute(s, Round(s, sinks[0]))
    ensures Inv(t) && Midway(t, sinks[1..], done + {sinks[0]})
  {
    assert sinks[0] in sinks;
    RoundSettles(s, sinks[0]);
    MidwayStep(s, t, sinks, done);
    RunKeeps(s, Round(s, sinks[0]));
  }

  /** Rounds settle their sinks one by one; a settled sink stays settled through the others' rounds. */
  lemma {:induction false} RoundsSettle(s: System, sinks: seq<SinkId>, done: set<SinkId>)
    requires Inv(s) && Midway(s, sinks, done)
    ensures Midway(Execute(s, Rounds(s, sinks)), [], done + Elems(sinks))
    decreases |sinks|
  {
    hide Inv, Midway, Round;
    if sinks == [] {
      assert done + Elems(sinks) == done;
    } else {
      var id, rest := sinks[0], sinks[1..];
      var t := Execute(s, Round(s, id));
      RoundAdvances(s, sinks, done, t);
      RoundsSettle(t, rest, done + {id});
      ExecuteConcat(s, Round(s, id), Rounds(t, rest));
      ElemsCons(done, sinks);
      assert Execute(s, Rounds(s, sinks)) == Execute(t, Rounds(t, rest));
    }
  }

  lemma ElemsCons(done: set<u32>, q: seq<u32>)
    requires q != []
    ensures done + {q[0]} + Elems(q[1..]) == done + Elems(q)
  {
    assert q == [q[0]] + q[1..];
  }

  lemma DoneIsClosed(t: System, sinks: set<SinkId>)
    requires Inv(t) && Midway(t, [], sinks)
    ensures t.sender.take.Closed? && Sender.DrainedAll(t.sender) && t.sender.sinks.Keys == sinks && AllStored(t, sinks)
  {
    assert sinks + Elems([]) == sinks;
    ClosedIsStored(t);
  }

  /**
   * Convergence with any number of sinks: once replication has brought every sink what the ring evicted, one
   * lossless round per registered sink closes the take, with everything obtainable stored at every one of them.
   */
  lemma AllSinksConverge(stream: StreamKey, budget: nat, ids: set<SinkId>, steps: seq<Step>, sinks: seq<SinkId>)
    requires var s := After(stream, budget, ids, steps);
             && sinks != [] && NoRepeats(sinks) && Elems(sinks) == s.sender.sinks.Keys
             && forall id :: id in sinks ==> Ready(s, id)
    ensures var s := After(stream, budget, ids, steps);
            var t := Execute(s, Rounds(s, sinks));
            && t.sender.take.Closed? && Sender.DrainedAll(t.sender)
            && t.sender.sinks.Keys == Elems(sinks) && AllStored(t, Elems(sinks))
  {
    var s := After(stream, budget, ids, steps);
    AfterOk(stream, budget, ids, steps);
    assert sinks[0] in sinks;
    ReadyIsMidway(s, sinks);
    RoundsSettle(s, sinks, {});
    RunKeeps(s, Rounds(s, sinks));
    assert {} + Elems(sinks) == Elems(sinks);
    DoneIsClosed(Execute(s, Rounds(s, sinks)), Elems(sinks));
  }

  lemma ReadyIsMidway(s: System, sinks: seq<SinkId>)
    requires s.sender.final.Some? && sinks != [] && NoRepeats(sinks) && Elems(sinks) == s.sender.sinks.Keys
    requires forall id :: id in sinks ==> Ready(s, id)
    ensures Midway(s, sinks, {})
  {
    assert sinks[0] in sinks && sinks[0] in Elems(sinks);
    assert {} + Elems(sinks) == Elems(sinks);
  }

  // ---- one sink: nothing to replicate ----------------------------------------------------

  /** No sink but this one is ever registered in the run. */
  ghost predicate OnlySink(steps: seq<Step>, id: SinkId) {
    forall step :: step in steps && step.AddSink? ==> step.id == id
  }

  lemma {:induction false} OnlySinkAdded(s: System, steps: seq<Step>, id: SinkId)
    requires OnlySink(steps, id) && s.everAdded <= {id}
    ensures Execute(s, steps).everAdded <= {id}
    decreases |steps|
  {
    if steps != [] {
      assert steps[0] in steps;
      assert forall step :: step in steps[1..] ==> step in steps;
      OnlySinkAdded(Apply(s, steps[0]), steps[1..], id);
    }
  }

  lemma OneSettledCloses(s: System, t: System, id: SinkId)
    requires OthersUntouched(s, t, id) && s.sender.sinks.Keys == {id} && Sender.SinkSettled(t.sender, id)
    requires Sender.DrainedAll(t.sender) ==> t.sender.take.Closed?
    ensures t.sender.take.Closed? && Sender.DrainedAll(t.sender) && t.sender.sinks.Keys == {id}
  {
    assert id in t.sender.sinks;
  }

  lemma OnlyOneIsReady(s: System, id: SinkId)
    requires Inv(s) && s.everAdded <= {id} && id in s.sender.sinks && id in s.nodes
    requires s.sender.sinks[id].connected && s.sender.final.Some?
    requires AckFits(s.nodes[id].recv, s.sender.final.value)
    ensures Ready(s, id) && s.sender.sinks.Keys == {id}
  {
    hide Inv, AckFits;
    EvictedIsHere(s, id);
    NodeKnows(s, id);
  }

  /**
   * Convergence in one lossless round: with one sink ever registered, and connected, any reachable system whose take
   * is finished is settled by one round, and the round's last ACK closes the take.
   */
  lemma ConvergesInOneRound(stream: StreamKey, budget: nat, ids: set<SinkId>, steps: seq<Step>, id: SinkId)
    requires OnlySink(steps, id)
    requires var s := After(stream, budget, ids, steps);
             && id in s.sender.sinks && s.sender.sinks[id].connected && id in s.nodes
             && s.sender.final.Some? && AckFits(s.nodes[id].recv, s.sender.final.value)
    ensures var s := After(stream, budget, ids, steps);
            var t := Execute(s, Round(s, id));
            && id in t.nodes && Receiver.Settled(t.nodes[id].recv)
            && Sender.DrainedAll(t.sender) && t.sender.take.Closed? && AllStored(t, {id})
  {
    var s := After(stream, budget, ids, steps);
    AfterOk(stream, budget, ids, steps);
    OnlySinkAdded(Start(stream, budget, ids), steps, id);
    OnlyOneIsReady(s, id);
    RoundSettles(s, id);
    OneSettledCloses(s, Execute(s, Round(s, id)), id);
    RunKeeps(s, Round(s, id));
    ClosedIsStored(Execute(s, Round(s, id)));
  }
}
