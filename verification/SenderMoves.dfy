/** What each of the sender's moves does to a sink's queues, said of the queues alone. */
module SenderMoves {
  import opened Machine
  import opened Sets
  import opened Ranges
  import opened Frames
  import Crc32c
  import Ring
  import opened Sender
  import opened SenderFacts

  // ---- popping ------------------------------------------------------------------------------------

  /** Still worth sending: in the ring, and not proven held. */
  ghost predicate Owed(tx: Tx, ring: Ring.State, x: u32) { x in ring.chunks && x !in tx.proven }

  ghost predicate FirstOwed(q: seq<u32>, i: nat, tx: Tx, ring: Ring.State) {
    i < |q| && Owed(tx, ring, q[i]) && forall j :: 0 <= j < i ==> !Owed(tx, ring, q[j])
  }

  ghost predicate NoneOwed(q: seq<u32>, tx: Tx, ring: Ring.State) { forall x :: x in q ==> !Owed(tx, ring, x) }

  lemma {:induction false} FirstOrNone(q: seq<u32>, tx: Tx, ring: Ring.State)
    ensures NoneOwed(q, tx, ring) || exists i: nat :: FirstOwed(q, i, tx, ring)
    decreases |q|
  {
    if q != [] {
      var front, last := q[..|q| - 1], q[|q| - 1];
      FirstOrNone(front, tx, ring);
      if i: nat :| FirstOwed(front, i, tx, ring) {
        assert FirstOwed(q, i, tx, ring);
      } else if Owed(tx, ring, last) {
        assert forall j :: 0 <= j < |front| ==> q[j] == front[j] && front[j] in front;
        assert FirstOwed(q, |front|, tx, ring);
      } else {
        assert q == front + [last];
      }
    }
  }

  /** Dropping a head that is not owed. */
  lemma SkipHead(q: seq<u32>, tx: Tx, out: Tx, ring: Ring.State)
    requires q != [] && !Owed(tx, ring, q[0]) && out.proven == tx.proven
    ensures NoneOwed(q, tx, ring) <==> NoneOwed(q[1..], out, ring)
    ensures forall i: nat :: FirstOwed(q, i, tx, ring) ==>
        && i > 0 && FirstOwed(q[1..], i - 1, out, ring)
        && q[1..][i - 1] == q[i] && q[1..][i..] == q[i + 1..]
  {
    assert q == [q[0]] + q[1..];
    forall i: nat | FirstOwed(q, i, tx, ring)
      ensures i > 0 && FirstOwed(q[1..], i - 1, out, ring) && q[1..][i - 1] == q[i] && q[1..][i..] == q[i + 1..]
    {
      forall j | 0 <= j < i - 1 ensures !Owed(out, ring, q[1..][j]) { assert q[1..][j] == q[j + 1]; }
    }
  }

  /** What comes out is the first owed live chunk; else the first owed backlog chunk; else nothing. */
  ghost predicate InOrder(tx: Tx, ring: Ring.State, out: Tx, c: Option<AudioChunk>) {
    && (forall i: nat :: FirstOwed(tx.live, i, tx, ring) ==>
          c == Some(ring.chunks[tx.live[i]]) && out.live == tx.live[i + 1..] && out.backfill == tx.backfill)
    && (NoneOwed(tx.live, tx, ring) ==> forall i: nat :: FirstOwed(tx.backfill, i, tx, ring) ==>
          c == Some(ring.chunks[tx.backfill[i]]) && out.live == [] && out.backfill == tx.backfill[i + 1..])
    && (NoneOwed(tx.live, tx, ring) && NoneOwed(tx.backfill, tx, ring) ==>
          c == None && out.live == [] && out.backfill == [])
  }

  lemma LiveSkipped(tx: Tx, out: Tx, ring: Ring.State, end: Tx, c: Option<AudioChunk>)
    requires tx.live != [] && !Owed(tx, ring, tx.live[0]) && InOrder(out, ring, end, c)
    requires out.live == tx.live[1..] && out.backfill == tx.backfill && out.proven == tx.proven
    ensures InOrder(tx, ring, end, c)
  {
    SkipHead(tx.live, tx, out, ring);
    assert forall i: nat :: FirstOwed(tx.backfill, i, tx, ring) <==> FirstOwed(tx.backfill, i, out, ring);
    assert NoneOwed(tx.backfill, tx, ring) <==> NoneOwed(tx.backfill, out, ring);
  }

  lemma BacklogSkipped(tx: Tx, out: Tx, ring: Ring.State, end: Tx, c: Option<AudioChunk>)
    requires tx.live == [] == out.live && tx.backfill != [] && !Owed(tx, ring, tx.backfill[0])
    requires InOrder(out, ring, end, c) && out.backfill == tx.backfill[1..] && out.proven == tx.proven
    ensures InOrder(tx, ring, end, c)
  {
    SkipHead(tx.backfill, tx, out, ring);
  }

  lemma {:induction false} ChunkOrder(tx: Tx, ring: Ring.State)
    ensures InOrder(tx, ring, PopChunk(tx, ring).0, PopChunk(tx, ring).1)
    decreases |tx.live| + |tx.backfill|
  {
    if tx.live != [] {
      var s, out := tx.live[0], tx.(live := tx.live[1..], queued := tx.queued - {tx.live[0]});
      if Owed(tx, ring, s) {
        assert FirstOwed(tx.live, 0, tx, ring) && s in tx.live;
      } else {
        ChunkOrder(out, ring);
        LiveSkipped(tx, out, ring, PopChunk(out, ring).0, PopChunk(out, ring).1);
      }
    } else if tx.backfill != [] {
      var s, out := tx.backfill[0], tx.(backfill := tx.backfill[1..], queued := tx.queued - {tx.backfill[0]});
      if Owed(tx, ring, s) {
        assert FirstOwed(tx.backfill, 0, tx, ring) && s in tx.backfill;
      } else {
        ChunkOrder(out, ring);
        BacklogSkipped(tx, out, ring, PopChunk(out, ring).0, PopChunk(out, ring).1);
      }
    }
  }

  /**
   * Transmit order. Nothing while disconnected; a waiting control frame first; then the first live chunk still owed;
   * then the first backlog chunk still owed; and nothing exactly when nothing is owed.
   */
  lemma PopOrder(tx: Tx, ring: Ring.State)
    ensures var (out, f) := PopTx(tx, ring);
            && (!tx.connected ==> f == None && out == tx)
            && (tx.connected && tx.control != [] ==>
                  f == Some(tx.control[0]) && out == tx.(control := tx.control[1..]))
            && (tx.connected && tx.control == [] ==>
                  && out.control == []
                  && (f.Some? ==> f.value.ChunkFrame?)
                  && InOrder(tx, ring, out, if f.Some? then Some(f.value.chunk) else None)
                  && (f == None <==> NoneOwed(tx.live, tx, ring) && NoneOwed(tx.backfill, tx, ring)))
  {
    ChunkOrder(tx, ring);
    FirstOrNone(tx.live, tx, ring);
    FirstOrNone(tx.backfill, tx, ring);
  }

  // ---- connecting -----------------------------------------------------------------------------------

  /** A disconnect moves what was live, in order, behind the backlog, and forgets nothing; a connect only connects. */
  lemma DisconnectDemotes(tx: Tx, nextSeq: u32)
    requires QueuesOk(tx, nextSeq)
    ensures Connected(tx, true) == tx.(connected := true)
    ensures Connected(tx, false) == tx.(connected := false, live := [], backfill := tx.backfill + tx.live)
  {
    DemoteKeeps(tx, nextSeq);
  }

  // ---- queueing ----------------------------------------------------------------------------------------

  /** Those seqs are queued behind the backlog, oldest first, and nothing else about the queues changes. */
  ghost predicate QueuedBehind(tx: Tx, out: Tx, added: set<u32>) {
    && out.live == tx.live && tx.backfill <= out.backfill && out.queued == tx.queued + added
    && StrictlyIncreasing(out.backfill[|tx.backfill|..]) && Elems(out.backfill[|tx.backfill|..]) == added
  }

  lemma RequeueBehind(tx: Tx, ring: Ring.State, wanted: set<u32>)
    ensures var out := Requeue(tx, ring, wanted);
            && QueuedBehind(tx, out, wanted * ring.chunks.Keys - tx.queued)
            && out.control == tx.control && out.reported == tx.reported && out.proven == tx.proven
  {
    var added := wanted * ring.chunks.Keys - tx.queued;
    AscendingFacts(added);
    assert Requeue(tx, ring, wanted).backfill[|tx.backfill|..] == Ascending(added);
  }

  /** Reports behind those waiting cover exactly these seqs. */
  ghost predicate ReportedBehind(stream: StreamKey, tx: Tx, out: Tx, told: set<u32>) {
    && tx.control <= out.control
    && (forall f :: f in out.control[|tx.control|..] ==>
          f.GapReport? && f.list.stream == stream && Members(f.list.ranges) <= told)
    && (forall x :: x in told ==> exists f ::
          f in out.control[|tx.control|..] && f.GapReport? && x in Members(f.list.ranges))
  }

  /** A gap report tells of the gaps not told before, and remembers having told them. */
  lemma GapsTold(stream: StreamKey, tx: Tx, gaps: set<u32>)
    ensures var out := QueueGapReport(stream, tx, gaps);
            && ReportedBehind(stream, tx, out, gaps - tx.reported)
            && out == tx.(control := out.control, reported := tx.reported + gaps)
  {
    var told := gaps - tx.reported;
    var out := QueueGapReport(stream, tx, gaps);
    assert tx.reported + told == tx.reported + gaps;
    if told == {} {
      assert out.control[|tx.control|..] == [];
    } else {
      var frames := GapFrames(stream, RangesOf(told));
      assert out.control[|tx.control|..] == frames;
      forall f | f in frames ensures f.GapReport? && f.list.stream == stream && Members(f.list.ranges) <= told {
        GapFrameFacts(stream, told, f);
      }
      forall x | x in told ensures exists f :: f in frames && f.GapReport? && x in Members(f.list.ranges) {
        GapFramesComplete(stream, told, x);
        var f :| f in frames && x in Members(f.list.ranges);
        GapFrameFacts(stream, told, f);
      }
    }
  }

  /** Asked for ranges: every asked-for resident seq is queued, and every asked-for gap not told before is told. */
  lemma BackfillAnswered(stream: StreamKey, tx: Tx, ring: Ring.State, wanted: set<u32>)
    ensures var out := BackfillTx(stream, tx, ring, wanted);
            && QueuedBehind(tx, out, wanted * ring.chunks.Keys - tx.queued)
            && ReportedBehind(stream, tx, out, wanted * ring.gaps - tx.reported)
            && out.reported == tx.reported + wanted * ring.gaps
            && out.proven == tx.proven && out.chwm == tx.chwm && out.connected == tx.connected
  {
    var gapped := wanted * ring.gaps;
    GapsTold(stream, tx, gapped);
    var told := if gapped == {} then tx else QueueGapReport(stream, tx, gapped);
    if gapped == {} { assert tx.control[|tx.control|..] == [] && tx.reported + {} == tx.reported; }
    RequeueBehind(told, ring, wanted);
  }

  /**
   * An ACK replaces what was proven by what it proves; every produced resident chunk it does not prove is queued;
   * and every hole that is a declared gap is told again, whatever was told before.
   */
  lemma AckAnswered(stream: StreamKey, tx: Tx, ring: Ring.State, proven: set<u32>, ack: AckStatus, produced: set<u32>)
    ensures var out := AckTx(stream, tx, ring, proven, ack, produced);
            && out.proven == proven && out.chwm == ack.chwm && out.connected == tx.connected
            && QueuedBehind(tx, out, (produced - proven - ring.gaps) * ring.chunks.Keys - tx.queued)
            && ReportedBehind(stream, tx, out, Members(ack.holes) * ring.gaps)
  {
    var gapped := Members(ack.holes) * ring.gaps;
    var fresh_ := tx.(proven := proven, chwm := ack.chwm);
    RequeueBehind(fresh_, ring, produced - proven - ring.gaps);
    var requeued := Requeue(fresh_, ring, produced - proven - ring.gaps);
    if gapped == {} {
      assert tx.control[|tx.control|..] == [];
    } else {
      GapsTold(stream, requeued.(reported := {}), gapped);
      assert gapped - {} == gapped;
    }
  }

  // ---- which sinks, which frames -----------------------------------------------------------------------

  /** A new sink is owed every resident chunk, oldest first, with nothing proven and nothing told. */
  lemma NewSinkOwed(s: State, id: SinkId)
    requires id !in s.sinks
    ensures var out := AddSink(s, id);
            && out.sinks.Keys == s.sinks.Keys + {id} && (forall i :: i in s.sinks ==> out.sinks[i] == s.sinks[i])
            && out == s.(sinks := out.sinks)
            && var tx := out.sinks[id];
               && !tx.connected && tx.proven == {} && tx.reported == {} && tx.live == [] && tx.control == []
               && StrictlyIncreasing(tx.backfill) && Elems(tx.backfill) == tx.queued == s.ring.chunks.Keys
  {
    AscendingFacts(s.ring.chunks.Keys);
    assert Elems(Ascending(s.ring.chunks.Keys)) == s.ring.chunks.Keys;
  }

  /** Adding a known sink changes nothing, and removing one forgets it alone: adding it again starts from nothing. */
  lemma ReAddedStartsOver(s: State, id: SinkId)
    ensures id in s.sinks ==> AddSink(s, id) == s
    ensures var gone := RemoveSink(s, id);
            && id !in gone.sinks
            && (forall i :: i in s.sinks && i != id ==> i in gone.sinks && gone.sinks[i] == s.sinks[i])
            && gone.ring == s.ring && gone.take == s.take && gone.produced == s.produced && gone.final == s.final
            && gone.sinks.Keys <= s.sinks.Keys
            && AddSink(gone, id).sinks[id].proven == {}
  {
  }

  /** Only ACKs and backfill requests for this stream, from registered sinks, do anything. */
  lemma ForeignIgnored(s: State, id: SinkId, f: Frame)
    requires id !in s.sinks || (f.AckFrame? && f.ack.stream != s.stream)
          || (f.BackfillRequest? && f.list.stream != s.stream) || !(f.AckFrame? || f.BackfillRequest?)
    ensures HandleFrame(s, id, f) == s
  {
  }

  // ---- producing ------------------------------------------------------------------------------------------

  /** What an insert leaves pending is what it declared lost. */
  lemma PendingIsNew(r: Ring.State, log: seq<AudioChunk>, c: AudioChunk)
    requires |log| < U32_MAX && Partition(r, log) && r.pending == {} && c.seqNo == |log|
    ensures Ring.Insert(r, c).pending == Ring.Insert(r, c).gaps - r.gaps
  {
    assert |log| !in Below(|log|);
    Ring.InsertFacts(r, c);
    var grown, out := r.(used := r.used + Ring.ChunkCost(c), chunks := r.chunks[c.seqNo := c]), Ring.Insert(r, c);
    LostIsMoved(grown, out);
  }

  lemma LostIsMoved(r: Ring.State, out: Ring.State)
    requires Ring.EvictionPolicy(r, out) && r.pending == {} && r.gaps <= out.gaps
    ensures out.pending == out.gaps - r.gaps
  {
  }

  /**
   * A produced chunk is the newest of every sink's live queue, and what the ring declared lost for its sake is told
   * to every sink.
   */
  lemma ProducedEverywhere(s: State, log: seq<AudioChunk>, c: AudioChunk, id: SinkId)
    requires BooksOk(s, log) && |log| < U32_MAX && c.seqNo == |log| && Crc32c.Checksum(c.payload) == c.crc32c
    requires id in s.sinks
    ensures var out := Produce(s, c);
            && id in out.sinks && out.sinks[id].live == s.sinks[id].live + [c.seqNo]
            && out.sinks[id].backfill == s.sinks[id].backfill
            && ReportedBehind(s.stream, s.sinks[id], out.sinks[id], out.ring.gaps - s.ring.gaps)
  {
    var ring := Ring.Insert(s.ring, c);
    NotYetQueued(s, log, id);
    PendingIsNew(s.ring, log, c);
    hide Ring.Insert, BooksOk, Partition, Crc32c.Checksum, ReportedBehind;
    var tx := EnqueueLive(s.sinks[id], c.seqNo);
    ProducedAt(s, c, id, ring);
    GapsTold(s.stream, tx, ring.pending);
    assert ring.pending - tx.reported == ring.gaps - s.ring.gaps;
    SameControl(s.stream, s.sinks[id], tx, Produce(s, c).sinks[id], ring.gaps - s.ring.gaps);
  }

  lemma NotYetQueued(s: State, log: seq<AudioChunk>, id: SinkId)
    requires BooksOk(s, log) && id in s.sinks
    ensures s.nextSeq !in s.sinks[id].queued && s.nextSeq == |log| && s.sinks[id].reported <= s.ring.gaps
    ensures Partition(s.ring, log) && s.ring.pending == {}
  {
    assert TxOk(s.sinks[id], s.nextSeq, s.ring.gaps);
  }

  lemma ProducedAt(s: State, c: AudioChunk, id: SinkId, ring: Ring.State)
    requires s.nextSeq < U32_MAX && id in s.sinks && ring == Ring.Insert(s.ring, c)
    ensures var out := Produce(s, c);
            && id in out.sinks && out.ring.gaps == ring.gaps
            && out.sinks[id] == if ring.pending == {} then EnqueueLive(s.sinks[id], c.seqNo)
                                else QueueGapReport(s.stream, EnqueueLive(s.sinks[id], c.seqNo), ring.pending)
  {
  }

  lemma SameControl(stream: StreamKey, tx: Tx, mid: Tx, out: Tx, told: set<u32>)
    requires mid.control == tx.control && ReportedBehind(stream, mid, out, told)
    ensures ReportedBehind(stream, tx, out, told)
  {
  }
}
