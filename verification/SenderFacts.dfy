/** What every sender operation keeps: the partition of all audio, the transmit queues, the gap reports. */
module SenderFacts {
  import opened Machine
  import opened Sets
  import opened Ranges
  import opened Frames
  import Crc32c
  import Ring
  import opened Sender

  // ---- the invariant ---------------------------------------------------------

  /** The log is the history of produced chunks: chunk i has seq i and an honest checksum. */
  ghost predicate LogOk(log: seq<AudioChunk>) {
    |log| <= U32_MAX && forall i :: 0 <= i < |log| ==>
        log[i].seqNo == i && Crc32c.Checksum(log[i].payload) == log[i].crc32c
  }

  ghost predicate NoRepeats(q: seq<u32>) { forall i, j :: 0 <= i < j < |q| ==> q[i] != q[j] }

  /**
   * The two queues of one sink. Live is the consecutive ascending run ending at next_seq - 1; every backlog
   * seq is older than every live seq; nothing is queued twice; `queued` is exactly what the queues hold.
   */
  ghost predicate QueuesOk(tx: Tx, nextSeq: u32) {
    && |tx.live| <= nextSeq
    && (forall i :: 0 <= i < |tx.live| ==> tx.live[i] == nextSeq - |tx.live| + i)
    && NoRepeats(tx.backfill)
    && (forall s :: s in tx.backfill ==> s < nextSeq - |tx.live|)
    && tx.queued == Elems(tx.live) + Elems(tx.backfill)
  }

  /** Only declared gaps are ever reported. */
  ghost predicate ReportsOk(tx: Tx, gaps: set<u32>) {
    && (forall f :: f in tx.control ==> f.GapReport? && Members(f.list.ranges) <= gaps)
    && tx.reported <= gaps
  }

  /** Conservation inside the sender: every produced seq is resident, evicted after an ACK, or a declared gap. */
  ghost predicate Partition(r: Ring.State, log: seq<AudioChunk>)
    requires |log| <= U32_MAX
  {
    && Ring.Consistent(r)
    && r.chunks.Keys + r.evictedAcked + r.gaps == Below(|log|)
    && (forall s :: s in r.chunks ==> r.chunks[s] == log[s])
    && (|log| > 0 ==> 0 in r.chunks && |log| - 1 in r.chunks)
    && r.evictedAcked <= r.acked
  }

  /** Where the take stands. */
  ghost predicate LifecycleOk(s: State) {
    && (s.take.Idle? ==> s.nextSeq == 0)
    && (s.take.Streaming? ==> s.nextSeq > 0 && s.final == None)
    && (s.take.Draining? || s.take.Closed? ==> s.nextSeq > 0 && s.final == Some(s.nextSeq - 1))
    && (s.take.Idle? || s.take.Armed? ==> s.final == None)
    && !s.take.Armed?
  }

  ghost predicate SenderOk(s: State, log: seq<AudioChunk>) {
    match s
    case State(_, _, _, _, _, _, _, _) => BooksOk(s, log) && LifecycleOk(s)
  }

  ghost predicate BooksOk(s: State, log: seq<AudioChunk>) {
    match s
    case State(_, _, ring, produced, nextSeq, _, _, sinks) =>
      && LogOk(log) && nextSeq == |log| && produced == Below(|log|)
      && Partition(ring, log) && ring.pending == {}
      && forall id :: id in sinks ==> TxOk(sinks[id], nextSeq, ring.gaps)
  }

  ghost predicate TxOk(tx: Tx, nextSeq: u32, gaps: set<u32>) { QueuesOk(tx, nextSeq) && ReportsOk(tx, gaps) }

  // ---- queues -------------------------------------------------------------------

  lemma EnqueueLiveKeeps(tx: Tx, nextSeq: u32)
    requires QueuesOk(tx, nextSeq) && nextSeq < U32_MAX
    ensures QueuesOk(EnqueueLive(tx, nextSeq), nextSeq + 1)
  {
    assert nextSeq !in tx.queued;
    var out := EnqueueLive(tx, nextSeq);
    assert Elems(out.live) == Elems(tx.live) + {nextSeq};
  }

  /** Nothing at or above the start of the live run is missing from it. */
  lemma LiveCovers(tx: Tx, nextSeq: u32)
    requires QueuesOk(tx, nextSeq)
    ensures forall s: u32 :: nextSeq - |tx.live| <= s < nextSeq ==> s in tx.live
  {
    forall s: u32 | nextSeq - |tx.live| <= s < nextSeq ensures s in tx.live {
      assert tx.live[s - (nextSeq - |tx.live|)] == s;
    }
  }

  lemma RequeueKeeps(tx: Tx, ring: Ring.State, wanted: set<u32>, nextSeq: u32)
    requires QueuesOk(tx, nextSeq)
    requires forall s :: s in ring.chunks ==> s < nextSeq
    ensures QueuesOk(Requeue(tx, ring, wanted), nextSeq)
  {
    var missing := (wanted * ring.chunks.Keys) - tx.queued;
    AscendingFacts(missing);
    LiveCovers(tx, nextSeq);
    var more := Ascending(missing);
    assert forall s :: s in more ==> s < nextSeq - |tx.live|;
    var out := Requeue(tx, ring, wanted);
    assert Elems(out.backfill) == Elems(tx.backfill) + missing;
    forall i, j | 0 <= i < j < |out.backfill| ensures out.backfill[i] != out.backfill[j] {
      if i < |tx.backfill| <= j {
        assert out.backfill[i] in tx.queued;
        assert out.backfill[j] in more;
      }
    }
  }

  lemma DemoteKeeps(tx: Tx, nextSeq: u32)
    requires QueuesOk(tx, nextSeq)
    ensures Sorted(tx.live) == tx.live
    ensures QueuesOk(tx.(connected := false, live := [], backfill := tx.backfill + tx.live), nextSeq)
  {
    SortedIsSame(tx.live);
    var out := tx.backfill + tx.live;
    assert Elems(out) == Elems(tx.live) + Elems(tx.backfill);
    forall i, j | 0 <= i < j < |out| ensures out[i] != out[j] {
      if i < |tx.backfill| <= j { assert out[i] in tx.backfill; }
    }
  }

  lemma {:induction false} PopChunkKeeps(tx: Tx, ring: Ring.State, nextSeq: u32)
    requires QueuesOk(tx, nextSeq)
    ensures var (out, c) := PopChunk(tx, ring);
            && QueuesOk(out, nextSeq)
            && out.connected == tx.connected && out.proven == tx.proven && out.chwm == tx.chwm
            && out.control == tx.control && out.reported == tx.reported
            && |out.live| + |out.backfill| <= |tx.live| + |tx.backfill|
            && (c.Some? ==> |out.live| + |out.backfill| < |tx.live| + |tx.backfill|)
            && (c.None? ==> out.live == [] && out.backfill == [])
            && (c.Some? ==> exists s :: s in ring.chunks && s !in tx.proven && c.value == ring.chunks[s])
    decreases |tx.live| + |tx.backfill|
  {
    if tx.live != [] || tx.backfill != [] {
      var s := if tx.live != [] then tx.live[0] else tx.backfill[0];
      var rest := if tx.live != [] then tx.(live := tx.live[1..]) else tx.(backfill := tx.backfill[1..]);
      var out := rest.(queued := tx.queued - {s});
      PopOneKeeps(tx, nextSeq);
      if s in tx.proven || s !in ring.chunks { PopChunkKeeps(out, ring, nextSeq); }
    }
  }

  lemma PopOneKeeps(tx: Tx, nextSeq: u32)
    requires QueuesOk(tx, nextSeq)
    requires tx.live != [] || tx.backfill != []
    ensures var s := if tx.live != [] then tx.live[0] else tx.backfill[0];
            var rest := if tx.live != [] then tx.(live := tx.live[1..]) else tx.(backfill := tx.backfill[1..]);
            QueuesOk(rest.(queued := tx.queued - {s}), nextSeq)
  {
    if tx.live != [] {
      assert tx.live == [tx.live[0]] + tx.live[1..];
      assert tx.live[0] !in tx.live[1..];
      assert Elems(tx.live[1..]) == Elems(tx.live) - {tx.live[0]};
    } else {
      assert tx.backfill == [tx.backfill[0]] + tx.backfill[1..];
      assert forall s :: s in tx.backfill[1..] ==> s in tx.backfill;
      assert tx.backfill[0] !in tx.backfill[1..];
      assert Elems(tx.backfill[1..]) == Elems(tx.backfill) - {tx.backfill[0]};
    }
  }

  // ---- gap reports ----------------------------------------------------------------

  lemma QueueGapReportKeeps(stream: StreamKey, tx: Tx, lost: set<u32>, gaps: set<u32>, nextSeq: u32)
    requires ReportsOk(tx, gaps) && lost <= gaps && QueuesOk(tx, nextSeq)
    ensures ReportsOk(QueueGapReport(stream, tx, lost), gaps)
    ensures QueuesOk(QueueGapReport(stream, tx, lost), nextSeq)
  {
    var unreported := lost - tx.reported;
    RangesOfFacts(unreported);
    forall f | f in GapFrames(stream, RangesOf(unreported)) ensures f.GapReport? && Members(f.list.ranges) <= gaps {
      GapFrameFacts(stream, unreported, f);
    }
  }

  /** The batches of one report cover exactly the unreported gaps. */
  lemma GapFrameFacts(stream: StreamKey, lost: set<u32>, f: Frame)
    requires f in GapFrames(stream, RangesOf(lost))
    ensures f.GapReport? && Members(f.list.ranges) <= lost
  {
    RangesOfFacts(lost);
    var i :| 0 <= i < |GapFrames(stream, RangesOf(lost))| && GapFrames(stream, RangesOf(lost))[i] == f;
    forall x: u32 | x in Members(f.list.ranges) ensures x in lost {
      SplitCovers(RangesOf(lost), x);
      assert f.list.ranges in SplitForFrames(RangesOf(lost));
      assert x in Members(RangesOf(lost));
    }
  }

  lemma GapFramesComplete(stream: StreamKey, lost: set<u32>, x: u32)
    requires x in lost
    ensures exists f :: f in GapFrames(stream, RangesOf(lost)) && x in Members(f.list.ranges)
  {
    RangesOfFacts(lost);
    var rs := RangesOf(lost);
    assert x in Members(rs);
    SplitCovers(rs, x);
    var b :| b in SplitForFrames(rs) && Covers(b, x);
    var i :| 0 <= i < |SplitForFrames(rs)| && SplitForFrames(rs)[i] == b;
    assert GapFrames(stream, rs)[i] in GapFrames(stream, rs);
  }

  lemma ReportsMono(tx: Tx, a: set<u32>, b: set<u32>)
    requires ReportsOk(tx, a) && a <= b
    ensures ReportsOk(tx, b)
  {
  }

  // ---- each operation keeps the invariant -------------------------------------------

  lemma NewKeeps(stream: StreamKey, budget: nat)
    ensures SenderOk(New(stream, budget), [])
  {
    assert Below(0) == {};
    Ring.EmptyCost(U32_MAX + 1);
  }

  lemma InsertKeepsPartition(r: Ring.State, log: seq<AudioChunk>, c: AudioChunk)
    requires |log| < U32_MAX && Partition(r, log) && c.seqNo == |log|
    ensures Partition(Ring.Insert(r, c), log + [c])
    ensures r.gaps <= Ring.Insert(r, c).gaps && Ring.Insert(r, c).acked == r.acked
    ensures Ring.Insert(r, c).pending - r.pending <= Ring.Insert(r, c).gaps
  {
    assert |log| !in Below(|log|);
    Ring.InsertFacts(r, c);
    GrownFacts(r, log, c);
    MovePartitions(r.(used := r.used + Ring.ChunkCost(c), chunks := r.chunks[c.seqNo := c]), Ring.Insert(r, c),
        log + [c]);
  }

  lemma GrownFacts(r: Ring.State, log: seq<AudioChunk>, c: AudioChunk)
    requires |log| < U32_MAX && Partition(r, log) && c.seqNo == |log|
    ensures var chunks := r.chunks[c.seqNo := c];
            && chunks.Keys + r.evictedAcked + r.gaps == Below(|log| + 1)
            && (forall s :: s in chunks ==> chunks[s] == (log + [c])[s])
            && 0 in chunks && Ring.IsNewest(chunks, |log|)
  {
    assert forall t :: t in r.chunks ==> t in Below(|log|);
    assert Below(|log| + 1) == Below(|log|) + {c.seqNo};
    assert r.chunks[c.seqNo := c].Keys == r.chunks.Keys + {c.seqNo};
    if |log| == 0 { assert Below(0) == {}; }
  }

  /** Moving chunks out by the eviction policy moves them between the parts of the partition. */
  lemma MovePartitions(r: Ring.State, out: Ring.State, log: seq<AudioChunk>)
    requires |log| <= U32_MAX && Ring.Consistent(out)
    requires r.chunks.Keys + r.evictedAcked + r.gaps == Below(|log|)
    requires forall s :: s in r.chunks ==> r.chunks[s] == log[s]
    requires |log| > 0 ==> 0 in r.chunks && Ring.IsNewest(r.chunks, |log| - 1)
    requires r.evictedAcked <= r.acked
    requires Ring.EvictionPolicy(r, out)
    ensures Partition(out, log)
    ensures r.gaps <= out.gaps && out.acked == r.acked && out.pending - r.pending <= out.gaps
  {
    var recoverable, lost := out.evictedAcked - r.evictedAcked, out.gaps - r.gaps;
    assert out.chunks.Keys == r.chunks.Keys - (recoverable + lost);
    assert recoverable + lost <= Ring.Evictable(r.chunks) <= r.chunks.Keys;
    assert out.chunks.Keys + out.evictedAcked + out.gaps == r.chunks.Keys + r.evictedAcked + r.gaps;
  }

  lemma ProduceKeeps(s: State, c: AudioChunk, log: seq<AudioChunk>)
    requires BooksOk(s, log) && |log| < U32_MAX
    requires c.seqNo == |log| && Crc32c.Checksum(c.payload) == c.crc32c
    ensures BooksOk(Produce(s, c), log + [c])
    ensures SameTake(s, Produce(s, c)) && s.ring.gaps <= Produce(s, c).ring.gaps
  {
    InsertKeepsPartition(s.ring, log, c);
    var ring := Ring.Insert(s.ring, c);
    var out := Produce(s, c);
    ProduceShape(s, c);
    DrainKeeps(ring, log + [c]);
    ProduceSinksKeep(s, c, ring);
    LogGrows(log, c);
    Rebooked(out, log + [c]);
  }

  lemma LogGrows(log: seq<AudioChunk>, c: AudioChunk)
    requires LogOk(log) && |log| < U32_MAX && c.seqNo == |log| && Crc32c.Checksum(c.payload) == c.crc32c
    ensures LogOk(log + [c]) && Below(|log| + 1) == Below(|log|) + {c.seqNo}
  {
  }

  /** The books after one more chunk, put together from their parts. */
  lemma Rebooked(out: State, log: seq<AudioChunk>)
    requires LogOk(log) && out.nextSeq == |log| && out.produced == Below(|log|)
    requires Partition(out.ring, log) && out.ring.pending == {}
    requires forall id :: id in out.sinks ==> TxOk(out.sinks[id], out.nextSeq, out.ring.gaps)
    ensures BooksOk(out, log)
  {
  }

  lemma ProduceSinksKeep(s: State, c: AudioChunk, ring: Ring.State)
    requires s.nextSeq < U32_MAX && c.seqNo == s.nextSeq && ring == Ring.Insert(s.ring, c)
    requires forall id :: id in s.sinks ==> TxOk(s.sinks[id], s.nextSeq, s.ring.gaps)
    requires s.ring.gaps <= ring.gaps && ring.pending <= ring.gaps
    ensures var out := Produce(s, c);
            forall id :: id in out.sinks ==> TxOk(out.sinks[id], s.nextSeq + 1, ring.gaps)
  {
    var out := Produce(s, c);
    forall id | id in out.sinks
      ensures TxOk(out.sinks[id], s.nextSeq + 1, ring.gaps)
    {
      ProduceTxKeeps(s, c, id, ring);
    }
  }

  lemma ProduceShape(s: State, c: AudioChunk)
    requires s.nextSeq < U32_MAX
    ensures var out := Produce(s, c);
            && out.nextSeq == s.nextSeq + 1 && out.produced == s.produced + {c.seqNo}
            && out.ring == Ring.Insert(s.ring, c).(pending := {})
            && out.take == s.take && out.final == s.final && out.stream == s.stream && out.nextFirst == s.nextFirst
            && out.sinks.Keys == s.sinks.Keys
            && (forall id :: id in s.sinks ==>
                out.sinks[id].proven == s.sinks[id].proven && out.sinks[id].connected == s.sinks[id].connected)
  {
  }

  lemma DrainKeeps(r: Ring.State, log: seq<AudioChunk>)
    requires |log| <= U32_MAX && Partition(r, log)
    ensures Partition(r.(pending := {}), log)
  {
  }

  lemma ProduceTxKeeps(s: State, c: AudioChunk, id: SinkId, ring: Ring.State)
    requires s.nextSeq < U32_MAX && id in s.sinks && c.seqNo == s.nextSeq && ring == Ring.Insert(s.ring, c)
    requires QueuesOk(s.sinks[id], s.nextSeq) && ReportsOk(s.sinks[id], s.ring.gaps)
    requires s.ring.gaps <= ring.gaps && ring.pending <= ring.gaps
    ensures var out := Produce(s, c);
            QueuesOk(out.sinks[id], s.nextSeq + 1) && ReportsOk(out.sinks[id], ring.gaps)
  {
    EnqueueLiveKeeps(s.sinks[id], s.nextSeq);
    var tx := EnqueueLive(s.sinks[id], c.seqNo);
    ReportsMono(tx, s.ring.gaps, ring.gaps);
    QueueGapReportKeeps(s.stream, tx, ring.pending, ring.gaps, s.nextSeq + 1);
  }

  /** What producing a chunk leaves alone: the take's stage, the sinks' proofs, and what is acknowledged. */
  ghost predicate SameTake(s: State, out: State) {
    && out.take == s.take && out.final == s.final && out.stream == s.stream && out.nextFirst == s.nextFirst
    && out.ring.acked == s.ring.acked
    && out.sinks.Keys == s.sinks.Keys
    && forall id :: id in s.sinks ==>
        out.sinks[id].proven == s.sinks[id].proven && out.sinks[id].connected == s.sinks[id].connected
  }

  lemma ArmKeeps(s: State, log: seq<AudioChunk>, ts: u64, header: seq<byte>)
    requires SenderOk(s, log) && s.take.Idle? && Room(s, 0)
    ensures SenderOk(Arm(s, ts, header), log + [ChunkFor(s.stream, 0, 0, 0, ts, header)])
  {
    ProduceKeeps(s, ChunkFor(s.stream, 0, 0, 0, ts, header), log);
  }

  lemma PushKeeps(s: State, log: seq<AudioChunk>, count: u32, ts: u64, payload: seq<byte>)
    requires SenderOk(s, log) && s.take.Streaming? && Room(s, count)
    ensures SenderOk(PushAudio(s, count, ts, payload), log + [ChunkFor(s.stream, s.nextSeq, s.nextFirst, count, ts,
        payload)])
  {
    hide Partition, LogOk, TxOk;
    ProduceKeeps(s.(nextFirst := s.nextFirst + count), ChunkFor(s.stream, s.nextSeq, s.nextFirst, count, ts,
        payload), log);
  }

  /** Replacing one sink's record by a sound one keeps the sender sound. */
  lemma SinkUpdateKeeps(s: State, log: seq<AudioChunk>, id: SinkId, tx: Tx)
    requires SenderOk(s, log) && TxOk(tx, s.nextSeq, s.ring.gaps)
    ensures SenderOk(s.(sinks := s.sinks[id := tx]), log)
  {
  }

  lemma MarkAckedKeeps(s: State, log: seq<AudioChunk>, proven: set<u32>)
    requires SenderOk(s, log)
    ensures SenderOk(s.(ring := Ring.MarkAcked(s.ring, proven)), log)
  {
  }

  lemma TryCloseKeeps(s: State, log: seq<AudioChunk>)
    requires SenderOk(s, log)
    ensures SenderOk(TryClose(s), log)
  {
  }

  lemma FinishKeeps(s: State, log: seq<AudioChunk>)
    requires SenderOk(s, log)
    ensures SenderOk(Finish(s), log)
  {
    if s.take.Streaming? {
      var draining := s.(final := Some(s.nextSeq - 1), take := Draining);
      assert LifecycleOk(draining);
      TryCloseKeeps(draining, log);
    }
  }

  lemma AddSinkKeeps(s: State, log: seq<AudioChunk>, id: SinkId)
    requires SenderOk(s, log)
    ensures SenderOk(AddSink(s, id), log)
  {
    var keys := s.ring.chunks.Keys;
    NewTxOk(keys, |log|, s.ring.gaps);
    if id !in s.sinks { SinkUpdateKeeps(s, log, id, NEW_TX.(queued := keys, backfill := Ascending(keys))); }
  }

  lemma NewTxOk(keys: set<u32>, nextSeq: u32, gaps: set<u32>)
    requires keys <= Below(nextSeq)
    ensures TxOk(NEW_TX.(queued := keys, backfill := Ascending(keys)), nextSeq, gaps)
  {
    AscendingFacts(keys);
    assert Elems(Ascending(keys)) == keys;
    assert forall q :: q in Ascending(keys) ==> q in Below(nextSeq);
  }

  lemma RemoveSinkKeeps(s: State, log: seq<AudioChunk>, id: SinkId)
    requires SenderOk(s, log)
    ensures SenderOk(RemoveSink(s, id), log)
  {
  }

  lemma SetConnectedKeeps(s: State, log: seq<AudioChunk>, id: SinkId, up: bool)
    requires SenderOk(s, log)
    ensures SenderOk(SetConnected(s, id, up), log)
  {
    if id in s.sinks {
      DemoteKeeps(s.sinks[id], s.nextSeq);
      SinkUpdateKeeps(s, log, id, SetConnected(s, id, up).sinks[id]);
    }
  }

  lemma PopKeeps(s: State, log: seq<AudioChunk>, id: SinkId)
    requires SenderOk(s, log)
    ensures SenderOk(PopFrame(s, id).0, log)
    ensures SameProofs(s, PopFrame(s, id).0)
    ensures PopFrame(s, id).1.Some? ==> HonestFrame(PopFrame(s, id).1.value, log, s.ring.gaps)
  {
    hide Partition, LogOk, TxOk, PopTx, HonestFrame;
    if id in s.sinks {
      PopTxKeeps(s.sinks[id], s.ring, log, s.nextSeq);
      SinkUpdateKeeps(s, log, id, PopTx(s.sinks[id], s.ring).0);
    }
  }

  /** The same sinks with the same proofs. */
  ghost predicate SameProofs(s: State, out: State) {
    out.sinks.Keys == s.sinks.Keys && forall i :: i in s.sinks ==> out.sinks[i].proven == s.sinks[i].proven
  }

  /** A frame the sender may put on the wire: a chunk as produced, or a report of declared gaps. */
  ghost predicate HonestFrame(f: Frame, log: seq<AudioChunk>, gaps: set<u32>) {
    || (f.ChunkFrame? && f.chunk.seqNo < |log| && f.chunk == log[f.chunk.seqNo])
    || (f.GapReport? && Members(f.list.ranges) <= gaps)
  }

  lemma PopTxKeeps(tx: Tx, ring: Ring.State, log: seq<AudioChunk>, nextSeq: u32)
    requires |log| <= U32_MAX && Partition(ring, log) && LogOk(log)
    requires TxOk(tx, nextSeq, ring.gaps)
    ensures var (out, f) := PopTx(tx, ring);
            && TxOk(out, nextSeq, ring.gaps)
            && out.proven == tx.proven && out.connected == tx.connected
            && (f.Some? ==> HonestFrame(f.value, log, ring.gaps))
  {
    if tx.connected && tx.control == [] {
      PopChunkKeeps(tx, ring, nextSeq);
      assert forall s :: s in ring.chunks ==> s in Below(|log|);
    } else if tx.connected {
      assert tx.control[0] in tx.control;
    }
  }

  lemma HandleBackfillKeeps(s: State, log: seq<AudioChunk>, id: SinkId, ranges: seq<SeqRange>)
    requires SenderOk(s, log)
    ensures SenderOk(HandleBackfill(s, id, ranges), log)
    ensures SameProofs(s, HandleBackfill(s, id, ranges))
  {
    hide LogOk, TxOk, BackfillTx;
    if id in s.sinks {
      BackfillTxOk(s.stream, s.sinks[id], s.ring, Members(ranges), s.nextSeq);
      SinkUpdateKeeps(s, log, id, BackfillTx(s.stream, s.sinks[id], s.ring, Members(ranges)));
    }
  }

  lemma BackfillTxOk(stream: StreamKey, tx: Tx, ring: Ring.State, wanted: set<u32>, nextSeq: u32)
    requires TxOk(tx, nextSeq, ring.gaps) && ring.chunks.Keys <= Below(nextSeq)
    ensures TxOk(BackfillTx(stream, tx, ring, wanted), nextSeq, ring.gaps)
    ensures BackfillTx(stream, tx, ring, wanted).proven == tx.proven
  {
    var gapped := wanted * ring.gaps;
    QueueGapReportKeeps(stream, tx, gapped, ring.gaps, nextSeq);
    RequeueKeeps(if gapped == {} then tx else QueueGapReport(stream, tx, gapped), ring, wanted, nextSeq);
  }

  lemma HandleAckKeeps(s: State, log: seq<AudioChunk>, id: SinkId, ack: AckStatus)
    requires SenderOk(s, log)
    ensures SenderOk(HandleAck(s, id, ack), log)
  {
    if id in s.sinks {
      var proven := ProvenBy(ack);
      MarkAckedKeeps(s, log, proven);
      var marked := s.(ring := Ring.MarkAcked(s.ring, proven));
      AckTxOk(s.stream, s.sinks[id], marked.ring, proven, ack, s.produced, s.nextSeq);
      SinkUpdateKeeps(marked, log, id, AckTx(s.stream, s.sinks[id], marked.ring, proven, ack, s.produced));
      TryCloseKeeps(marked.(sinks := s.sinks[id := AckTx(s.stream, s.sinks[id], marked.ring, proven, ack,
          s.produced)]), log);
    }
  }

  lemma AckTxOk(stream: StreamKey, tx: Tx, ring: Ring.State, proven: set<u32>, ack: AckStatus, produced: set<u32>,
      nextSeq: u32)
    requires TxOk(tx, nextSeq, ring.gaps) && ring.chunks.Keys <= Below(nextSeq)
    ensures TxOk(AckTx(stream, tx, ring, proven, ack, produced), nextSeq, ring.gaps)
  {
    var tx0 := tx.(proven := proven, chwm := ack.chwm);
    RequeueKeeps(tx0, ring, produced - proven - ring.gaps, nextSeq);
    var tx1 := Requeue(tx0, ring, produced - proven - ring.gaps);
    QueueGapReportKeeps(stream, tx1.(reported := {}), Members(ack.holes) * ring.gaps, ring.gaps, nextSeq);
  }
}
