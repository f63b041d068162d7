/** The recorder-side stream engine as it runs: objects updated in place, proved against the sender's state functions.
    */
module StreamSender {
  import opened Machine
  import opened Sets
  import opened Ranges
  import opened Frames
  import Ring
  import ChunkRing
  import Sender
  import SinkTx
  import opened SinkTable

  datatype TakeStateError = TakeStateError(op: string, state: Sender.TakeState)

  ghost function RingModel(ring: ChunkRing.ChunkRing): Option<Ring.State>
    reads ring, ring.Repr
  {
    if ring.Valid() then Some(ring.Abs()) else None
  }

  /** Rebuild what an ACK snapshot proves: 0..=chwm, and what lies strictly between holes. */
  method Proven(ack: AckStatus) returns (proven: RangeSet)
    ensures fresh(proven) && proven.Valid()
    ensures proven.Contents() == Sender.ProvenBy(ack)
  {
    proven := new RangeSet();
    if ack.chwm != CHWM_NONE { proven.InsertRange(SeqRange(0, ack.chwm)); }
    var cursor: u32 := if ack.chwm == CHWM_NONE then 0 else ack.chwm + 1;
    for i := 0 to |ack.holes|
      invariant fresh(proven) && proven.Valid()
      invariant proven.Contents() + Sender.BetweenHoles(cursor, ack.holes[i..]) == Sender.ProvenBy(ack)
    {
      var hole := ack.holes[i];
      assert ack.holes[i..][0] == hole && ack.holes[i..][1..] == ack.holes[i + 1..];
      if hole.start > cursor { proven.InsertRange(SeqRange(cursor, hole.start - 1)); }
      cursor := if hole.end == U32_MAX then U32_MAX else hole.end + 1;
    }
    assert ack.holes[|ack.holes|..] == [];
  }

  class StreamSender {
    const stream: StreamKey
    var state: Sender.TakeState
    const ring: ChunkRing.ChunkRing
    /** Every seq ever produced. */
    const produced: RangeSet
    var nextSeq: u32
    var nextFirstSampleIndex: u64
    var finalSeq: Option<u32>
    var sinks: map<SinkId, SinkTx.SinkTx>
    /** The objects the sinks' records are made of. */
    ghost var sinkRepr: set<object>
    /** The abstract values of the ring and of the records. */
    ghost var ringState: Ring.State
    ghost var txs: map<SinkId, Sender.Tx>

    ghost function Core(): set<object> { {this, produced, ring} + ring.Repr }

    ghost predicate Valid()
      reads this, produced, ring, ring.Repr, sinkRepr
    {
      && this !in ring.Repr && ring in ring.Repr && produced !in ring.Repr && Core() !! sinkRepr
      && produced.Valid() && RingModel(ring) == Some(ringState)
      && Denote(sinks, sinkRepr, txs)
    }

    ghost function Abs(): Sender.State
      reads this, produced
    {
      Sender.State(stream, state, ringState, produced.Contents(), nextSeq, nextFirstSampleIndex, finalSeq, txs)
    }

    lemma SameSinks()
      requires Valid()
      ensures txs.Keys == sinks.Keys
    {
          }

    constructor (stream: StreamKey, ringBudgetBytes: nat)
      ensures Valid() && fresh(Core()) && sinks == map[] && sinkRepr == {}
      ensures Abs() == Sender.New(stream, ringBudgetBytes)
    {
      this.stream := stream;
      state := Sender.Idle;
      ring := new ChunkRing.ChunkRing(ringBudgetBytes);
      produced := new RangeSet();
      nextSeq := 0;
      nextFirstSampleIndex := 0;
      finalSeq := None;
      sinks := map[];
      sinkRepr := {};
      txs := map[];
      ringState := Ring.Empty(ringBudgetBytes);
      new;
          }

    // ---- take lifecycle ---------------------------------------------------------

    method Arm(clockEpochUs: u64, header: seq<byte>) returns (r: Result<(), TakeStateError>)
      requires Valid() && (state.Idle? ==> Sender.Room(Abs(), 0))
      modifies Core(), sinkRepr
      ensures Valid() && unchanged(`sinks, `sinkRepr)
      ensures Abs() == Sender.Arm(old(Abs()), clockEpochUs, header)
      ensures r.Ok? <==> old(state).Idle?
    {
      hide RingModel;
      hide Denote;
      if state != Sender.Idle { return Err(TakeStateError("arm()", state)); }
      state := Sender.Armed;
      var chunk := Sender.ChunkFor(stream, 0, 0, 0, clockEpochUs, header);
      Produce(chunk);
      state := Sender.Streaming;
      return Ok(());
    }

    method PushAudio(count: u32, ts: u64, payload: seq<byte>) returns (r: Result<u32, TakeStateError>)
      requires Valid() && (state.Streaming? ==> Sender.Room(Abs(), count))
      modifies Core(), sinkRepr
      ensures Valid() && unchanged(`sinks, `sinkRepr)
      ensures Abs() == Sender.PushAudio(old(Abs()), count, ts, payload)
      ensures if old(state).Streaming? then r == Ok(old(nextSeq)) else r.Err?
    {
      hide Denote;
      if state != Sender.Streaming { return Err(TakeStateError("push_audio()", state)); }
      var s := nextSeq;
      var chunk := Sender.ChunkFor(stream, s, nextFirstSampleIndex, count, ts, payload);
      nextFirstSampleIndex := nextFirstSampleIndex + count;
      Produce(chunk);
      return Ok(s);
    }

    method Finish() returns (r: Result<(), TakeStateError>)
      requires Valid() && (state.Streaming? ==> nextSeq > 0)
      modifies `state, `finalSeq
      ensures Valid()
      ensures Abs() == Sender.Finish(old(Abs()))
      ensures r.Ok? <==> old(state).Streaming?
    {
      hide Denote;
      if state != Sender.Streaming { return Err(TakeStateError("finish()", state)); }
      finalSeq := Some(nextSeq - 1);
      state := Sender.Draining;
      TryClose();
      return Ok(());
    }

    method Produce(chunk: AudioChunk)
      requires Valid() && nextSeq < U32_MAX
      modifies Core(), sinkRepr
      ensures Valid() && unchanged(`sinks, `sinkRepr)
      ensures Abs() == Sender.Produce(old(Abs()), chunk)
    {
      hide Denote;
      Number(chunk.seqNo);
      Retain(chunk);
      Offer(chunk.seqNo);
      BroadcastNewGaps();
    }

    method Number(s: u32)
      requires Valid() && nextSeq < U32_MAX
      modifies `nextSeq, produced
      ensures Valid()
      ensures Abs() == old(Abs()).(nextSeq := old(nextSeq) + 1, produced := old(Abs()).produced + {s})
    {
      hide Denote;
      nextSeq := nextSeq + 1;
      produced.Insert(s);
    }

    method Retain(chunk: AudioChunk)
      requires Valid()
      modifies `ringState, ring.Repr
      ensures Valid()
      ensures Abs() == old(Abs()).(ring := Ring.Insert(old(Abs()).ring, chunk))
    {
      hide Denote;
      ring.Insert(chunk);
      ringState := Ring.Insert(ringState, chunk);
    }

    method Offer(s: u32)
      requires Valid()
      modifies `txs, sinkRepr
      ensures Valid()
      ensures Abs() == old(Abs()).(sinks := Sender.EnqueueAll(old(Abs()).sinks, s))
    {
      hide Denote;
      EveryoneQueued(txs, txs.Keys, s);
      txs := EnqueueAll(sinks, sinkRepr, txs, s);
    }

    method TakeNewGaps() returns (newGaps: RangeSet)
      requires Valid()
      modifies `ringState, ring.Repr
      ensures Valid()
      ensures fresh(newGaps) && newGaps.Valid() && newGaps.Contents() == old(Abs()).ring.pending
      ensures Abs() == old(Abs()).(ring := old(Abs()).ring.(pending := {}))
    {
      hide Denote;
      newGaps := ring.TakePendingGaps();
      ringState := ringState.(pending := {});
    }

    method Report(gaps: RangeSet)
      requires Valid() && gaps.Valid() && gaps !in Core() && gaps !in sinkRepr
      modifies `txs, sinkRepr
      ensures Valid()
      ensures Abs() == old(Abs()).(sinks := Sender.ReportAll(stream, old(Abs()).sinks, old(gaps.Contents())))
    {
      hide Denote;
      EveryoneTold(txs, txs.Keys, stream, gaps.Contents());
      txs := ReportAll(sinks, sinkRepr, txs, stream, gaps);
    }

    /** Ring eviction may declare gaps at any insert; tell every sink once. */
    method BroadcastNewGaps()
      requires Valid()
      modifies Core(), sinkRepr
      ensures Valid() && unchanged(`sinks, `sinkRepr)
      ensures Abs() == Sender.BroadcastNewGaps(old(Abs()))
    {
      hide Denote;
      var newGaps := TakeNewGaps();
      newGaps.EmptyMeans();
      if newGaps.IsEmpty() { return; }
      Report(newGaps);
    }

    // ---- sink management ----------------------------------------------------------

    /** A new sink is owed everything still resident; re-adding one changes nothing. */
    method AddSink(id: SinkId)
      requires Valid()
      modifies this
      ensures Valid() && fresh(sinkRepr - old(sinkRepr))
      ensures Abs() == Sender.AddSink(old(Abs()), id)
    {
      hide Denote;
      SameSinks();
      if id in sinks { return; }
      var tx := NewTx(ring);
      DenoteWith(sinks, sinkRepr, txs, id, tx);
      sinks := sinks[id := tx];
      sinkRepr := sinkRepr + tx.Repr;
      txs := txs[id := tx.Abs()];
    }

    method RemoveSink(id: SinkId)
      requires Valid()
      modifies this
      ensures Valid() && sinkRepr == old(sinkRepr)
      ensures Abs() == Sender.RemoveSink(old(Abs()), id)
    {
      hide Denote;
      DenoteWithout(sinks, sinkRepr, txs, id);
      sinks := sinks - {id};
      txs := txs - {id};
    }

    method SetConnected(id: SinkId, up: bool)
      requires Valid()
      modifies `txs, sinkRepr
      ensures Valid()
      ensures Abs() == Sender.SetConnected(old(Abs()), id, up)
    {
      hide Denote;
      SameSinks();
      if id !in sinks { return; }
      txs := ConnectAt(sinks, sinkRepr, txs, id, up);
    }

    // ---- inbound frames -----------------------------------------------------------

    /** Deliver a frame received from a sink; frames of other streams or kinds are ignored. */
    method HandleFrame(id: SinkId, frame: Frame)
      requires Valid()
      modifies Core(), sinkRepr
      ensures Valid() && unchanged(`sinks, `sinkRepr)
      ensures Abs() == Sender.HandleFrame(old(Abs()), id, frame)
    {
      hide Denote;
      match frame {
        case AckFrame(ack) => if ack.stream == stream { HandleAck(id, ack); }
        case BackfillRequest(req) => if req.stream == stream { HandleBackfillRequest(id, req); }
        case _ =>
      }
    }

    method HandleAck(id: SinkId, ack: AckStatus)
      requires Valid()
      modifies Core(), sinkRepr
      ensures Valid() && unchanged(`sinks, `sinkRepr)
      ensures Abs() == Sender.HandleAck(old(Abs()), id, ack)
    {
      hide Denote;
      SameSinks();
      if id !in sinks { return; }
      var proven := Proven(ack);
      MarkAcked(proven);
      Settle(id, proven, ack);
      TryClose();
    }

    /** Anything proven held by any sink is safe to evict. */
    method MarkAcked(proven: RangeSet)
      requires Valid() && proven.Valid() && proven !in Core() && proven !in sinkRepr
      modifies `ringState, ring.Repr
      ensures Valid()
      ensures proven.Valid() && proven.Contents() == old(proven.Contents())
      ensures Abs() == old(Abs()).(ring := Ring.MarkAcked(old(ringState), proven.Contents()))
    {
      hide Denote;
      ring.MarkAcked(proven);
      ringState := Ring.MarkAcked(ringState, proven.Contents());
    }

    method Settle(id: SinkId, proven: RangeSet, ack: AckStatus)
      requires Valid() && id in txs && proven.Valid() && proven !in Core() && proven !in sinkRepr
      modifies `txs, sinkRepr
      ensures Valid()
      ensures Abs() == old(Abs()).(sinks := old(txs)[id := Sender.AckTx(stream, old(txs)[id], ringState,
          proven.Contents(), ack, old(Abs()).produced)])
    {
      hide Denote;
      txs := SettleAt(sinks, sinkRepr, txs, id, stream, ring, proven, ack, produced);
    }

    method HandleBackfillRequest(id: SinkId, req: RangeList)
      requires Valid()
      modifies `txs, sinkRepr
      ensures Valid()
      ensures Abs() == Sender.HandleBackfill(old(Abs()), id, req.ranges)
    {
      hide Denote;
      SameSinks();
      if id !in sinks { return; }
      txs := BackfillAt(sinks, sinkRepr, txs, id, stream, ring, req.ranges);
    }

    // ---- outbound frames ------------------------------------------------------------

    /** The next frame owed to a sink: control, then live, then backlog. */
    method PopFrame(id: SinkId) returns (f: Option<Frame>)
      requires Valid()
      modifies `txs, sinkRepr
      ensures Valid()
      ensures (Abs(), f) == Sender.PopFrame(old(Abs()), id)
    {
      hide Denote;
      SameSinks();
      if id !in sinks { return None; }
      f, txs := PopAt(sinks, sinkRepr, txs, id, ring);
    }

    // ---- drain and completion -------------------------------------------------------

    method TryClose()
      requires Valid()
      modifies `state
      ensures Valid()
      ensures Abs() == Sender.TryClose(old(Abs()))
    {
      hide Denote;
      if state == Sender.Draining {
        var drained := DrainedAll();
        if drained { Close(); }
      }
    }

    method Close()
      requires Valid()
      modifies `state
      ensures Valid()
      ensures Abs() == old(Abs()).(take := Sender.Closed)
    {
      hide Denote;
      state := Sender.Closed;
    }

    /** Does this sink provably hold everything produced except declared gaps? */
    method SinkSettled(id: SinkId) returns (b: bool)
      requires Valid()
      ensures b <==> Sender.SinkSettled(Abs(), id)
    {
      hide Denote;
      SameSinks();
      if finalSeq == None || id !in sinks { return false; }
      var accounted := Accounted(sinks, sinkRepr, txs, id, ring);
      var missing := accounted.MissingWithin(SeqRange(0, finalSeq.value));
      missing.EmptyMeans();
      NoneMissing(finalSeq.value, accounted.Contents());
      b := missing.IsEmpty();
    }

    method DrainedAll() returns (b: bool)
      requires Valid()
      ensures b <==> Sender.DrainedAll(Abs())
    {
      hide Denote;
      SameSinks();
      if finalSeq == None || sinks == map[] { return false; }
      var ids := ChunkRing.SortedKeys(sinks);
      AscendingFacts(sinks.Keys);
      ghost var model := Abs();
      for i := 0 to |ids|
        invariant forall k :: 0 <= k < i ==> Sender.SinkSettled(model, ids[k])
      {
        var settled := SinkSettled(ids[i]);
        assert ids[i] in ids;
        if !settled { return false; }
      }
      assert forall id :: id in model.sinks ==> id in ids;
      b := true;
    }
  }
}
