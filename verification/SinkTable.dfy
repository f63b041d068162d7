/** The recorder's table of per-sink records: objects that share nothing, changed one at a time. */
module SinkTable {
  import opened Machine
  import opened Sets
  import opened Ranges
  import opened Frames
  import ChunkRing
  import Sender
  import opened SinkTx

  type SinkId = Sender.SinkId

  /** Sound, unshared records, all made of objects in `repr`. */
  ghost predicate SinksValid(sinks: map<SinkId, SinkTx>, repr: set<object>)
    reads repr
  {
    && (forall id {:trigger sinks[id]} :: id in sinks ==>
        sinks[id] in repr && sinks[id].Repr <= repr && sinks[id].Valid())
    && (forall i, j {:trigger sinks[i], sinks[j]} :: i in sinks && j in sinks && i != j ==>
        sinks[i].Repr !! sinks[j].Repr)
  }

  /** These records are sound, and `txs` is what they denote. */
  ghost predicate Denote(sinks: map<SinkId, SinkTx>, repr: set<object>, txs: map<SinkId, Sender.Tx>)
    reads repr
  {
    && SinksValid(sinks, repr) && txs.Keys == sinks.Keys
    && forall id {:trigger sinks[id]} :: id in sinks ==> sinks[id].Abs() == txs[id]
  }

  lemma SameKeys(sinks: map<SinkId, SinkTx>, repr: set<object>, txs: map<SinkId, Sender.Tx>)
    requires Denote(sinks, repr, txs)
    ensures sinks.Keys == txs.Keys
  {
  }

  lemma DenoteWith(sinks: map<SinkId, SinkTx>, repr: set<object>, txs: map<SinkId, Sender.Tx>, id: SinkId, tx: SinkTx)
    requires Denote(sinks, repr, txs) && id !in sinks && tx.Valid() && tx.Repr !! repr
    ensures Denote(sinks[id := tx], repr + tx.Repr, txs[id := tx.Abs()])
  {
    var all := sinks[id := tx];
    assert forall i :: i in all ==> all[i].Repr <= (if i == id then tx.Repr else repr);
    assert SinksValid(all, repr + tx.Repr);
  }

  /** One record and the rest share nothing. */
  lemma TakeOut(sinks: map<SinkId, SinkTx>, repr: set<object>, txs: map<SinkId, Sender.Tx>, id: SinkId)
    requires Denote(sinks, repr, txs) && id in txs
    ensures id in sinks && sinks[id].Repr <= repr && sinks[id].Valid() && sinks[id].Abs() == txs[id]
    ensures Denote(sinks - {id}, repr - sinks[id].Repr, txs - {id})
  {
    var rest := sinks - {id};
    assert forall i :: i in rest ==> sinks[i].Repr !! sinks[id].Repr;
    assert SinksValid(rest, repr - sinks[id].Repr);
  }

  lemma PutBack(sinks: map<SinkId, SinkTx>, repr: set<object>, txs: map<SinkId, Sender.Tx>, id: SinkId)
    requires id in sinks && sinks[id].Repr <= repr && sinks[id].Valid()
    requires Denote(sinks - {id}, repr - sinks[id].Repr, txs - {id})
    ensures Denote(sinks, repr, txs[id := sinks[id].Abs()])
  {
    var tx := sinks[id];
    DenoteWith(sinks - {id}, repr - tx.Repr, txs - {id}, id, tx);
    assert (sinks - {id})[id := tx] == sinks && (repr - tx.Repr) + tx.Repr == repr;
    assert (txs - {id})[id := tx.Abs()] == txs[id := tx.Abs()];
  }

  lemma DenoteWithout(sinks: map<SinkId, SinkTx>, repr: set<object>, txs: map<SinkId, Sender.Tx>, id: SinkId)
    requires Denote(sinks, repr, txs)
    ensures Denote(sinks - {id}, repr, txs - {id})
  {
    assert SinksValid(sinks - {id}, repr);
  }

  /** The records with `f` applied to those of `ids`. */
  ghost function Updated(was: map<SinkId, Sender.Tx>, ids: set<SinkId>,
      f: Sender.Tx -> Sender.Tx): map<SinkId, Sender.Tx> {
    map id | id in was :: if id in ids then f(was[id]) else was[id]
  }

  lemma UpdatedNone(was: map<SinkId, Sender.Tx>, f: Sender.Tx -> Sender.Tx)
    ensures Updated(was, {}, f) == was
    ensures forall q: seq<SinkId> :: Elems(q[..0]) == {}
  {
  }

  lemma EveryoneQueued(was: map<SinkId, Sender.Tx>, ids: set<SinkId>, s: u32)
    requires ids == was.Keys
    ensures Updated(was, ids, tx => Sender.EnqueueLive(tx, s)) == Sender.EnqueueAll(was, s)
  {
  }

  lemma EveryoneTold(was: map<SinkId, Sender.Tx>, ids: set<SinkId>, stream: StreamKey, lost: set<u32>)
    requires ids == was.Keys
    ensures Updated(was, ids, tx => Sender.QueueGapReport(stream, tx, lost)) == Sender.ReportAll(stream, was, lost)
  {
  }

  lemma UpdatedStep(was: map<SinkId, Sender.Tx>, ids: seq<SinkId>, i: nat, f: Sender.Tx -> Sender.Tx)
    requires i < |ids| && StrictlyIncreasing(ids) && forall id :: id in ids ==> id in was
    ensures var before := Updated(was, Elems(ids[..i]), f);
            && ids[i] in before
            && Updated(was, Elems(ids[..i + 1]), f) == before[ids[i] := f(before[ids[i]])]
  {
    PrefixBelow(ids, i);
    assert ids[..i + 1] == ids[..i] + [ids[i]];
    assert ids[i] in ids;
  }

  lemma PrefixBelow(q: seq<u32>, i: nat)
    requires StrictlyIncreasing(q) && i < |q|
    ensures forall x :: x in q[..i] ==> x < q[i]
  {
    forall x | x in q[..i] ensures x < q[i] {
      var k :| 0 <= k < i && q[..i][k] == x;
    }
  }

  method EnqueueAt(sinks: map<SinkId, SinkTx>, ghost repr: set<object>,
      ghost was: map<SinkId, Sender.Tx>, id: SinkId, s: u32)
    returns (ghost now: map<SinkId, Sender.Tx>)
    requires Denote(sinks, repr, was) && id in was
    modifies repr
    ensures Denote(sinks, repr, now) && now == was[id := Sender.EnqueueLive(was[id], s)]
  {
    hide Denote;
    now := was[id := Sender.EnqueueLive(was[id], s)];
    TakeOut(sinks, repr, was, id);
    sinks[id].EnqueueLive(s);
    PutBack(sinks, repr, was, id);
  }

  /** Tell every sink about a new live chunk. */
  method EnqueueAll(sinks: map<SinkId, SinkTx>, ghost repr: set<object>,
      ghost was: map<SinkId, Sender.Tx>, s: u32)
    returns (ghost now: map<SinkId, Sender.Tx>)
    requires Denote(sinks, repr, was)
    modifies repr
    ensures Denote(sinks, repr, now) && now == Updated(was, was.Keys, tx => Sender.EnqueueLive(tx, s))
  {
    hide Denote, Updated;
    ghost var f := tx => Sender.EnqueueLive(tx, s);
    var ids := ChunkRing.SortedKeys(sinks);
    AscendingFacts(sinks.Keys);
    SameKeys(sinks, repr, was);
    UpdatedNone(was, f);
    now := was;
    for i := 0 to |ids|
      invariant Denote(sinks, repr, now) && now == Updated(was, Elems(ids[..i]), f)
    {
      UpdatedStep(was, ids, i, f);
      now := EnqueueAt(sinks, repr, now, ids[i], s);
    }
    assert Elems(ids[..|ids|]) == was.Keys;
  }

  method ReportAt(sinks: map<SinkId, SinkTx>, ghost repr: set<object>,
      ghost was: map<SinkId, Sender.Tx>, id: SinkId, stream: StreamKey, gaps: RangeSet)
    returns (ghost now: map<SinkId, Sender.Tx>)
    requires Denote(sinks, repr, was) && id in was && gaps.Valid() && gaps !in repr
    modifies repr
    ensures Denote(sinks, repr, now) && now == was[id := old(Sender.QueueGapReport(stream, was[id],
        gaps.Contents()))]
  {
    hide Denote;
    now := was[id := Sender.QueueGapReport(stream, was[id], gaps.Contents())];
    TakeOut(sinks, repr, was, id);
    sinks[id].QueueGapReport(stream, gaps);
    PutBack(sinks, repr, was, id);
  }

  /** Tell every sink about newly declared gaps. */
  method ReportAll(sinks: map<SinkId, SinkTx>, ghost repr: set<object>,
      ghost was: map<SinkId, Sender.Tx>, stream: StreamKey, gaps: RangeSet)
    returns (ghost now: map<SinkId, Sender.Tx>)
    requires Denote(sinks, repr, was) && gaps.Valid() && gaps !in repr
    modifies repr
    ensures Denote(sinks, repr, now)
        && now == Updated(was, was.Keys, tx => Sender.QueueGapReport(stream, tx, old(gaps.Contents())))
  {
    hide Denote, Updated;
    ghost var lost := gaps.Contents();
    ghost var f := tx => Sender.QueueGapReport(stream, tx, lost);
    var ids := ChunkRing.SortedKeys(sinks);
    AscendingFacts(sinks.Keys);
    SameKeys(sinks, repr, was);
    UpdatedNone(was, f);
    now := was;
    for i := 0 to |ids|
      invariant gaps.Valid() && gaps.Contents() == lost
      invariant Denote(sinks, repr, now) && now == Updated(was, Elems(ids[..i]), f)
    {
      UpdatedStep(was, ids, i, f);
      now := ReportAt(sinks, repr, now, ids[i], stream, gaps);
    }
    assert Elems(ids[..|ids|]) == was.Keys;
  }

  method ConnectAt(sinks: map<SinkId, SinkTx>, ghost repr: set<object>,
      ghost was: map<SinkId, Sender.Tx>, id: SinkId, up: bool)
    returns (ghost now: map<SinkId, Sender.Tx>)
    requires Denote(sinks, repr, was) && id in was
    modifies repr
    ensures Denote(sinks, repr, now) && now == was[id := Sender.Connected(was[id], up)]
  {
    hide Denote;
    now := was[id := Sender.Connected(was[id], up)];
    TakeOut(sinks, repr, was, id);
    sinks[id].SetConnected(up);
    PutBack(sinks, repr, was, id);
  }

  method SettleAt(sinks: map<SinkId, SinkTx>, ghost repr: set<object>,
      ghost was: map<SinkId, Sender.Tx>, id: SinkId, stream: StreamKey, ring: ChunkRing.ChunkRing, proven: RangeSet,
      ack: AckStatus, produced: RangeSet)
    returns (ghost now: map<SinkId, Sender.Tx>)
    requires Denote(sinks, repr, was) && id in was && ring.Valid() && ring.Repr !! repr
    requires proven.Valid() && proven !in repr && produced.Valid() && produced !in repr
    modifies repr
    ensures Denote(sinks, repr, now)
    ensures now == was[id := Sender.AckTx(stream, was[id], ring.Abs(), proven.Contents(), ack, produced.Contents())]
  {
    hide Denote;
    now := was[id := Sender.AckTx(stream, was[id], ring.Abs(), proven.Contents(), ack, produced.Contents())];
    TakeOut(sinks, repr, was, id);
    sinks[id].SettleAck(stream, ring, proven, ack, produced);
    PutBack(sinks, repr, was, id);
  }

  /** A record for a new sink: nothing proven, everything resident queued. */
  method NewTx(ring: ChunkRing.ChunkRing) returns (tx: SinkTx)
    requires ring.Valid()
    ensures tx.Valid() && fresh(tx.Repr)
    ensures tx.Abs() == Sender.NewTx(ring.Abs())
  {
    tx := new SinkTx();
    var resident := ChunkRing.SortedKeys(ring.chunks);
    AscendingFacts(ring.chunks.Keys);
    tx.EnqueueBacklog(resident);
    assert Elems(resident) == ring.chunks.Keys;
    assert {} + ring.chunks.Keys == ring.chunks.Keys;
  }

  /** What one sink provably holds, together with the declared gaps. */
  method Accounted(sinks: map<SinkId, SinkTx>, ghost repr: set<object>,
      ghost txs: map<SinkId, Sender.Tx>, id: SinkId, ring: ChunkRing.ChunkRing)
    returns (all: RangeSet)
    requires Denote(sinks, repr, txs) && id in txs && ring.Valid()
    ensures fresh(all) && all.Valid()
    ensures all.Contents() == txs[id].proven + ring.Abs().gaps
  {
    hide Denote;
    TakeOut(sinks, repr, txs, id);
    all := sinks[id].provenHeld.Union(ring.evictedUnacked);
  }

  method BackfillAt(sinks: map<SinkId, SinkTx>, ghost repr: set<object>,
      ghost was: map<SinkId, Sender.Tx>, id: SinkId, stream: StreamKey, ring: ChunkRing.ChunkRing,
      ranges: seq<SeqRange>)
    returns (ghost now: map<SinkId, Sender.Tx>)
    requires Denote(sinks, repr, was) && id in was && ring.Valid() && ring.Repr !! repr
    modifies repr
    ensures Denote(sinks, repr, now)
        && now == was[id := old(Sender.BackfillTx(stream, was[id], ring.Abs(), Members(ranges)))]
  {
    hide Denote;
    now := was[id := Sender.BackfillTx(stream, was[id], ring.Abs(), Members(ranges))];
    TakeOut(sinks, repr, was, id);
    sinks[id].Backfill(stream, ring, ranges);
    PutBack(sinks, repr, was, id);
  }

  method PopAt(sinks: map<SinkId, SinkTx>, ghost repr: set<object>,
      ghost was: map<SinkId, Sender.Tx>, id: SinkId, ring: ChunkRing.ChunkRing)
    returns (f: Option<Frame>, ghost now: map<SinkId, Sender.Tx>)
    requires Denote(sinks, repr, was) && id in was && ring.Valid() && ring.Repr !! repr
    modifies repr
    ensures var (tx, frame) := Sender.PopTx(was[id], ring.Abs());
            Denote(sinks, repr, now) && now == was[id := tx] && f == frame
  {
    hide Denote;
    now := was[id := Sender.PopTx(was[id], ring.Abs()).0];
    TakeOut(sinks, repr, was, id);
    f := sinks[id].Pop(ring);
    PutBack(sinks, repr, was, id);
  }
}
