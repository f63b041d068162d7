/** What the recorder keeps for one sink: possession proved, queues, control frames; updated in place. */
module SinkTx {
  import opened Machine
  import opened Sets
  import opened Ranges
  import opened Frames
  import Ring
  import ChunkRing
  import Sender

  ghost function QueueOne(tx: Sender.Tx, resident: set<u32>, s: u32): Sender.Tx {
    if s in resident && s !in tx.queued then tx.(queued := tx.queued + {s}, backfill := tx.backfill + [s]) else tx
  }

  ghost function QueueEach(tx: Sender.Tx, resident: set<u32>, values: seq<u32>): Sender.Tx
    decreases |values|
  {
    if values == [] then tx
    else QueueOne(QueueEach(tx, resident, values[..|values| - 1]), resident, values[|values| - 1])
  }

  /** Those of `values` that are resident and not queued, in order. */
  ghost function Missing(tx: Sender.Tx, resident: set<u32>, values: seq<u32>): seq<u32>
    decreases |values|
  {
    if values == [] then []
    else
      Missing(tx, resident, values[..|values| - 1])
      + (if values[|values| - 1] in resident - tx.queued then [values[|values| - 1]] else [])
  }

  lemma FrontIsBelow(values: seq<u32>, front: seq<u32>)
    requires values != [] && StrictlyIncreasing(values) && front == values[..|values| - 1]
    ensures StrictlyIncreasing(front)
    ensures forall x: u32 :: x in front ==> x < values[|values| - 1]
    ensures forall x: u32 :: x in values <==> x in front || x == values[|values| - 1]
  {
    assert values == front + [values[|values| - 1]];
    forall x | x in front ensures x < values[|values| - 1] { var k :| 0 <= k < |front| && front[k] == x; }
  }

  lemma IncreasingSnoc(before: seq<u32>, s: u32)
    requires StrictlyIncreasing(before) && forall x: u32 :: x in before ==> x < s
    ensures StrictlyIncreasing(before + [s])
  {
    assert forall k :: 0 <= k < |before| ==> before[k] in before;
  }

  lemma {:induction false} MissingFacts(tx: Sender.Tx, resident: set<u32>, values: seq<u32>)
    requires StrictlyIncreasing(values)
    ensures var added := Missing(tx, resident, values);
            && StrictlyIncreasing(added)
            && (forall x: u32 :: x in added <==> x in values && x in resident - tx.queued)
    decreases |values|
  {
    if values != [] {
      var front, s := values[..|values| - 1], values[|values| - 1];
      var before := Missing(tx, resident, front);
      FrontIsBelow(values, front);
      MissingFacts(tx, resident, front);
      IncreasingSnoc(before, s);
    }
  }

  lemma QueueOneMore(tx: Sender.Tx, resident: set<u32>, before: seq<u32>, s: u32)
    requires s !in before
    ensures var added := before + (if s in resident - tx.queued then [s] else []);
            QueueOne(tx.(queued := tx.queued + Elems(before), backfill := tx.backfill + before), resident, s)
            == tx.(queued := tx.queued + Elems(added), backfill := tx.backfill + added)
  {
    assert before + [] == before;
    assert Elems(before + [s]) == Elems(before) + {s};
    assert tx.backfill + before + [s] == tx.backfill + (before + [s]);
    assert tx.queued + Elems(before) + {s} == tx.queued + (Elems(before) + {s});
  }

  lemma {:induction false} QueueEachFacts(tx: Sender.Tx, resident: set<u32>, values: seq<u32>)
    requires StrictlyIncreasing(values)
    ensures var added := Missing(tx, resident, values);
            QueueEach(tx, resident, values) == tx.(queued := tx.queued + Elems(added), backfill := tx.backfill + added)
    decreases |values|
  {
    if values == [] {
      assert tx.backfill + [] == tx.backfill && Elems([]) == {};
    } else {
      var front, s := values[..|values| - 1], values[|values| - 1];
      FrontIsBelow(values, front);
      MissingFacts(tx, resident, front);
      QueueEachFacts(tx, resident, front);
      QueueOneMore(tx, resident, Missing(tx, resident, front), s);
    }
  }

  lemma QueueEachIsRequeue(tx: Sender.Tx, ring: Ring.State, wanted: set<u32>)
    ensures QueueEach(tx, ring.chunks.Keys, Ascending(wanted)) == Sender.Requeue(tx, ring, wanted)
  {
    AscendingFacts(wanted);
    QueueEachFacts(tx, ring.chunks.Keys, Ascending(wanted));
    MissingFacts(tx, ring.chunks.Keys, Ascending(wanted));
    var added := Missing(tx, ring.chunks.Keys, Ascending(wanted));
    var missing := (wanted * ring.chunks.Keys) - tx.queued;
    ChunkRing.VictimsAre(added, missing);
    assert Elems(added) == missing;
  }

  /** Those members of the ranges that are declared gaps. */
  method Declared(ring: ChunkRing.ChunkRing, ranges: seq<SeqRange>) returns (gapped: RangeSet)
    requires ring.Valid()
    ensures fresh(gapped) && gapped.Valid()
    ensures gapped.Contents() == Members(ranges) * ring.evictedUnacked.Contents()
  {
    var all := FromRanges(ranges);
    var rest := all.Subtract(ring.evictedUnacked);
    gapped := all.Subtract(rest);
  }

  /** What is queued and proven for one sink. */
  class SinkTx {
    var connected: bool
    const provenHeld: RangeSet
    var chwm: u32
    const queued: RangeSet
    var live: seq<u32>
    var backfill: seq<u32>
    var control: seq<Frame>
    const gapsReported: RangeSet

    /** The objects this record is made of; fixed for life. */
    ghost const Repr: set<object>

    ghost predicate Valid()
      reads this, Repr
      ensures Valid() ==> this in Repr
    {
      && Repr == {this, provenHeld, queued, gapsReported}
      && provenHeld != queued && provenHeld != gapsReported && queued != gapsReported
      && provenHeld.Valid() && queued.Valid() && gapsReported.Valid()
    }

    ghost function Abs(): Sender.Tx
      requires Valid()
      reads this, Repr
    {
      Sender.Tx(connected, provenHeld.Contents(), chwm, queued.Contents(), live, backfill, control,
          gapsReported.Contents())
    }

    constructor ()
      ensures Valid() && fresh(Repr)
      ensures Abs() == Sender.NEW_TX
    {
      connected := false;
      provenHeld := new RangeSet();
      chwm := CHWM_NONE;
      queued := new RangeSet();
      live := [];
      backfill := [];
      control := [];
      gapsReported := new RangeSet();
      Repr := {this, provenHeld, queued, gapsReported};
    }

    method EnqueueLive(s: u32)
      requires Valid()
      modifies Repr
      ensures Valid()
      ensures Abs() == Sender.EnqueueLive(old(Abs()), s)
    {
      var present := queued.Contains(s);
      if !present {
        queued.Insert(s);
        live := live + [s];
      }
    }

    /** Start with everything resident as backlog. */
    method EnqueueBacklog(seqs: seq<u32>)
      requires Valid()
      modifies Repr
      ensures Valid()
      ensures Abs() == old(Abs()).(queued := old(Abs()).queued + Elems(seqs), backfill := old(Abs()).backfill + seqs)
    {
      for i := 0 to |seqs|
        invariant Valid()
        invariant Abs() == old(Abs()).(queued := old(Abs()).queued + Elems(seqs[..i]),
            backfill := old(Abs()).backfill + seqs[..i])
      {
        assert seqs[..i + 1] == seqs[..i] + [seqs[i]];
        assert Elems(seqs[..i + 1]) == Elems(seqs[..i]) + {seqs[i]};
        queued.Insert(seqs[i]);
        backfill := backfill + [seqs[i]];
      }
      assert seqs[..|seqs|] == seqs;
    }

    method SetConnected(up: bool)
      requires Valid()
      modifies this
      ensures Valid()
      ensures Abs() == Sender.Connected(old(Abs()), up)
    {
      connected := up;
      if !up {
        var demoted := Sorted(live);
        live := [];
        for i := 0 to |demoted|
          invariant Valid() && live == [] && connected == up && chwm == old(chwm) && control == old(control)
          invariant backfill == old(backfill) + demoted[..i]
        {
          assert demoted[..i + 1] == demoted[..i] + [demoted[i]];
          backfill := backfill + [demoted[i]];
        }
        assert demoted[..|demoted|] == demoted;
      }
    }

    /** Queue one seq if it is resident and not already queued. */
    method EnqueueMissing(ring: ChunkRing.ChunkRing, s: u32)
      requires Valid() && ring.Valid() && Repr !! ring.Repr
      modifies Repr
      ensures Valid()
      ensures Abs() == QueueOne(old(Abs()), ring.chunks.Keys, s)
    {
      var present := queued.Contains(s);
      if ring.ContainsSeq(s) && !present {
        queued.Insert(s);
        backfill := backfill + [s];
      }
    }

    /** Queue whatever of `wanted` is resident and not already queued, in order. */
    method Requeue(ring: ChunkRing.ChunkRing, wanted: RangeSet)
      requires Valid() && ring.Valid() && wanted.Valid()
      requires Repr !! ring.Repr && wanted !in Repr
      modifies Repr
      ensures Valid()
      ensures Abs() == Sender.Requeue(old(Abs()), ring.Abs(), wanted.Contents())
    {
      var values := wanted.Values();
      for i := 0 to |values|
        invariant Valid() && ring.Valid() && Abs() == QueueEach(old(Abs()), ring.chunks.Keys, values[..i])
      {
        assert values[..i + 1][..i] == values[..i];
        EnqueueMissing(ring, values[i]);
      }
      assert values[..|values|] == values;
      QueueEachIsRequeue(old(Abs()), ring.Abs(), wanted.Contents());
    }

    /** Queue these report frames in order. */
    method QueueReports(stream: StreamKey, batches: seq<seq<SeqRange>>)
      requires Valid()
      modifies this
      ensures Valid()
      ensures Abs() == old(Abs()).(control := old(Abs()).control + seq(|batches|,
          i requires 0 <= i < |batches| => GapReport(RangeList(stream, batches[i]))))
    {
      ghost var frames := seq(|batches|, i requires 0 <= i < |batches| => GapReport(RangeList(stream, batches[i])));
      for i := 0 to |batches|
        invariant Valid() && Abs() == old(Abs()).(control := old(Abs()).control + frames[..i])
      {
        assert frames[..i + 1] == frames[..i] + [frames[i]];
        control := control + [GapReport(RangeList(stream, batches[i]))];
      }
      assert frames[..|batches|] == frames;
    }

    method MarkReported(ranges: seq<SeqRange>)
      requires Valid()
      modifies Repr
      ensures Valid()
      ensures Abs() == old(Abs()).(reported := old(Abs()).reported + Members(ranges))
    {
      for i := 0 to |ranges|
        invariant Valid() && Abs() == old(Abs()).(reported := old(Abs()).reported + Members(ranges[..i]))
      {
        MembersSnoc(ranges, i);
        gapsReported.InsertRange(ranges[i]);
      }
      assert ranges[..|ranges|] == ranges;
    }

    /** Report the gaps not reported before, in frame-sized batches. */
    method QueueGapReport(stream: StreamKey, gaps: RangeSet)
      requires Valid() && gaps.Valid() && gaps !in Repr
      modifies Repr
      ensures Valid()
      ensures Abs() == Sender.QueueGapReport(stream, old(Abs()), gaps.Contents())
    {
      var unreported := gaps.Subtract(gapsReported);
      unreported.EmptyMeans();
      unreported.Representation();
      if unreported.IsEmpty() { return; }
      var ranges := unreported.ranges;
      QueueReports(stream, SplitForFrames(ranges));
      MarkReported(ranges);
      assert Sender.GapFrames(stream, ranges) == seq(|SplitForFrames(ranges)|,
          i requires 0 <= i < |SplitForFrames(ranges)| => GapReport(RangeList(stream, SplitForFrames(ranges)[i])));
    }

    /** Take over what an ACK proves; requeue what is still outstanding; re-report those of its holes that are
        declared gaps. */
    method SettleAck(stream: StreamKey, ring: ChunkRing.ChunkRing, proven: RangeSet, ack: AckStatus, produced: RangeSet)
      requires Valid() && ring.Valid() && proven.Valid() && produced.Valid()
      requires Repr !! ring.Repr && proven !in Repr && produced !in Repr
      modifies Repr
      ensures Valid()
      ensures Abs() == Sender.AckTx(stream, old(Abs()), ring.Abs(), proven.Contents(), ack, produced.Contents())
    {
      provenHeld.Assign(proven);
      chwm := ack.chwm;
      var unproven := produced.Subtract(provenHeld);
      var outstanding := unproven.Subtract(ring.evictedUnacked);
      Requeue(ring, outstanding);
      var gapped := Declared(ring, ack.holes);
      gapped.EmptyMeans();
      if !gapped.IsEmpty() {
        gapsReported.Clear();
        QueueGapReport(stream, gapped);
      }
    }

    /** A sink asks for ranges: report declared gaps not reported before, and queue the rest. */
    method Backfill(stream: StreamKey, ring: ChunkRing.ChunkRing, ranges: seq<SeqRange>)
      requires Valid() && ring.Valid() && Repr !! ring.Repr
      modifies Repr
      ensures Valid()
      ensures Abs() == Sender.BackfillTx(stream, old(Abs()), ring.Abs(), Members(ranges))
    {
      var gapped := Declared(ring, ranges);
      gapped.EmptyMeans();
      if !gapped.IsEmpty() { QueueGapReport(stream, gapped); }
      var wanted := FromRanges(ranges);
      Requeue(ring, wanted);
    }

    /** Live before backlog, skipping what the sink holds or the ring no longer has. */
    method PopChunk(ring: ChunkRing.ChunkRing) returns (c: Option<AudioChunk>)
      requires Valid() && ring.Valid() && Repr !! ring.Repr
      modifies Repr
      ensures Valid()
      ensures (Abs(), c) == Sender.PopChunk(old(Abs()), ring.Abs())
    {
      ghost var was := Abs();
      while true
        invariant Valid() && Sender.PopChunk(was, ring.Abs()) == Sender.PopChunk(Abs(), ring.Abs())
        decreases |live| + |backfill|
      {
        var s: u32;
        if live != [] {
          s, live := live[0], live[1..];
        } else if backfill != [] {
          s, backfill := backfill[0], backfill[1..];
        } else {
          return None;
        }
        queued.Remove(s);
        var held := provenHeld.Contains(s);
        if held { continue; }
        if ring.ContainsSeq(s) { return Some(ring.chunks[s]); }
      }
    }

    method Pop(ring: ChunkRing.ChunkRing) returns (f: Option<Frame>)
      requires Valid() && ring.Valid() && Repr !! ring.Repr
      modifies Repr
      ensures Valid()
      ensures (Abs(), f) == Sender.PopTx(old(Abs()), ring.Abs())
    {
      if !connected { return None; }
      if control != [] {
        f := Some(control[0]);
        control := control[1..];
        return;
      }
      var c := PopChunk(ring);
      f := if c.Some? then Some(ChunkFrame(c.value)) else None;
    }
  }
}
