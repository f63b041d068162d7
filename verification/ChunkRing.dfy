/** The ring buffer as the recorder runs it: a map of chunks and four range sets, updated in place. */
module ChunkRing {
  import opened Machine
  import opened Sets
  import opened Ranges
  import opened Frames
  import Ring

  /** The keys of a BTreeMap, ascending. */
  method SortedKeys<T>(m: map<u32, T>) returns (q: seq<u32>)
    ensures q == Ascending(m.Keys)
  {
    var keys := new RangeSet();
    var rest := m.Keys;
    while rest != {}
      invariant fresh(keys) && keys.Valid() && rest <= m.Keys
      invariant keys.Contents() == m.Keys - rest
      decreases rest
    {
      var k :| k in rest;
      keys.Insert(k);
      rest := rest - {k};
    }
    assert m.Keys - {} == m.Keys;
    q := keys.Values();
  }

  class ChunkRing {
    const budgetBytes: nat
    var usedBytes: nat
    var chunks: map<u32, AudioChunk>
    /** Seqs acknowledged by at least one sink (safe to evict). */
    const ackedByAny: RangeSet
    /** Evicted while unacknowledged, not yet handed out. */
    const pendingGaps: RangeSet
    /** Everything evicted while unacknowledged, ever. */
    const evictedUnacked: RangeSet
    /** Evicted after some sink acknowledged. */
    const evictedAcked: RangeSet

    /** The objects the ring is made of; fixed for life. */
    ghost const Repr: set<object>

    ghost predicate Valid()
      reads this, Repr
      ensures Valid() ==> this in Repr
    {
      && Repr == {this, ackedByAny, pendingGaps, evictedUnacked, evictedAcked}
      && ackedByAny != pendingGaps && ackedByAny != evictedUnacked && ackedByAny != evictedAcked
      && pendingGaps != evictedUnacked && pendingGaps != evictedAcked && evictedUnacked != evictedAcked
      && ackedByAny.Valid() && pendingGaps.Valid() && evictedUnacked.Valid() && evictedAcked.Valid()
      && usedBytes == Ring.TotalCost(chunks)
      && (forall s :: s in chunks ==> chunks[s].seqNo == s)
    }

    ghost function Abs(): Ring.State
      requires Valid()
      reads this, Repr
    {
      Ring.State(budgetBytes, usedBytes, chunks, ackedByAny.Contents(), pendingGaps.Contents(),
                 evictedUnacked.Contents(), evictedAcked.Contents())
    }

    constructor (budget: nat)
      ensures Valid() && fresh(Repr)
      ensures Abs() == Ring.Empty(budget)
    {
      budgetBytes := budget;
      usedBytes := 0;
      chunks := map[];
      ackedByAny := new RangeSet();
      pendingGaps := new RangeSet();
      evictedUnacked := new RangeSet();
      evictedAcked := new RangeSet();
      Repr := {this, ackedByAny, pendingGaps, evictedUnacked, evictedAcked};
      new;
      Ring.EmptyCost(U32_MAX + 1);
    }

    predicate ContainsSeq(s: u32)
      reads this
    {
      s in chunks
    }

    /** Insert, then evict down to the budget. */
    method Insert(chunk: AudioChunk)
      requires Valid()
      modifies Repr
      ensures Valid()
      ensures Abs() == Ring.Insert(old(Abs()), chunk)
    {
      if chunk.seqNo in chunks { return; }
      Ring.CostBelowInsert(chunks, chunk, U32_MAX + 1);
      usedBytes := usedBytes + Ring.ChunkCost(chunk);
      chunks := chunks[chunk.seqNo := chunk];
      EvictToBudget();
    }

    method MarkAcked(ranges: RangeSet)
      requires Valid() && ranges.Valid() && ranges !in Repr
      modifies Repr
      ensures Valid()
      ensures Abs() == Ring.MarkAcked(old(Abs()), old(ranges.Contents()))
    {
      ranges.Representation();
      for i := 0 to |ranges.ranges|
        invariant Valid() && ranges.Valid() && ranges.ranges == old(ranges.ranges)
        invariant Abs() == Ring.MarkAcked(old(Abs()), Members(ranges.ranges[..i]))
      {
        MembersSnoc(ranges.ranges, i);
        ackedByAny.InsertRange(ranges.ranges[i]);
      }
      assert ranges.ranges[..|ranges.ranges|] == ranges.ranges;
    }

    /** Drain-once: hand the pending gaps over and start afresh (`mem::take`). */
    method TakePendingGaps() returns (out: RangeSet)
      requires Valid()
      modifies Repr
      ensures Valid() && fresh(out) && out.Valid()
      ensures out.Contents() == old(Abs()).pending
      ensures Abs() == old(Abs()).(pending := {})
    {
      out := pendingGaps.Clone();
      pendingGaps.Clear();
    }

    /** Remove one chunk whose cost is counted. */
    method Remove(s: u32)
      requires Valid() && s in chunks
      modifies this
      ensures Valid()
      ensures chunks == old(chunks) - {s}
      ensures usedBytes == old(usedBytes) - Ring.ChunkCost(old(chunks)[s])
    {
      Ring.CostRemove(chunks, s);
      var chunk := chunks[s];
      chunks := chunks - {s};
      usedBytes := usedBytes - Ring.ChunkCost(chunk);
    }

    /** Every key but 0 and the newest that passes the filter, ascending. */
    method Victims(newest: u32, onlyAcked: bool) returns (q: seq<u32>)
      requires Valid() && (forall s :: s in chunks ==> s <= newest)
      ensures StrictlyIncreasing(q)
      ensures forall s: u32 :: s in q <==> s in chunks && s != 0 && s != newest && (onlyAcked ==>
          s in ackedByAny.Contents())
    {
      var keys := SortedKeys(chunks);
      AscendingFacts(chunks.Keys);
      q := [];
      for i := 0 to |keys|
        invariant StrictlyIncreasing(q)
        invariant forall s: u32 :: s in q <==> s in keys[..i] && s != 0 && s != newest && (onlyAcked ==>
            s in ackedByAny.Contents())
      {
        var acked := ackedByAny.Contains(keys[i]);
        forall k | 0 <= k < |q| ensures q[k] < keys[i] {
          assert q[k] in q;
          var j :| 0 <= j < i && keys[..i][j] == q[k];
        }
        assert keys[..i + 1] == keys[..i] + [keys[i]];
        if keys[i] != 0 && keys[i] != newest && (!onlyAcked || acked) { q := q + [keys[i]]; }
      }
      assert keys[..|keys|] == keys;
    }

    /** Take one chunk out and record why: recoverable from a sink, or lost. */
    method EvictOne(s: u32, acked: bool)
      requires Valid() && s in chunks
      modifies Repr
      ensures Valid()
      ensures Abs() == Ring.Evict(old(Abs()), s, acked)
    {
      Remove(s);
      if acked {
        evictedAcked.Insert(s);
      } else {
        pendingGaps.Insert(s);
        evictedUnacked.Insert(s);
      }
    }

    /** Pass 1: drop acknowledged chunks in this order until the budget is met. */
    method EvictAcked(victims: seq<u32>)
      requires Valid() && StillIn(victims, chunks)
      modifies Repr
      ensures Valid()
      ensures Abs() == Ring.EvictWhile(old(Abs()), victims, true)
    {
      for i := 0 to |victims|
        invariant Valid() && StillIn(victims[i..], chunks)
        invariant Ring.EvictWhile(old(Abs()), victims, true) == Ring.EvictWhile(Abs(), victims[i..], true)
      {
        if usedBytes <= budgetBytes { return; }
        var s := victims[i];
        assert victims[i..][0] == s && victims[i..][1..] == victims[i + 1..];
        DropFirst(victims[i..], chunks);
        EvictOne(s, true);
      }
      assert victims[|victims|..] == [];
    }

    /** Pass 2: drop unacknowledged chunks in this order until the budget is met, each a declared gap. */
    method DeclareGaps(victims: seq<u32>)
      requires Valid() && StillIn(victims, chunks)
      modifies Repr
      ensures Valid()
      ensures Abs() == Ring.EvictWhile(old(Abs()), victims, false)
    {
      for i := 0 to |victims|
        invariant Valid() && StillIn(victims[i..], chunks)
        invariant Ring.EvictWhile(old(Abs()), victims, false) == Ring.EvictWhile(Abs(), victims[i..], false)
      {
        if usedBytes <= budgetBytes { return; }
        var s := victims[i];
        assert victims[i..][0] == s && victims[i..][1..] == victims[i + 1..];
        DropFirst(victims[i..], chunks);
        EvictOne(s, false);
      }
      assert victims[|victims|..] == [];
    }

    method EvictToBudget()
      requires Valid()
      modifies Repr
      ensures Valid()
      ensures Abs() == Ring.EvictToBudget(old(Abs()))
    {
      if usedBytes <= budgetBytes { return; }
      ghost var start := Abs();
      NothingCostsNothing(chunks);
      var keys := SortedKeys(chunks);
      AscendingFacts(chunks.Keys);
      assert keys != [] by { var s :| s in chunks; assert s in keys; }
      var newest := keys[|keys| - 1];
      NewestIs(chunks, newest, keys);
      var ackedVictims := Victims(newest, true);
      VictimsAre(ackedVictims, Ring.Evictable(start.chunks) * start.acked);
      EvictAcked(ackedVictims);
      if usedBytes <= budgetBytes { return; }
      ghost var first := Abs();
      EvictShrinks(start, ackedVictims, true);
      var unackedVictims := Victims(newest, false);
      VictimsAre(unackedVictims, Ring.Evictable(start.chunks) * first.chunks.Keys);
      DeclareGaps(unackedVictims);
    }
  }

  lemma {:induction false} EvictShrinks(r: Ring.State, victims: seq<u32>, acked: bool)
    ensures Ring.EvictWhile(r, victims, acked).chunks.Keys <= r.chunks.Keys
    decreases |victims|
  {
    if victims != [] && r.used > r.budget { EvictShrinks(Ring.Evict(r, victims[0], acked), victims[1..], acked); }
  }

  lemma NothingCostsNothing(chunks: map<u32, AudioChunk>)
    ensures Ring.TotalCost(chunks) > 0 ==> chunks != map[]
  {
    Ring.EmptyCost(U32_MAX + 1);
  }

  lemma NewestIs(chunks: map<u32, AudioChunk>, newest: u32, keys: seq<u32>)
    requires StrictlyIncreasing(keys) && keys != [] && newest == keys[|keys| - 1]
    requires forall s: u32 :: s in keys <==> s in chunks
    ensures forall s :: s in chunks ==> s <= newest
    ensures forall s :: s in chunks ==> (Ring.IsNewest(chunks, s) <==> s == newest)
  {
    forall s | s in chunks ensures s <= newest {
      assert s in keys;
    }
    assert newest in keys;
  }

  /** A strictly increasing list with the right members is the ascending list. */
  lemma VictimsAre(q: seq<u32>, s: set<u32>)
    requires StrictlyIncreasing(q) && forall x: u32 :: x in q <==> x in s
    ensures q == Ascending(s)
  {
    AscendingFacts(s);
    IncreasingUnique(q, Ascending(s));
  }

  ghost predicate StillIn(q: seq<u32>, chunks: map<u32, AudioChunk>) {
    StrictlyIncreasing(q) && forall x :: x in q ==> x in chunks
  }

  lemma DropFirst(q: seq<u32>, chunks: map<u32, AudioChunk>)
    requires StillIn(q, chunks) && q != []
    ensures q[0] in chunks && StillIn(q[1..], chunks - {q[0]})
  {
    assert q[0] in q;
    forall x | x in q[1..] ensures x in q && x != q[0] {
      var i :| 0 <= i < |q[1..]| && q[1..][i] == x;
      assert q[i + 1] == x;
    }
  }
}
