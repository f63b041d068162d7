/** Whole-run facts about the ring: every declared gap is drained exactly once. */
module RingRuns {
  import opened Machine
  import opened Frames
  import opened Ring
  import Wire
  import WireFacts

  datatype Op = Put(chunk: AudioChunk) | Acked(seqs: set<u32>) | TakeGaps

  /** The ring and every set of gaps it has handed out so far. */
  datatype Trace = Trace(ring: State, taken: seq<set<u32>>)

  ghost function Perform(t: Trace, op: Op): Trace {
    match op
    case Put(c) => t.(ring := Insert(t.ring, c))
    case Acked(s) => t.(ring := MarkAcked(t.ring, s))
    case TakeGaps => Trace(t.ring.(pending := {}), t.taken + [t.ring.pending])
  }

  ghost function PerformAll(t: Trace, ops: seq<Op>): Trace
    decreases |ops|
  {
    if ops == [] then t else PerformAll(Perform(t, ops[0]), ops[1..])
  }

  /** A sender numbers its chunks upwards: no seq is put twice. */
  ghost predicate FreshPuts(ops: seq<Op>, next: nat)
    decreases |ops|
  {
    ops == [] ||
    if ops[0].Put? then ops[0].chunk.seqNo >= next && FreshPuts(ops[1..], ops[0].chunk.seqNo + 1)
    else FreshPuts(ops[1..], next)
  }

  /** The sets handed out and what is still pending are disjoint, and together are all gaps ever declared. */
  ghost predicate GapsAccounted(t: Trace) {
    && (forall i, j :: 0 <= i < j < |t.taken| ==> t.taken[i] !! t.taken[j])
    && (forall i :: 0 <= i < |t.taken| ==> t.taken[i] !! t.ring.pending && t.taken[i] <= t.ring.gaps)
    && (forall x :: x in t.ring.gaps ==> x in t.ring.pending || exists i :: 0 <= i < |t.taken| && x in t.taken[i])
    && t.ring.pending <= t.ring.gaps
  }

  /** A consistent ring whose seqs are all below `next`, and within budget unless only the protected chunks are left. */
  ghost predicate TraceOk(t: Trace, next: nat) {
    && Consistent(t.ring) && GapsAccounted(t)
    && AllBelow(t.ring.chunks.Keys, next) && AllBelow(t.ring.gaps, next) && AllBelow(t.ring.evictedAcked, next)
    && (t.ring.used <= t.ring.budget || Evictable(t.ring.chunks) == {})
  }

  ghost predicate AllBelow(s: set<u32>, next: nat) { forall x :: x in s ==> x < next }

  lemma PutKeeps(t: Trace, c: AudioChunk, next: nat)
    requires TraceOk(t, next) && next <= c.seqNo
    ensures TraceOk(Perform(t, Put(c)), c.seqNo + 1)
  {
    InsertFacts(t.ring, c);
    PutMoves(t, t.ring.(used := t.ring.used + ChunkCost(c), chunks := t.ring.chunks[c.seqNo := c]), Insert(t.ring,
        c), c.seqNo);
  }

  lemma PutMoves(t: Trace, grown: State, out: State, s: u32)
    requires TraceOk(t, s) && Consistent(out) && EvictionPolicy(grown, out)
    requires grown == t.ring.(used := grown.used, chunks := grown.chunks) && grown.chunks.Keys == t.ring.chunks.Keys
        + {s}
    ensures TraceOk(t.(ring := out), s + 1)
  {
    var recoverable, lost := out.evictedAcked - grown.evictedAcked, out.gaps - grown.gaps;
    assert Policy(grown, out, recoverable, lost);
    NothingLeft(grown, out, recoverable, lost);
    PutAccounts(t, out, lost);
    assert AllBelow(grown.chunks.Keys, s + 1);
    assert recoverable <= grown.chunks.Keys && lost <= grown.chunks.Keys;
  }

  lemma PutAccounts(t: Trace, out: State, lost: set<u32>)
    requires GapsAccounted(t) && out.gaps == t.ring.gaps + lost && out.pending == t.ring.pending + lost
        && lost !! t.ring.gaps
    ensures GapsAccounted(t.(ring := out))
  {
  }

  /** If the policy could not meet the budget, nothing evictable is left. */
  lemma NothingLeft(r: State, out: State, recoverable: set<u32>, lost: set<u32>)
    requires Policy(r, out, recoverable, lost)
    ensures out.used <= out.budget || Evictable(out.chunks) == {}
  {
    if out.used > out.budget {
      forall s | s in out.chunks && s != 0 ensures IsNewest(out.chunks, s) {
        assert s !in Evictable(r.chunks);
      }
    }
  }

  lemma TakeKeeps(t: Trace, next: nat)
    requires TraceOk(t, next)
    ensures TraceOk(Perform(t, TakeGaps), next)
  {
    var out := Perform(t, TakeGaps);
    forall x | x in out.ring.gaps ensures exists i :: 0 <= i < |out.taken| && x in out.taken[i] {
      if x in t.ring.pending {
        assert x in out.taken[|t.taken|];
      } else {
        var i :| 0 <= i < |t.taken| && x in t.taken[i];
        assert x in out.taken[i];
      }
    }
  }

  /**
   * Ring eviction over whole runs: after every operation used_bytes is the resident cost, the budget is met or
   * only seq 0 and the newest chunk remain, and the drained gap sets with what is pending partition all gaps.
   */
  lemma {:induction false} RingRun(t: Trace, ops: seq<Op>, next: nat) returns (last: nat)
    requires TraceOk(t, next) && FreshPuts(ops, next)
    ensures TraceOk(PerformAll(t, ops), last)
    decreases |ops|
  {
    if ops == [] {
      last := next;
    } else {
      match ops[0]
      case Put(c) =>
        PutKeeps(t, c, next);
        last := RingRun(Perform(t, ops[0]), ops[1..], c.seqNo + 1);
      case Acked(s) =>
        last := RingRun(Perform(t, ops[0]), ops[1..], next);
      case TakeGaps =>
        TakeKeeps(t, next);
        last := RingRun(Perform(t, ops[0]), ops[1..], next);
    }
  }

  /** From an empty ring. */
  lemma RingRunFromEmpty(budget: nat, ops: seq<Op>)
    requires FreshPuts(ops, 0)
    ensures var t := PerformAll(Trace(Empty(budget), []), ops);
            && Consistent(t.ring) && GapsAccounted(t)
            && (t.ring.used <= t.ring.budget || forall s :: s in t.ring.chunks ==> s == 0 || IsNewest(t.ring.chunks, s))
  {
    EmptyCost(U32_MAX + 1);
    var last := RingRun(Trace(Empty(budget), []), ops, 0);
    var t := PerformAll(Trace(Empty(budget), []), ops);
    assert forall s :: s in t.ring.chunks && s != 0 && !IsNewest(t.ring.chunks, s) ==> s in Evictable(t.ring.chunks);
  }

  /** What the budget counts for a chunk is what its frame takes on the wire. */
  lemma CostIsWireSize(c: AudioChunk)
    ensures ChunkCost(c) == |Wire.Encode(ChunkFrame(c))|
  {
    WireFacts.EncodedLenIsExact(ChunkFrame(c));
  }
}
