/** The sender's byte-budgeted ring of recent chunks: which chunks it evicts, and what it declares lost. */
module Ring {
  import opened Machine
  import opened Sets
  import opened Frames

  /** The abstract ring: every field of the Rust struct, range sets read as sets. */
  datatype State = State(
    budget: nat,
    used: int,
    chunks: map<u32, AudioChunk>,
    acked: set<u32>,
    pending: set<u32>,
    gaps: set<u32>,
    evictedAcked: set<u32>)

  function Empty(budget: nat): State { State(budget, 0, map[], {}, {}, {}, {}) }

  function ChunkCost(c: AudioChunk): nat { AUDIO_CHUNK_HEADER_LEN + |c.payload| }

  /** The summed cost of the resident chunks with seq below n. */
  ghost function CostBelow(chunks: map<u32, AudioChunk>, n: nat): nat
    requires n <= U32_MAX + 1
  {
    if n == 0 then 0
    else CostBelow(chunks, n - 1) + (if n - 1 in chunks then ChunkCost(chunks[n - 1]) else 0)
  }

  ghost function TotalCost(chunks: map<u32, AudioChunk>): nat { CostBelow(chunks, U32_MAX + 1) }

  lemma {:induction false} EmptyCost(n: nat)
    requires n <= U32_MAX + 1
    ensures CostBelow(map[], n) == 0
  {
    if n > 0 { EmptyCost(n - 1); }
  }

  lemma {:induction false} CostBelowInsert(chunks: map<u32, AudioChunk>, c: AudioChunk, n: nat)
    requires n <= U32_MAX + 1 && c.seqNo !in chunks
    ensures CostBelow(chunks[c.seqNo := c], n) == CostBelow(chunks, n) + (if c.seqNo < n then ChunkCost(c) else 0)
  {
    if n > 0 { CostBelowInsert(chunks, c, n - 1); }
  }

  lemma CostRemove(chunks: map<u32, AudioChunk>, v: u32)
    requires v in chunks && chunks[v].seqNo == v
    ensures TotalCost(chunks - {v}) == TotalCost(chunks) - ChunkCost(chunks[v])
  {
    CostBelowInsert(chunks - {v}, chunks[v], U32_MAX + 1);
    assert chunks == (chunks - {v})[v := chunks[v]];
  }

  // ---- eviction -----------------------------------------------------------

  /** Take one chunk out, counting it as recoverable (`acked`) or as a declared gap. */
  function Evict(r: State, v: u32, acked: bool): State {
    if v !in r.chunks then r
    else
      var out := r.(used := r.used - ChunkCost(r.chunks[v]), chunks := r.chunks - {v});
      if acked then out.(evictedAcked := r.evictedAcked + {v})
      else out.(pending := r.pending + {v}, gaps := r.gaps + {v})
  }

  function EvictWhile(r: State, victims: seq<u32>, acked: bool): State
    decreases |victims|
  {
    if victims == [] || r.used <= r.budget then r
    else EvictWhile(Evict(r, victims[0], acked), victims[1..], acked)
  }

  ghost predicate IsNewest(chunks: map<u32, AudioChunk>, s: u32) {
    s in chunks && forall t :: t in chunks ==> t <= s
  }

  /** Seq 0 is pinned and the newest chunk is protected. */
  ghost function Evictable(chunks: map<u32, AudioChunk>): set<u32> {
    set s | s in chunks && s != 0 && !IsNewest(chunks, s)
  }

  ghost function EvictToBudget(r: State): State {
    if r.used <= r.budget then r
    else
      var first := EvictWhile(r, Ascending(Evictable(r.chunks) * r.acked), true);
      if first.used <= first.budget then first
      else EvictWhile(first, Ascending(Evictable(r.chunks) * first.chunks.Keys), false)
  }

  ghost function Insert(r: State, c: AudioChunk): State {
    if c.seqNo in r.chunks then r
    else EvictToBudget(r.(used := r.used + ChunkCost(c), chunks := r.chunks[c.seqNo := c]))
  }

  function MarkAcked(r: State, s: set<u32>): State { r.(acked := r.acked + s) }

  // ---- what eviction guarantees -------------------------------------------

  ghost predicate Consistent(r: State) {
    && r.used == TotalCost(r.chunks)
    && (forall s :: s in r.chunks ==> r.chunks[s].seqNo == s)
    && r.chunks.Keys !! r.gaps && r.chunks.Keys !! r.evictedAcked && r.gaps !! r.evictedAcked
    && r.pending <= r.gaps
  }

  /** The ring with the chunks of `gone` evicted in one go. */
  ghost function Without(r: State, gone: set<u32>, acked: bool): State {
    State(
      r.budget, TotalCost(r.chunks - gone), r.chunks - gone, r.acked,
      if acked then r.pending else r.pending + gone,
      if acked then r.gaps else r.gaps + gone,
      if acked then r.evictedAcked + gone else r.evictedAcked)
  }

  lemma WithoutOk(r: State, gone: set<u32>, acked: bool)
    requires Consistent(r) && gone <= r.chunks.Keys
    ensures Consistent(Without(r, gone, acked))
  {
  }

  lemma EvictOne(r: State, v: u32, acked: bool)
    requires Consistent(r) && v in r.chunks
    ensures Evict(r, v, acked) == Without(r, {v}, acked)
    ensures Consistent(Evict(r, v, acked))
    ensures Evict(r, v, acked).chunks == r.chunks - {v} && Evict(r, v, acked).budget == r.budget
    ensures Evict(r, v, acked).used + ChunkCost(r.chunks[v]) == r.used
  {
    CostRemove(r.chunks, v);
    WithoutOk(r, {v}, acked);
  }

  lemma WithoutNone(r: State, acked: bool)
    requires Consistent(r)
    ensures Without(r, {}, acked) == r
  {
    assert r.chunks - {} == r.chunks;
  }

  lemma WithoutTwice(r: State, a: set<u32>, b: set<u32>, acked: bool)
    ensures Without(Without(r, a, acked), b, acked) == Without(r, a + b, acked)
  {
    assert r.chunks - a - b == r.chunks - (a + b);
    assert r.gaps + a + b == r.gaps + (a + b);
    assert r.pending + a + b == r.pending + (a + b);
    assert r.evictedAcked + a + b == r.evictedAcked + (a + b);
  }

  lemma RestResident(chunks: map<u32, AudioChunk>, victims: seq<u32>)
    requires victims != [] && StrictlyIncreasing(victims) && forall v :: v in victims ==> v in chunks
    ensures forall w :: w in victims[1..] ==> w in chunks - {victims[0]}
    ensures StrictlyIncreasing(victims[1..])
  {
    forall w | w in victims[1..] ensures w in chunks - {victims[0]} {
      var i :| 0 <= i < |victims[1..]| && victims[1..][i] == w;
      assert victims[i + 1] == w;
    }
  }

  /** Eviction along a victim list removes exactly a prefix of it, and stops as soon as the budget is met. */
  lemma {:induction false} EvictWhileFacts(r: State, victims: seq<u32>, acked: bool) returns (k: nat)
    requires Consistent(r)
    requires StrictlyIncreasing(victims)
    requires forall v :: v in victims ==> v in r.chunks
    ensures k <= |victims|
    ensures EvictWhile(r, victims, acked) == Without(r, Elems(victims[..k]), acked)
    ensures k < |victims| ==> EvictWhile(r, victims, acked).used <= r.budget
    ensures k > 0 ==>
        victims[k - 1] in r.chunks
        && EvictWhile(r, victims, acked).used + ChunkCost(r.chunks[victims[k - 1]]) > r.budget
    ensures k == 0 ==> EvictWhile(r, victims, acked) == r
    decreases |victims|
  {
    hide Consistent, Evict, Without;
    if victims == [] || r.used <= r.budget {
      k := 0;
      assert Elems(victims[..k]) == {};
      WithoutNone(r, acked);
    } else {
      var v, rest := victims[0], victims[1..];
      assert v in victims;
      EvictOne(r, v, acked);
      var next := Evict(r, v, acked);
      RestResident(r.chunks, victims);
      var m := EvictWhileFacts(next, rest, acked);
      k := m + 1;
      assert Elems(victims[..k]) == {v} + Elems(rest[..m]) by { assert victims[..k] == [v] + rest[..m]; }
      WithoutTwice(r, {v}, Elems(rest[..m]), acked);
      if m > 0 { assert victims[k - 1] == rest[m - 1]; }
    }
  }

  /**
   * The eviction policy, for the chunks moved to `evictedAcked` (recoverable) and to `gaps` (lost). Either the
   * budget is met or only seq 0 and the newest chunk remain; acknowledged chunks go first, oldest first; a gap
   * is declared only once no other acknowledged chunk is resident, and gaps are the oldest of what was left;
   * and without its last victim the ring would still be over budget.
   */
  ghost predicate EvictionPolicy(r: State, out: State) {
    Policy(r, out, out.evictedAcked - r.evictedAcked, out.gaps - r.gaps)
  }

  ghost predicate Policy(r: State, out: State, recoverable: set<u32>, lost: set<u32>) {
    var eligible := Evictable(r.chunks);
    && Moved(r, out, recoverable, lost)
    && recoverable <= eligible * r.acked && lost <= eligible - recoverable
    && (out.used <= out.budget || eligible == recoverable + lost)
    && (lost != {} ==> recoverable == eligible * r.acked)
    && OldestFirst(recoverable, eligible * r.acked)
    && OldestFirst(lost, eligible - recoverable)
    && (recoverable + lost != {} ==>
      var last := Latest(if lost != {} then lost else recoverable);
      last in r.chunks && out.used + ChunkCost(r.chunks[last]) > out.budget)
  }

  /** `out` is `r` with those chunks moved, and nothing else changed. */
  ghost predicate Moved(r: State, out: State, recoverable: set<u32>, lost: set<u32>) {
    && out.budget == r.budget && out.acked == r.acked
    && out.chunks == r.chunks - (recoverable + lost)
    && out.evictedAcked == r.evictedAcked + recoverable
    && out.gaps == r.gaps + lost && out.pending == r.pending + lost
  }

  ghost predicate OldestFirst(taken: set<u32>, from: set<u32>) {
    forall v, s :: v in taken && s in from - taken ==> v < s
  }

  /** A prefix of an increasing list is below whatever of the list is not in it. */
  lemma PrefixFacts(q: seq<u32>, k: nat)
    requires StrictlyIncreasing(q) && k <= |q|
    ensures Elems(q[..k]) <= Elems(q)
    ensures forall v, s :: v in Elems(q[..k]) && s in Elems(q) - Elems(q[..k]) ==> v < s
    ensures k > 0 ==> q[k - 1] in Elems(q[..k]) && forall v :: v in Elems(q[..k]) ==> v <= q[k - 1]
    ensures k == |q| ==> Elems(q[..k]) == Elems(q)
  {
    forall v | v in q[..k] ensures v in q && (k > 0 ==> v <= q[k - 1]) {
      var i :| 0 <= i < k && q[..k][i] == v;
      assert q[i] == v;
    }
    forall j | 0 <= j < k ensures q[j] in q[..k] {
      assert q[..k][j] == q[j];
    }
    forall v, s | v in Elems(q[..k]) && s in Elems(q) - Elems(q[..k]) ensures v < s {
      var i :| 0 <= i < k && q[..k][i] == v;
      var j :| 0 <= j < |q| && q[j] == s;
    }
    if k > 0 { assert q[k - 1] in q[..k]; }
    if k == |q| { assert q[..k] == q; }
  }

  /** One pass over candidates, oldest first, until the budget is met. */
  lemma Pass(r: State, candidates: set<u32>, acked: bool) returns (gone: set<u32>)
    requires Consistent(r) && candidates <= r.chunks.Keys
    ensures gone <= candidates && OldestFirst(gone, candidates)
    ensures EvictWhile(r, Ascending(candidates), acked) == Without(r, gone, acked)
    ensures Without(r, gone, acked).used <= r.budget || gone == candidates
    ensures gone != {} ==>
        Latest(gone) in r.chunks
        && Without(r, gone, acked).used + ChunkCost(r.chunks[Latest(gone)]) > r.budget
  {
    hide Consistent, EvictWhile, Without;
    var victims := Ascending(candidates);
    AscendingFacts(candidates);
    assert Elems(victims) == candidates;
    var k := EvictWhileFacts(r, victims, acked);
    PrefixFacts(victims, k);
    gone := Elems(victims[..k]);
  }

  lemma EvictToBudgetFacts(r: State)
    requires Consistent(r)
    ensures Consistent(EvictToBudget(r))
    ensures EvictionPolicy(r, EvictToBudget(r))
  {
    hide Consistent, EvictWhile, EvictionPolicy;
    if r.used <= r.budget {
      NoPass(r);
    } else {
      var eligible := Evictable(r.chunks);
      var front := Pass(r, eligible * r.acked, true);
      var first := Without(r, front, true);
      WithoutOk(r, front, true);
      if first.used <= first.budget {
        AckedPass(r, front);
      } else {
        assert eligible * first.chunks.Keys == eligible - front;
        var tail := Pass(first, eligible - front, false);
        WithoutOk(first, tail, false);
        assert first.chunks - {} == first.chunks;
        GapPass(r, front, tail);
      }
    }
  }

  lemma NoPass(r: State)
    requires Consistent(r) && r.used <= r.budget
    ensures EvictionPolicy(r, r)
  {
    assert r.chunks - {} == r.chunks;
    assert Policy(r, r, {}, {});
  }

  lemma AckedPass(r: State, front: set<u32>)
    requires Consistent(r) && front <= Evictable(r.chunks) * r.acked
    requires OldestFirst(front, Evictable(r.chunks) * r.acked)
    requires Without(r, front, true).used <= r.budget < r.used
    requires front != {} ==> Without(r, front, true).used + ChunkCost(r.chunks[Latest(front)]) > r.budget
    ensures EvictionPolicy(r, Without(r, front, true))
  {
    var out := Without(r, front, true);
    assert front + {} == front;
    assert Policy(r, out, front, {});
    assert out.evictedAcked - r.evictedAcked == front && out.gaps - r.gaps == {};
  }

  lemma GapPass(r: State, front: set<u32>, tail: set<u32>)
    requires Consistent(r) && front == Evictable(r.chunks) * r.acked && tail <= Evictable(r.chunks) - front
    requires OldestFirst(tail, Evictable(r.chunks) - front)
    requires var out := Without(Without(r, front, true), tail, false);
             && (out.used <= r.budget || tail == Evictable(r.chunks) - front)
             && (tail != {} ==> out.used + ChunkCost(r.chunks[Latest(tail)]) > r.budget)
             && (tail == {} && front != {} ==> out.used + ChunkCost(r.chunks[Latest(front)]) > r.budget)
    ensures EvictionPolicy(r, Without(Without(r, front, true), tail, false))
  {
    var out := Without(Without(r, front, true), tail, false);
    assert r.chunks - front - tail == r.chunks - (front + tail);
    assert Policy(r, out, front, tail);
    assert out.evictedAcked - r.evictedAcked == front && out.gaps - r.gaps == tail;
  }

  /** Every insert keeps the ring consistent, keeps the new chunk and seq 0, and follows the policy. */
  lemma InsertFacts(r: State, c: AudioChunk)
    requires Consistent(r) && c.seqNo !in r.chunks && c.seqNo !in r.gaps && c.seqNo !in r.evictedAcked
    ensures Consistent(Insert(r, c))
    ensures EvictionPolicy(r.(used := r.used + ChunkCost(c), chunks := r.chunks[c.seqNo := c]), Insert(r, c))
  {
    var grown := r.(used := r.used + ChunkCost(c), chunks := r.chunks[c.seqNo := c]);
    CostBelowInsert(r.chunks, c, U32_MAX + 1);
    EvictToBudgetFacts(grown);
  }
}
