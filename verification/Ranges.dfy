/** Sorted, coalesced sets of inclusive u32 ranges, verified as a refinement of finite sets. */
module Ranges {
  import opened Machine
  import opened Sets

  /** An inclusive range; it is empty when end < start. */
  datatype SeqRange = SeqRange(start: u32, end: u32) {
    predicate Contains(x: int) { start <= x <= end }

    predicate IsEmpty() { end < start }
  }

  // ---- the mathematical reading of a range list -------------------------

  ghost predicate Covers(rs: seq<SeqRange>, x: int) {
    exists i :: 0 <= i < |rs| && rs[i].Contains(x)
  }

  ghost function Span(r: SeqRange): (s: set<u32>)
    ensures forall x: u32 :: x in s <==> r.Contains(x)
  {
    set x: u32 | 0 <= x < U32_MAX + 1 && r.Contains(x)
  }

  /** The set a range list denotes, whether or not the list is sorted or overlap-free. */
  ghost function Members(rs: seq<SeqRange>): (s: set<u32>)
    ensures forall x: u32 :: x in s <==> Covers(rs, x)
  {
    set x: u32 | 0 <= x < U32_MAX + 1 && Covers(rs, x)
  }

  lemma CoversSplit(a: seq<SeqRange>, b: seq<SeqRange>, ab: seq<SeqRange>)
    requires ab == a + b
    ensures forall x: int :: Covers(ab, x) <==> Covers(a, x) || Covers(b, x)
    ensures |a| == 1 ==> forall x: int :: Covers(a, x) <==> a[0].Contains(x)
  {
    forall x: int | Covers(b, x) ensures Covers(ab, x) {
      var i :| 0 <= i < |b| && b[i].Contains(x);
      assert ab[|a| + i] == b[i];
    }
    forall x: int | Covers(a, x) ensures Covers(ab, x) {
      var i :| 0 <= i < |a| && a[i].Contains(x);
      assert ab[i] == a[i];
    }
    forall x: int | Covers(ab, x) ensures Covers(a, x) || Covers(b, x) {
      var i :| 0 <= i < |ab| && ab[i].Contains(x);
      if i < |a| { assert a[i] == ab[i]; } else { assert b[i - |a|] == ab[i]; }
    }
    if |a| == 1 {
      forall x: int ensures Covers(a, x) <==> a[0].Contains(x) {
        if a[0].Contains(x) { assert Covers(a, x); }
      }
    }
  }

  /** Sorted, non-empty, non-adjacent: the invariant of the Rust struct. */
  ghost predicate Canonical(rs: seq<SeqRange>) {
    && (forall i :: 0 <= i < |rs| ==> rs[i].start <= rs[i].end)
    && (forall i, j :: 0 <= i < j < |rs| ==> rs[i].end + 1 < rs[j].start)
  }

  lemma CanonicalTail(rs: seq<SeqRange>)
    requires Canonical(rs) && rs != []
    ensures Canonical(rs[1..])
    ensures forall x: int :: Covers(rs[1..], x) <==> Covers(rs, x) && !rs[0].Contains(x)
  {
    CoversSplit([rs[0]], rs[1..], rs);
    forall x: int | Covers(rs[1..], x) ensures !rs[0].Contains(x) {
      var i :| 0 <= i < |rs[1..]| && rs[1..][i].Contains(x);
      assert rs[1..][i] == rs[i + 1];
    }
  }

  /** The first range of a canonical list is the maximal run that starts at its least member. */
  lemma FirstRun(rs: seq<SeqRange>)
    requires Canonical(rs) && rs != []
    ensures forall x: int :: rs[0].Contains(x) ==> Covers(rs, x)
    ensures forall x: int :: Covers(rs, x) ==> rs[0].start <= x
    ensures !Covers(rs, rs[0].end + 1)
  {
    forall x: int | rs[0].Contains(x) ensures Covers(rs, x) { }
    forall x: int | Covers(rs, x) ensures rs[0].start <= x && x != rs[0].end + 1 {
      var i :| 0 <= i < |rs| && rs[i].Contains(x);
      if i > 0 { assert rs[0].end + 1 < rs[i].start; }
    }
  }

  /** Canonical form is unique: two canonical lists with the same members are the same list. */
  lemma {:induction false} CanonicalUnique(a: seq<SeqRange>, b: seq<SeqRange>)
    requires Canonical(a) && Canonical(b)
    requires Members(a) == Members(b)
    ensures a == b
    decreases |a|
  {
    forall x: int ensures Covers(a, x) <==> Covers(b, x) {
      if 0 <= x <= U32_MAX {
        var y: u32 := x;
        assert y in Members(a) <==> Covers(a, y);
        assert y in Members(b) <==> Covers(b, y);
      }
    }
    if a != [] { FirstRun(a); assert Covers(a, a[0].start); }
    if b != [] { FirstRun(b); assert Covers(b, b[0].start); }
    if a != [] && b != [] {
      assert a[0].start == b[0].start;
      var ra, rb := a[0], b[0];
      assert rb.end <= ra.end || rb.Contains(ra.end + 1);
      assert ra.end <= rb.end || ra.Contains(rb.end + 1);
      assert a[0] == b[0];
      CanonicalTail(a);
      CanonicalTail(b);
      assert Members(a[1..]) == Members(b[1..]);
      CanonicalUnique(a[1..], b[1..]);
      assert a == [a[0]] + a[1..] && b == [b[0]] + b[1..];
    }
  }

  // ---- the canonical list of a set --------------------------------------

  /** The maximal runs of s below n, built by scanning upwards. */
  ghost function RunsBelow(s: set<u32>, n: nat): (rs: seq<SeqRange>)
    requires n <= U32_MAX + 1
  {
    if n == 0 then []
    else
      if n - 1 in s then Extend(RunsBelow(s, n - 1), n - 1) else RunsBelow(s, n - 1)
  }

  /** Scanning one more member, greater than all before it. */
  ghost function Extend(rs: seq<SeqRange>, m: u32): seq<SeqRange> {
    if rs != [] && rs[|rs| - 1].end == m - 1 then rs[..|rs| - 1] + [SeqRange(rs[|rs| - 1].start, m)]
    else rs + [SeqRange(m, m)]
  }

  lemma ExtendFacts(rs: seq<SeqRange>, m: u32)
    requires Canonical(rs) && forall i :: 0 <= i < |rs| ==> rs[i].end < m
    ensures Canonical(Extend(rs, m))
    ensures forall i :: 0 <= i < |Extend(rs, m)| ==> Extend(rs, m)[i].end <= m
    ensures forall x: int :: Covers(Extend(rs, m), x) <==> Covers(rs, x) || x == m
  {
    if rs != [] && rs[|rs| - 1].end == m - 1 {
      var front, last := rs[..|rs| - 1], rs[|rs| - 1];
      assert rs == front + [last];
      PushCovers(front, last);
      PushCovers(front, SeqRange(last.start, m));
    } else {
      PushCovers(rs, SeqRange(m, m));
    }
  }

  /** The canonical range list of a set: what `RangeSet::ranges()` returns. */
  ghost function RangesOf(s: set<u32>): seq<SeqRange> {
    RunsBelow(s, U32_MAX + 1)
  }

  lemma {:induction false} RunsBelowFacts(s: set<u32>, n: nat)
    requires n <= U32_MAX + 1
    ensures var rs := RunsBelow(s, n);
            && Canonical(rs)
            && (forall i :: 0 <= i < |rs| ==> rs[i].end < n)
            && (forall x: int :: Covers(rs, x) <==> 0 <= x < n && x in s)
  {
    if n > 0 {
      hide Extend, Canonical;
      RunsBelowFacts(s, n - 1);
      ExtendFacts(RunsBelow(s, n - 1), n - 1);
    } else {
      assert RunsBelow(s, n) == [];
    }
  }

  /** RangesOf is the canonical list of a set: it has exactly the set's members, and it is the only such list. */
  lemma RangesOfFacts(s: set<u32>)
    ensures Canonical(RangesOf(s))
    ensures Members(RangesOf(s)) == s
    ensures forall rs :: Canonical(rs) && Members(rs) == s ==> rs == RangesOf(s)
  {
    RunsBelowFacts(s, U32_MAX + 1);
    assert Members(RangesOf(s)) == s;
    forall rs | Canonical(rs) && Members(rs) == s ensures rs == RangesOf(s) {
      CanonicalUnique(rs, RangesOf(s));
    }
  }

  // ---- the mutable set ----------------------------------------------------

  /** Rust's `partition_point`: the number of leading elements that satisfy `pred`. */
  method PartitionPoint(rs: seq<SeqRange>, pred: SeqRange -> bool) returns (k: nat)
    requires forall i, j :: 0 <= i < j < |rs| && pred(rs[j]) ==> pred(rs[i])
    ensures k <= |rs|
    ensures forall i :: 0 <= i < k ==> pred(rs[i])
    ensures forall i :: k <= i < |rs| ==> !pred(rs[i])
    ensures k == |rs| || !pred(rs[k])
  {
    var lo, hi := 0, |rs|;
    while lo < hi
      invariant 0 <= lo <= hi <= |rs|
      invariant forall i :: 0 <= i < lo ==> pred(rs[i])
      invariant forall i :: hi <= i < |rs| ==> !pred(rs[i])
    {
      var mid := (lo + hi) / 2;
      if pred(rs[mid]) { lo := mid + 1; } else { hi := mid; }
    }
    k := lo;
  }

  class RangeSet {
    var ranges: seq<SeqRange>
    ghost var contents: set<u32>

    /** The representation is the canonical one of the contents; so `==` on RangeSet is set equality. */
    ghost predicate Valid() reads this { ranges == RangesOf(contents) }

    /** The set this object denotes. */
    ghost function Contents(): set<u32> reads this { contents }

    constructor ()
      ensures Valid() && Contents() == {}
    {
      ranges := [];
      contents := {};
      RangesOfFacts({});
      assert Canonical([]) && Members([]) == {};
    }

    /** What validity gives: sorted, non-empty, non-adjacent ranges that cover exactly the contents. */
    lemma Representation()
      requires Valid()
      ensures Canonical(ranges) && Members(ranges) == Contents()
    {
      RangesOfFacts(Contents());
    }

    predicate IsEmpty()
      reads this
    {
      ranges == []
    }

    lemma EmptyMeans()
      requires Valid()
      ensures IsEmpty() <==> Contents() == {}
    {
      Representation();
      if ranges != [] {
        FirstRun(ranges);
        assert ranges[0].Contains(ranges[0].start);
        assert ranges[0].start in Contents();
      }
    }

    method Contains(value: u32) returns (b: bool)
      requires Valid()
      ensures b <==> value in Contents()
    {
      Representation();
      var lo, hi := 0, |ranges|;
      while lo < hi
        invariant 0 <= lo <= hi <= |ranges|
        invariant forall i :: 0 <= i < lo ==> ranges[i].end < value
        invariant forall i :: hi <= i < |ranges| ==> value < ranges[i].start
      {
        var mid := (lo + hi) / 2;
        var r := ranges[mid];
        if value < r.start {
          hi := mid;
        } else if value > r.end {
          lo := mid + 1;
        } else {
          assert Covers(ranges, value);
          return true;
        }
      }
      b := false;
    }

    method InsertRange(range: SeqRange)
      requires Valid()
      modifies this
      ensures Valid()
      ensures Contents() == old(Contents()) + Span(range)
    {
      if range.IsEmpty() { return; }
      Representation();
      var lo := PartitionPoint(ranges, (r: SeqRange) => r.end + 1 < range.start);
      var hi := PartitionPoint(ranges, (r: SeqRange) => r.start <= range.end + 1);
      var newStart, newEnd := range.start, range.end;
      if lo < hi {
        newStart := Machine.Min(newStart, ranges[lo].start);
        newEnd := Machine.Max(newEnd, ranges[hi - 1].end);
      }
      ghost var was := ranges;
      ranges := ranges[..lo] + [SeqRange(newStart, newEnd)] + ranges[hi..];
      contents := contents + Span(range);
      SpliceFacts(was, range, lo, hi, SeqRange(newStart, newEnd), ranges);
      RangesOfFacts(contents);
    }

    method Insert(value: u32)
      requires Valid()
      modifies this
      ensures Valid()
      ensures Contents() == old(Contents()) + {value}
    {
      InsertRange(SeqRange(value, value));
    }

    method RemoveRange(range: SeqRange)
      requires Valid()
      modifies this
      ensures Valid()
      ensures Contents() == old(Contents()) - Span(range)
    {
      hide CutAll;
      Representation();
      CutNothing(range);
      if range.IsEmpty() || ranges == [] { return; }
      var result: seq<SeqRange> := [];
      for i := 0 to |ranges|
        invariant ranges == old(ranges) && contents == old(contents)
        invariant result == CutAll(ranges[..i], range)
      {
        var r := ranges[i];
        CutNext(ranges, range, i);
        if r.end < range.start || r.start > range.end {
          result := result + [r];
          continue;
        }
        if r.start < range.start {
          result := result + [SeqRange(r.start, range.start - 1)];
        }
        if r.end > range.end {
          result := result + [SeqRange(range.end + 1, r.end)];
        }
      }
      assert ranges[..|ranges|] == ranges;
      CutAllRemoves(ranges, range);
      ranges := result;
      contents := contents - Span(range);
      RangesOfFacts(contents);
    }

    method Remove(value: u32)
      requires Valid()
      modifies this
      ensures Valid()
      ensures Contents() == old(Contents()) - {value}
    {
      RemoveRange(SeqRange(value, value));
    }

    /** Back to the empty set. */
    method Clear()
      modifies this
      ensures Valid() && Contents() == {}
    {
      ranges := [];
      contents := {};
      RangesOfFacts({});
      assert Canonical([]) && Members([]) == {};
    }

    /** Take over another set's value (a move in the source). */
    method Assign(other: RangeSet)
      requires other.Valid()
      modifies this
      ensures Valid() && Contents() == old(other.Contents())
    {
      ranges, contents := other.ranges, other.contents;
    }

    /** A copy with its own storage (`Clone`). */
    method Clone() returns (out: RangeSet)
      requires Valid()
      ensures fresh(out) && out.Valid() && out.Contents() == Contents()
    {
      out := new RangeSet();
      out.ranges := ranges;
      out.contents := contents;
    }

    method Union(other: RangeSet) returns (out: RangeSet)
      requires Valid() && other.Valid()
      ensures fresh(out) && out.Valid()
      ensures out.Contents() == Contents() + other.Contents()
    {
      other.Representation();
      out := Clone();
      for i := 0 to |other.ranges|
        invariant fresh(out) && out.Valid()
        invariant out.Contents() == Contents() + Members(other.ranges[..i])
      {
        MembersSnoc(other.ranges, i);
        out.InsertRange(other.ranges[i]);
      }
      assert other.ranges[..|other.ranges|] == other.ranges;
    }

    method Subtract(other: RangeSet) returns (out: RangeSet)
      requires Valid() && other.Valid()
      ensures fresh(out) && out.Valid()
      ensures out.Contents() == Contents() - other.Contents()
    {
      other.Representation();
      out := Clone();
      for i := 0 to |other.ranges|
        invariant fresh(out) && out.Valid()
        invariant out.Contents() == Contents() - Members(other.ranges[..i])
      {
        MembersSnoc(other.ranges, i);
        out.RemoveRange(other.ranges[i]);
      }
      assert other.ranges[..|other.ranges|] == other.ranges;
    }

    /** The members of `within` that are not in this set. */
    method MissingWithin(within: SeqRange) returns (out: RangeSet)
      requires Valid()
      ensures fresh(out) && out.Valid()
      ensures out.Contents() == Span(within) - Contents()
    {
      Representation();
      out := FromRanges([within]);
      MembersSnoc([within], 0);
      assert [within][..1] == [within] && [within][..0] == [];
      for i := 0 to |ranges|
        invariant fresh(out) && out.Valid()
        invariant out.Contents() == Span(within) - Members(ranges[..i])
      {
        MembersSnoc(ranges, i);
        out.RemoveRange(ranges[i]);
      }
      assert ranges[..|ranges|] == ranges;
    }

    /** The end of the run that starts at zero; None exactly when zero is missing. */
    function ContiguousFromZero(): (r: Option<u32>)
      requires Valid()
      reads this
      ensures r.None? <==> 0 !in Contents()
      ensures r.Some? ==> Below(r.value + 1) <= Contents() && (r.value < U32_MAX ==> r.value + 1 !in Contents())
    {
      Representation();
      if ranges == [] then None
      else
        assert (forall x: int :: ranges[0].Contains(x) ==> Covers(ranges, x))
               && (forall x: int :: Covers(ranges, x) ==> ranges[0].start <= x)
               && !Covers(ranges, ranges[0].end + 1) by { FirstRun(ranges); }
        if ranges[0].start != 0 then None else Some(ranges[0].end)
    }

    /** The greatest member, if any. */
    function Max(): (r: Option<u32>)
      requires Valid()
      reads this
      ensures r.None? <==> Contents() == {}
      ensures r.Some? ==> r.value in Contents() && forall x: u32 :: x in Contents() ==> x <= r.value
    {
      Representation();
      if ranges == [] then None
      else
        var last := ranges[|ranges| - 1];
        assert Covers(ranges, last.end) by { assert last.Contains(last.end); }
        Some(last.end)
    }

    /** The least member, if any. */
    function Min(): (r: Option<u32>)
      requires Valid()
      reads this
      ensures r.None? <==> Contents() == {}
      ensures r.Some? ==> r.value in Contents() && forall x: u32 :: x in Contents() ==> r.value <= x
    {
      Representation();
      if ranges == [] then None
      else
        assert Covers(ranges, ranges[0].start) by { assert ranges[0].Contains(ranges[0].start); }
        Some(ranges[0].start)
    }

    /** The number of members, as a u64 that cannot overflow. */
    method Count() returns (n: u64)
      requires Valid()
      ensures n == |Contents()|
    {
      Representation();
      n := 0;
      for i := 0 to |ranges|
        invariant n == |Members(ranges[..i])|
        invariant n <= U32_MAX + 1
      {
        MembersSnoc(ranges, i);
        assert Members(ranges[..i]) !! Span(ranges[i]) by {
          forall x: u32 | Covers(ranges[..i], x) ensures !ranges[i].Contains(x) {
            var j :| 0 <= j < i && ranges[..i][j].Contains(x);
            assert ranges[j].end + 1 < ranges[i].start;
          }
        }
        SpanSize(ranges[i]);
        SubsetOfAllSize(Members(ranges[..i + 1]));
        n := n + (ranges[i].end - ranges[i].start + 1);
      }
      assert ranges[..|ranges|] == ranges;
    }

    /** The members in increasing order (`iter_values`). */
    method Values() returns (q: seq<u32>)
      requires Valid()
      ensures q == Ascending(Contents())
    {
      Representation();
      q := [];
      for i := 0 to |ranges|
        invariant StrictlyIncreasing(q)
        invariant forall x: u32 :: x in q <==> Covers(ranges[..i], x)
      {
        var run := RangeValues(ranges[i]);
        assert ranges[..i + 1] == ranges[..i] + [ranges[i]];
        PushCovers(ranges[..i], ranges[i]);
        forall k | 0 <= k < |q| ensures q[k] < ranges[i].start {
          assert q[k] in q;
          var j :| 0 <= j < i && ranges[..i][j].Contains(q[k]);
          assert ranges[j].end + 1 < ranges[i].start;
        }
        assert forall k :: 0 <= k < |run| ==> run[k] in run;
        q := q + run;
      }
      assert ranges[..|ranges|] == ranges;
      AscendingFacts(Contents());
      IncreasingUnique(q, Ascending(Contents()));
    }
  }

  lemma PushCovers(rs: seq<SeqRange>, r: SeqRange)
    ensures forall x: int :: Covers(rs + [r], x) <==> Covers(rs, x) || r.Contains(x)
  {
    CoversSplit(rs, [r], rs + [r]);
    CoversSplit([r], [], [r]);
  }

  /** What is left of r once `range` is taken away. */
  ghost function Cut(r: SeqRange, range: SeqRange): seq<SeqRange> {
    if r.end < range.start || r.start > range.end then [r]
    else
      (if r.start < range.start then [SeqRange(r.start, range.start - 1)] else [])
      + (if r.end > range.end then [SeqRange(range.end + 1, r.end)] else [])
  }

  lemma CutFacts(rs: seq<SeqRange>, r: SeqRange, range: SeqRange)
    requires Canonical(rs) && r.start <= r.end && range.start <= range.end
    requires forall i :: 0 <= i < |rs| ==> rs[i].end + 1 < r.start
    ensures Canonical(rs + Cut(r, range))
    ensures forall i :: 0 <= i < |rs + Cut(r, range)| ==> (rs + Cut(r, range))[i].end <= r.end
    ensures forall x: int :: Covers(rs + Cut(r, range), x) <==> Covers(rs, x) || (r.Contains(x) && !range.Contains(x))
  {
    var cut := Cut(r, range);
    CoversSplit(rs, cut, rs + cut);
    forall x: int ensures Covers(cut, x) <==> r.Contains(x) && !range.Contains(x) {
      if |cut| == 2 {
        assert cut == [] + [cut[0]] + [cut[1]];
        PushCovers([], cut[0]);
        PushCovers([] + [cut[0]], cut[1]);
      } else if |cut| == 1 {
        assert cut == [] + [cut[0]];
        PushCovers([], cut[0]);
      }
    }
  }

  ghost function CutAll(rs: seq<SeqRange>, range: SeqRange): seq<SeqRange> {
    if rs == [] then [] else CutAll(rs[..|rs| - 1], range) + Cut(rs[|rs| - 1], range)
  }

  lemma CutNothing(range: SeqRange)
    ensures CutAll([], range) == []
  {
  }

  lemma CutNext(rs: seq<SeqRange>, range: SeqRange, i: nat)
    requires i < |rs|
    ensures CutAll(rs[..i + 1], range) == CutAll(rs[..i], range) + Cut(rs[i], range)
  {
    assert rs[..i + 1][..i] == rs[..i];
  }

  lemma {:induction false} CutAllFacts(rs: seq<SeqRange>, range: SeqRange)
    requires Canonical(rs) && range.start <= range.end
    ensures var cut := CutAll(rs, range);
            && Canonical(cut)
            && (rs == [] ==> cut == [])
            && (forall i :: 0 <= i < |cut| ==> cut[i].end <= rs[|rs| - 1].end)
            && (forall x: int :: Covers(cut, x) <==> Covers(rs, x) && !range.Contains(x))
  {
    if rs != [] {
      var front, last := rs[..|rs| - 1], rs[|rs| - 1];
      assert rs == front + [last];
      CutAllFacts(front, range);
      CutFacts(CutAll(front, range), last, range);
      PushCovers(front, last);
    }
  }

  lemma CutAllRemoves(rs: seq<SeqRange>, range: SeqRange)
    requires Canonical(rs) && range.start <= range.end
    ensures Canonical(CutAll(rs, range)) && Members(CutAll(rs, range)) == Members(rs) - Span(range)
  {
    hide CutAll;
    CutAllFacts(rs, range);
  }

  /** All numbers of one range in order (`r.start..=r.end`). */
  method RangeValues(r: SeqRange) returns (q: seq<u32>)
    requires r.start <= r.end
    ensures StrictlyIncreasing(q)
    ensures forall x: u32 :: x in q <==> r.Contains(x)
  {
    q := [];
    for v := r.start as int to r.end as int + 1
      invariant StrictlyIncreasing(q)
      invariant forall x: u32 :: x in q <==> r.start <= x < v
    {
      assert forall k :: 0 <= k < |q| ==> q[k] in q;
      q := q + [v];
    }
  }

  method FromRanges(rs: seq<SeqRange>) returns (out: RangeSet)
    ensures fresh(out) && out.Valid()
    ensures out.Contents() == Members(rs)
  {
    out := new RangeSet();
    for i := 0 to |rs|
      invariant fresh(out) && out.Valid()
      invariant out.Contents() == Members(rs[..i])
    {
      MembersSnoc(rs, i);
      out.InsertRange(rs[i]);
    }
    assert rs[..|rs|] == rs;
  }

  lemma MembersSnoc(rs: seq<SeqRange>, i: nat)
    requires i < |rs|
    ensures Members(rs[..i + 1]) == Members(rs[..i]) + Span(rs[i])
  {
    assert rs[..i + 1] == rs[..i] + [rs[i]];
    CoversSplit(rs[..i], [rs[i]], rs[..i + 1]);
    CoversSplit([rs[i]], [], [rs[i]]);
  }

  lemma {:induction false} BelowSize(n: nat)
    requires n <= U32_MAX + 1
    ensures |Below(n)| == n
  {
    if n > 0 {
      BelowSize(n - 1);
      assert Below(n) == Below(n - 1) + {n - 1};
    }
  }

  lemma SpanSize(r: SeqRange)
    requires r.start <= r.end
    ensures |Span(r)| == r.end - r.start + 1
  {
    BelowSize(r.end + 1);
    BelowSize(r.start);
    assert Below(r.end + 1) == Below(r.start) + Span(r);
  }

  lemma SubsetSize(a: set<u32>, b: set<u32>)
    requires a <= b
    ensures |a| <= |b|
  {
    assert b == a + (b - a);
  }

  lemma SubsetOfAllSize(a: set<u32>)
    ensures |a| <= U32_MAX + 1
  {
    BelowSize(U32_MAX + 1);
    SubsetSize(a, Below(U32_MAX + 1));
  }

  lemma SpliceFacts(was: seq<SeqRange>, range: SeqRange, lo: nat, hi: nat, merged: SeqRange, now: seq<SeqRange>)
    requires Canonical(was) && range.start <= range.end
    requires lo <= hi <= |was|
    requires forall i :: 0 <= i < lo ==> was[i].end + 1 < range.start
    requires forall i :: lo <= i < |was| ==> range.start <= was[i].end + 1
    requires forall i :: 0 <= i < hi ==> was[i].start <= range.end + 1
    requires forall i :: hi <= i < |was| ==> range.end + 1 < was[i].start
    requires lo == hi ==> merged == range
    requires lo < hi ==>
        merged.start == Machine.Min(range.start, was[lo].start)
        && merged.end == Machine.Max(range.end, was[hi - 1].end)
    requires now == was[..lo] + [merged] + was[hi..]
    ensures Canonical(now)
    ensures Members(now) == Members(was) + Span(range)
  {
    SpliceCanonical(was, range, lo, hi, merged);
    SpliceMembers(was, range, lo, hi, merged);
  }

  lemma SpliceCanonical(was: seq<SeqRange>, range: SeqRange, lo: nat, hi: nat, merged: SeqRange)
    requires Canonical(was) && range.start <= range.end
    requires lo <= hi <= |was|
    requires forall i :: 0 <= i < lo ==> was[i].end + 1 < range.start
    requires forall i :: hi <= i < |was| ==> range.end + 1 < was[i].start
    requires lo == hi ==> merged == range
    requires lo < hi ==>
        merged.start == Machine.Min(range.start, was[lo].start)
        && merged.end == Machine.Max(range.end, was[hi - 1].end)
    ensures Canonical(was[..lo] + [merged] + was[hi..])
  {
    var front, back := was[..lo], was[hi..];
    assert Canonical([merged]);
    CanonicalConcat(front, [merged]);
    assert forall j :: 0 <= j < |back| ==> merged.end + 1 < back[j].start;
    Ascends(front, merged, back);
    CanonicalConcat(front + [merged], back);
  }

  lemma CanonicalConcat(a: seq<SeqRange>, b: seq<SeqRange>)
    requires Canonical(a) && Canonical(b)
    requires forall i, j :: 0 <= i < |a| && 0 <= j < |b| ==> a[i].end + 1 < b[j].start
    ensures Canonical(a + b)
  {
  }

  lemma Ascends(front: seq<SeqRange>, mid: SeqRange, back: seq<SeqRange>)
    requires mid.start <= mid.end
    requires forall i :: 0 <= i < |front| ==> front[i].end + 1 < mid.start
    requires forall j :: 0 <= j < |back| ==> mid.end + 1 < back[j].start
    ensures forall i, j :: 0 <= i < |front| + 1 && 0 <= j < |back| ==>
              (front + [mid])[i].end + 1 < back[j].start
  {
  }

  lemma SpliceMembers(was: seq<SeqRange>, range: SeqRange, lo: nat, hi: nat, merged: SeqRange)
    requires Canonical(was) && range.start <= range.end
    requires lo <= hi <= |was|
    requires forall i :: lo <= i < hi ==> range.start <= was[i].end + 1 && was[i].start <= range.end + 1
    requires lo == hi ==> merged == range
    requires lo < hi ==>
        merged.start == Machine.Min(range.start, was[lo].start)
        && merged.end == Machine.Max(range.end, was[hi - 1].end)
    ensures Members(was[..lo] + [merged] + was[hi..]) == Members(was) + Span(range)
  {
    var now := was[..lo] + [merged] + was[hi..];
    forall x: u32 ensures Covers(now, x) <==> Covers(was, x) || range.Contains(x) {
      MergedFacts(was, range, lo, hi, merged, x);
      SplicePoint(was[..lo], was[lo..hi], was[hi..], merged, range, x);
      assert was == was[..lo] + was[lo..hi] + was[hi..];
    }
    assert Members(now) == Members(was) + Span(range);
  }

  lemma SplicePoint(front: seq<SeqRange>, mid: seq<SeqRange>, back: seq<SeqRange>, merged: SeqRange, range: SeqRange,
      x: int)
    requires merged.Contains(x) <==> Covers(mid, x) || range.Contains(x)
    ensures Covers(front + [merged] + back, x) <==> Covers(front + mid + back, x) || range.Contains(x)
  {
    CoversThree(front, mid, back, x);
    CoversThree(front, [merged], back, x);
    assert Covers([merged], x) <==> merged.Contains(x) by { CoversSplit([merged], [], [merged]); }
  }

  lemma CoversThree(a: seq<SeqRange>, b: seq<SeqRange>, c: seq<SeqRange>, x: int)
    ensures Covers(a + b + c, x) <==> Covers(a, x) || Covers(b, x) || Covers(c, x)
  {
    CoversSplit(a + b, c, a + b + c);
    CoversSplit(a, b, a + b);
  }

  lemma MergedFacts(was: seq<SeqRange>, range: SeqRange, lo: nat, hi: nat, merged: SeqRange, x: int)
    requires Canonical(was) && range.start <= range.end
    requires lo <= hi <= |was|
    requires forall i :: lo <= i < hi ==> range.start <= was[i].end + 1 && was[i].start <= range.end + 1
    requires lo == hi ==> merged == range
    requires lo < hi ==>
        merged.start == Machine.Min(range.start, was[lo].start)
        && merged.end == Machine.Max(range.end, was[hi - 1].end)
    ensures merged.Contains(x) <==> Covers(was[lo..hi], x) || range.Contains(x)
  {
    if lo < hi {
      assert was[lo..hi][0] == was[lo] && was[lo..hi][hi - lo - 1] == was[hi - 1];
      if Covers(was[lo..hi], x) {
        var i :| 0 <= i < hi - lo && was[lo..hi][i].Contains(x);
        assert was[lo + i].Contains(x);
      }
    }
  }

  lemma NoneMissing(f: u32, s: set<u32>)
    ensures Span(SeqRange(0, f)) - s == {} <==> Below(f + 1) <= s
  {
    assert Span(SeqRange(0, f)) == Below(f + 1);
    if Span(SeqRange(0, f)) - s == {} {
      forall x | x in Below(f + 1) ensures x in s {
        assert x !in Span(SeqRange(0, f)) - s;
      }
    }
  }
}
