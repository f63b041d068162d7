/** Facts about finite sets of sequence numbers that every layer shares. */
module Sets {
  import opened Machine

  predicate Less(x: int, n: int) { x < n }

  /** All numbers below n, as a set. */
  ghost function Below(n: int): (s: set<u32>)
    ensures forall x: u32 :: x in s <==> x < n
  {
    set x: u32 | 0 <= x < U32_MAX + 1 && Less(x, n)
  }

  /** The members of s below n, in increasing order. */
  ghost function AscendingBelow(s: set<u32>, n: nat): (q: seq<u32>)
    requires n <= U32_MAX + 1
  {
    if n == 0 then []
    else AscendingBelow(s, n - 1) + (if n - 1 in s then [n - 1] else [])
  }

  /** The members of s in increasing order: the order of a Rust BTreeMap or RangeSet iterator. */
  ghost function Ascending(s: set<u32>): (q: seq<u32>)
  {
    AscendingBelow(s, U32_MAX + 1)
  }

  function Elems(q: seq<u32>): set<u32> { set x | x in q }

  ghost predicate StrictlyIncreasing(q: seq<u32>) {
    forall i, j :: 0 <= i < j < |q| ==> q[i] < q[j]
  }

  lemma {:induction false} AscendingBelowFacts(s: set<u32>, n: nat)
    requires n <= U32_MAX + 1
    ensures forall x: u32 :: x in AscendingBelow(s, n) <==> x in s && x < n
    ensures StrictlyIncreasing(AscendingBelow(s, n))
  {
    if n > 0 {
      AscendingBelowFacts(s, n - 1);
      var q := AscendingBelow(s, n - 1);
      assert forall i :: 0 <= i < |q| ==> q[i] in q;
    }
  }

  lemma AscendingFacts(s: set<u32>)
    ensures forall x: u32 :: x in Ascending(s) <==> x in s
    ensures StrictlyIncreasing(Ascending(s))
  {
    AscendingBelowFacts(s, U32_MAX + 1);
  }

  /** A strictly increasing list is determined by its elements. */
  lemma {:induction false} IncreasingUnique(p: seq<u32>, q: seq<u32>)
    requires StrictlyIncreasing(p) && StrictlyIncreasing(q)
    requires forall x: u32 :: x in p <==> x in q
    ensures p == q
    decreases |p|
  {
    assert p != [] ==> p[0] in p;
    assert q != [] ==> q[0] in q;
    if p != [] {
      assert p[0] == q[0];
      forall x: u32 ensures x in p[1..] <==> x in q[1..] {
        assert x in p <==> x == p[0] || x in p[1..];
        assert x in q <==> x == q[0] || x in q[1..];
        if x in p[1..] { var i :| 1 <= i < |p| && p[i] == x; assert x != p[0]; }
        if x in q[1..] { var i :| 1 <= i < |q| && q[i] == x; assert x != q[0]; }
      }
      IncreasingUnique(p[1..], q[1..]);
      assert p == [p[0]] + p[1..] && q == [q[0]] + q[1..];
    }
  }

  /** The greatest member of a non-empty set. */
  ghost function Latest(s: set<u32>): (m: u32)
    requires s != {}
    ensures m in s && forall v :: v in s ==> v <= m
  {
    AscendingFacts(s);
    var x :| x in s;
    assert x in Ascending(s);
    assert Ascending(s)[|Ascending(s)| - 1] in Ascending(s);
    Ascending(s)[|Ascending(s)| - 1]
  }

  /** A library sort, as a function: insert each element into the sorted rest. */
  function Sorted(q: seq<u32>): (r: seq<u32>)
    decreases |q|
  {
    if q == [] then [] else InsertSorted(q[0], Sorted(q[1..]))
  }

  function InsertSorted(x: u32, q: seq<u32>): seq<u32>
    decreases |q|
  {
    if q == [] || x <= q[0] then [x] + q else [q[0]] + InsertSorted(x, q[1..])
  }

  ghost predicate NonDecreasing(q: seq<u32>) { forall i, j :: 0 <= i < j < |q| ==> q[i] <= q[j] }

  lemma {:induction false} InsertSortedElements(x: u32, q: seq<u32>)
    ensures multiset(InsertSorted(x, q)) == multiset(q) + multiset{x}
    decreases |q|
  {
    if q != [] && x > q[0] {
      InsertSortedElements(x, q[1..]);
      assert q == [q[0]] + q[1..];
    }
  }

  lemma {:induction false} InsertSortedOrder(x: u32, q: seq<u32>)
    requires NonDecreasing(q)
    ensures NonDecreasing(InsertSorted(x, q))
    decreases |q|
  {
    if q != [] && x > q[0] {
      var rest := InsertSorted(x, q[1..]);
      InsertSortedOrder(x, q[1..]);
      InsertSortedElements(x, q[1..]);
      assert InsertSorted(x, q) == [q[0]] + rest;
      HeadIsLeast(q[0], x, q[1..], rest);
    }
  }

  lemma HeadIsLeast(head: u32, x: u32, tail: seq<u32>, rest: seq<u32>)
    requires NonDecreasing([head] + tail) && head < x && multiset(rest) == multiset(tail) + multiset{x}
    requires NonDecreasing(rest)
    ensures NonDecreasing([head] + rest)
  {
    forall j | 0 <= j < |rest| ensures head <= rest[j] {
      assert rest[j] in multiset(rest);
      if rest[j] != x {
        assert rest[j] in multiset(tail) && rest[j] in tail;
        var k :| 0 <= k < |tail| && tail[k] == rest[j];
        assert ([head] + tail)[0] == head && ([head] + tail)[k + 1] == tail[k];
      }
    }
  }

  /** The sort yields the same elements, in order. */
  lemma {:induction false} SortedFacts(q: seq<u32>)
    ensures NonDecreasing(Sorted(q)) && multiset(Sorted(q)) == multiset(q)
    decreases |q|
  {
    if q != [] {
      SortedFacts(q[1..]);
      InsertSortedOrder(q[0], Sorted(q[1..]));
      InsertSortedElements(q[0], Sorted(q[1..]));
      assert q == [q[0]] + q[1..];
    }
  }

  lemma {:induction false} SortedIsSame(q: seq<u32>)
    requires StrictlyIncreasing(q)
    ensures Sorted(q) == q
    decreases |q|
  {
    if q != [] {
      SortedIsSame(q[1..]);
      assert q == [q[0]] + q[1..];
      assert q[1..] == [] || q[0] <= q[1..][0];
    }
  }
}
