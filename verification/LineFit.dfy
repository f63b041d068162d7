/** The drift estimator's robust line fit: sort-based medians and Theil-Sen, over exact reals. */
module LineFit {
  import opened Machine

  /** One accepted window: its centre in the target's samples, the measured lag, and the correlation peak. */
  datatype LagPoint = LagPoint(t: real, lag: real, peak: real)

  // ---- medians ----------------------------------------------------------------------------------

  function Insert(x: real, s: seq<real>): (r: seq<real>)
    ensures |r| == |s| + 1
  {
    if s == [] || x <= s[0] then [x] + s else [s[0]] + Insert(x, s[1..])
  }

  /** The library sort the source calls. */
  function Sorted(s: seq<real>): (r: seq<real>)
    ensures |r| == |s|
  {
    if s == [] then [] else Insert(s[0], Sorted(s[1..]))
  }

  predicate Ascending(s: seq<real>) {
    forall i, j :: 0 <= i <= j < |s| ==> s[i] <= s[j]
  }

  /** How often v occurs. */
  function Count(s: seq<real>, v: real): (n: nat)
    ensures n <= |s|
  {
    if s == [] then 0 else (if s[0] == v then 1 else 0) + Count(s[1..], v)
  }

  lemma {:induction false} CountConcat(a: seq<real>, b: seq<real>, v: real)
    ensures Count(a + b, v) == Count(a, v) + Count(b, v)
  {
    if a == [] {
      assert a + b == b;
    } else {
      assert (a + b)[1..] == a[1..] + b;
      CountConcat(a[1..], b, v);
    }
  }

  lemma {:induction false} CountAbsent(s: seq<real>, v: real)
    requires v !in s
    ensures Count(s, v) == 0
  {
    if s != [] {
      CountAbsent(s[1..], v);
    }
  }

  lemma {:induction false} InsertFacts(x: real, s: seq<real>)
    requires Ascending(s)
    ensures Ascending(Insert(x, s))
    ensures forall y :: y in Insert(x, s) <==> y == x || y in s
    ensures forall v :: Count(Insert(x, s), v) == Count([x] + s, v)
  {
    if s == [] || x <= s[0] {
    } else {
      InsertFacts(x, s[1..]);
      var rest := Insert(x, s[1..]);
      var all := [s[0]] + rest;
      assert all[1..] == rest;
      assert s == [s[0]] + s[1..];
      forall v ensures Count(all, v) == Count([x] + s, v) {
        assert ([x] + s)[1..] == s && ([x] + s[1..])[1..] == s[1..];
      }
      forall i, j | 0 <= i <= j < |all| ensures all[i] <= all[j] {
        if i == 0 && j > 0 {
          assert rest[j - 1] in rest;
        }
      }
    }
  }

  /** Sorting orders the values and keeps each as often as it occurred. */
  lemma {:induction false} SortedFacts(s: seq<real>)
    ensures Ascending(Sorted(s))
    ensures forall v :: Count(Sorted(s), v) == Count(s, v)
    ensures forall y :: y in Sorted(s) ==> y in s
  {
    if s != [] {
      var tail := Sorted(s[1..]);
      SortedFacts(s[1..]);
      InsertFacts(s[0], tail);
      assert ([s[0]] + tail)[1..] == tail;
      assert forall v :: Count(Insert(s[0], tail), v) == Count([s[0]] + tail, v);
    }
  }

  /** The middle value; the mean of the two middle ones when their number is even. */
  function MedianOf(s: seq<real>): Option<real> {
    var sorted := Sorted(s);
    var mid := |s| / 2;
    if s == [] then None
    else if |s| % 2 == 1 then Some(sorted[mid])
    else Some((sorted[mid - 1] + sorted[mid]) / 2.0)
  }

  /** Sorts the caller's buffer in place and reads the middle of it. */
  method Median(values: array<real>) returns (m: Option<real>)
    modifies values
    ensures values[..] == Sorted(old(values[..]))
    ensures m == MedianOf(old(values[..]))
  {
    if values.Length == 0 {
      return None;
    }
    var sorted := Sorted(values[..]);
    forall i | 0 <= i < values.Length {
      values[i] := sorted[i];
    }
    assert values[..] == sorted;
    var mid := values.Length / 2;
    m := Some(if values.Length % 2 == 1 then values[mid] else (values[mid - 1] + values[mid]) / 2.0);
  }

  /** In ascending order, what lies on the wrong side of position i cannot equal v. */
  lemma AscendingCount(s: seq<real>, i: nat, v: real)
    requires Ascending(s) && i < |s|
    ensures s[i] < v ==> Count(s, v) <= |s| - i - 1
    ensures s[i] > v ==> Count(s, v) <= i
  {
    if s[i] < v {
      assert s == s[..i + 1] + s[i + 1..];
      CountConcat(s[..i + 1], s[i + 1..], v);
      CountAbsent(s[..i + 1], v);
    } else if s[i] > v {
      assert s == s[..i] + s[i..];
      CountConcat(s[..i], s[i..], v);
      CountAbsent(s[i..], v);
    }
  }

  /** A value held by a strict majority is the median, whatever the others are. */
  lemma MajorityIsMedian(s: seq<real>, v: real)
    requires 2 * Count(s, v) > |s|
    ensures MedianOf(s) == Some(v)
  {
    hide Sorted, Count, Ascending;
    SortedFacts(s);
    var sorted := Sorted(s);
    var mid := |s| / 2;
    AscendingCount(sorted, mid, v);
    if |s| % 2 == 0 {
      AscendingCount(sorted, mid - 1, v);
    }
  }

  /** The median lies where all the values lie. */
  lemma MedianWithin(s: seq<real>, lo: real, hi: real)
    requires s != [] && forall y :: y in s ==> lo <= y <= hi
    ensures MedianOf(s).Some? && lo <= MedianOf(s).value <= hi
  {
    SortedFacts(s);
    var sorted, mid := Sorted(s), |s| / 2;
    assert sorted[mid] in sorted;
    if |s| % 2 == 0 {
      assert sorted[mid - 1] in sorted;
    }
  }

  lemma {:induction false} CountAll(s: seq<real>, v: real)
    requires forall y :: y in s ==> y == v
    ensures Count(s, v) == |s|
  {
    if s != [] {
      assert s[0] in s && forall y :: y in s[1..] ==> y in s;
      CountAll(s[1..], v);
    }
  }

  /** Where at most half of the values are zero and the others are above it, so is the median. */
  lemma MedianAboveZero(s: seq<real>)
    requires s != [] && 2 * Count(s, 0.0) <= |s| && forall y :: y in s ==> 0.0 <= y
    ensures MedianOf(s).Some? && MedianOf(s).value > 0.0
  {
    SortedFacts(s);
    var sorted, mid := Sorted(s), |s| / 2;
    assert sorted[mid] in sorted;
    if sorted[mid] == 0.0 {
      ZerosFirst(sorted, mid);
    }
    if |s| % 2 == 0 {
      assert sorted[mid - 1] in sorted;
    }
  }

  lemma ZerosFirst(sorted: seq<real>, mid: nat)
    requires Ascending(sorted) && mid < |sorted| && sorted[mid] == 0.0 && forall y :: y in sorted ==> 0.0 <= y
    ensures Count(sorted, 0.0) > mid
  {
    var low := sorted[..mid + 1];
    assert sorted == low + sorted[mid + 1..];
    forall y | y in low ensures y == 0.0 {
      var i :| 0 <= i <= mid && low[i] == y;
      assert sorted[i] in sorted;
    }
    CountConcat(low, sorted[mid + 1..], 0.0);
    CountAll(low, 0.0);
  }

  // ---- Theil-Sen --------------------------------------------------------------------------------

  /** Slopes from one point to each later one; a pair at the same abscissa has none. */
  function SlopesFrom(a: LagPoint, rest: seq<LagPoint>): seq<real> {
    if rest == [] then []
    else
      var dt := rest[0].t - a.t;
      (if dt != 0.0 then [(rest[0].lag - a.lag) / dt] else []) + SlopesFrom(a, rest[1..])
  }

  function PairSlopes(ps: seq<LagPoint>): seq<real> {
    if ps == [] then [] else SlopesFrom(ps[0], ps[1..]) + PairSlopes(ps[1..])
  }

  function InterceptOf(p: LagPoint, slope: real): real { p.lag - slope * p.t }

  function Intercepts(ps: seq<LagPoint>, slope: real): (r: seq<real>)
    ensures |r| == |ps|
  {
    if ps == [] then [] else [InterceptOf(ps[0], slope)] + Intercepts(ps[1..], slope)
  }

  function OrZero(m: Option<real>): real { if m.Some? then m.value else 0.0 }

  datatype Line = Line(slope: real, intercept: real) {
    function At(t: real): real { intercept + slope * t }

    predicate Holds(p: LagPoint) { p.lag == At(p.t) }

    function Residual(p: LagPoint): real {
      var r := p.lag - At(p.t);
      if r < 0.0 then -r else r
    }
  }

  function TheilSenLine(ps: seq<LagPoint>): Line {
    var slope := OrZero(MedianOf(PairSlopes(ps)));
    Line(slope, OrZero(MedianOf(Intercepts(ps, slope))))
  }

  method TheilSen(points: seq<LagPoint>) returns (line: Line)
    ensures line == TheilSenLine(points)
  {
    var slopes := CollectSlopes(points);
    var slope := MedianValue(slopes);
    var intercepts := CollectIntercepts(points, slope);
    var intercept := MedianValue(intercepts);
    line := Line(slope, intercept);
  }

  method CollectSlopes(points: seq<LagPoint>) returns (slopes: seq<real>)
    ensures slopes == PairSlopes(points)
  {
    slopes := [];
    for i := 0 to |points|
      invariant slopes + PairSlopes(points[i..]) == PairSlopes(points)
    {
      var a := points[i];
      ghost var rest, before := points[i + 1..], slopes;
      assert points[i..][1..] == rest && points[i..][0] == a;
      for j := i + 1 to |points|
        invariant slopes + SlopesFrom(a, points[j..]) == before + SlopesFrom(a, rest)
      {
        ghost var later := SlopesFrom(a, points[j + 1..]);
        assert points[j..][1..] == points[j + 1..] && points[j..][0] == points[j];
        var dt := points[j].t - a.t;
        if dt != 0.0 {
          var q := (points[j].lag - a.lag) / dt;
          assert SlopesFrom(a, points[j..]) == [q] + later;
          assert slopes + ([q] + later) == (slopes + [q]) + later;
          slopes := slopes + [q];
        } else {
          assert SlopesFrom(a, points[j..]) == later;
        }
      }
      assert points[|points|..] == [];
      assert slopes == before + SlopesFrom(a, rest);
    }
    assert points[|points|..] == [];
  }

  method CollectIntercepts(points: seq<LagPoint>, slope: real) returns (intercepts: seq<real>)
    ensures intercepts == Intercepts(points, slope)
  {
    intercepts := [];
    for i := 0 to |points|
      invariant intercepts + Intercepts(points[i..], slope) == Intercepts(points, slope)
    {
      ghost var later := Intercepts(points[i + 1..], slope);
      assert points[i..][1..] == points[i + 1..] && points[i..][0] == points[i];
      var c := InterceptOf(points[i], slope);
      assert Intercepts(points[i..], slope) == [c] + later;
      assert intercepts + ([c] + later) == (intercepts + [c]) + later;
      intercepts := intercepts + [c];
    }
    assert points[|points|..] == [];
  }

  /** Copies the values into a buffer and takes their median, zero when there are none. */
  method MedianValue(values: seq<real>) returns (m: real)
    ensures m == OrZero(MedianOf(values))
  {
    var buffer := new real[|values|](i requires 0 <= i < |values| => values[i]);
    assert buffer[..] == values;
    var middle := Median(buffer);
    m := OrZero(middle);
  }

  // ---- how much it tolerates --------------------------------------------------------------------

  /** How many of the points lie exactly on the line. */
  function OnLine(ps: seq<LagPoint>, line: Line): (n: nat)
    ensures n <= |ps|
  {
    if ps == [] then 0 else (if line.Holds(ps[0]) then 1 else 0) + OnLine(ps[1..], line)
  }

  /** No two points have the same abscissa. */
  predicate Apart(ps: seq<LagPoint>) {
    forall i, j :: 0 <= i < j < |ps| ==> ps[i].t != ps[j].t
  }

  /** The breakdown condition: most pairs of points lie on the line as a pair. */
  predicate MostPairsOn(ps: seq<LagPoint>, line: Line) {
    2 * OnLine(ps, line) * (OnLine(ps, line) - 1) > |ps| * (|ps| - 1)
  }

  lemma SlopeOnLine(a: LagPoint, b: LagPoint, line: Line)
    requires line.Holds(a) && line.Holds(b) && a.t != b.t
    ensures (b.lag - a.lag) / (b.t - a.t) == line.slope
  {
    var s, dt := line.slope, b.t - a.t;
    assert b.lag - a.lag == s * dt;
  }

  lemma {:induction false} SlopesFromCount(a: LagPoint, rest: seq<LagPoint>, line: Line)
    requires forall b :: b in rest ==> b.t != a.t
    ensures |SlopesFrom(a, rest)| == |rest|
    ensures line.Holds(a) ==> Count(SlopesFrom(a, rest), line.slope) >= OnLine(rest, line)
  {
    if rest != [] {
      SlopesFromCount(a, rest[1..], line);
      var q := (rest[0].lag - a.lag) / (rest[0].t - a.t);
      CountConcat([q], SlopesFrom(a, rest[1..]), line.slope);
      if line.Holds(a) && line.Holds(rest[0]) {
        SlopeOnLine(a, rest[0], line);
      }
    }
  }

  lemma {:induction false} PairSlopesCount(ps: seq<LagPoint>, line: Line)
    requires Apart(ps)
    ensures 2 * |PairSlopes(ps)| == |ps| * (|ps| - 1)
    ensures 2 * Count(PairSlopes(ps), line.slope) >= OnLine(ps, line) * (OnLine(ps, line) - 1)
  {
    if ps != [] {
      var rest := ps[1..];
      PairSlopesCount(rest, line);
      SlopesFromCount(ps[0], rest, line);
      CountConcat(SlopesFrom(ps[0], rest), PairSlopes(rest), line.slope);
      Triangle(OnLine(rest, line));
      Triangle(|rest|);
    }
  }

  lemma Triangle(n: nat)
    ensures (n + 1) * n == n * (n - 1) + 2 * n
  {
  }

  lemma {:induction false} InterceptsCount(ps: seq<LagPoint>, line: Line)
    ensures Count(Intercepts(ps, line.slope), line.intercept) >= OnLine(ps, line)
  {
    if ps != [] {
      InterceptsCount(ps[1..], line);
    }
  }

  lemma TimesMonotone(a: int, b: int, c: nat)
    requires a <= b
    ensures a * c <= b * c
  {
  }

  lemma HalfIsTooFew(k: nat, n: nat)
    requires k <= n && 2 * k <= n
    ensures 2 * (k * (k - 1)) <= n * (n - 1)
  {
    if k > 0 {
      TimesMonotone(2 * k, n, k - 1);
      TimesMonotone(k - 1, n - 1, n);
      assert 2 * (k * (k - 1)) == (2 * k) * (k - 1);
    } else if n > 0 {
      TimesMonotone(0, n - 1, n);
    }
  }

  lemma MostPairsIsMajority(k: nat, n: nat)
    requires k <= n && 2 * k * (k - 1) > n * (n - 1)
    ensures 2 * k > n && n >= 2
    ensures 2 * (k * (k - 1)) > n * (n - 1)
  {
    assert 2 * k * (k - 1) == 2 * (k * (k - 1));
    if 2 * k <= n {
      HalfIsTooFew(k, n);
    }
    assert k <= 1 ==> k * (k - 1) == 0;
  }

  /** With most pairs on the line, the fit returns that line whatever the other points are. */
  lemma TheilSenIsExact(ps: seq<LagPoint>, line: Line)
    requires Apart(ps) && MostPairsOn(ps, line)
    ensures TheilSenLine(ps) == line
  {
    var slopes, intercepts := PairSlopes(ps), Intercepts(ps, line.slope);
    MostPairsIsMajority(OnLine(ps, line), |ps|);
    assert MedianOf(slopes) == Some(line.slope) by {
      PairSlopesCount(ps, line);
      MajorityIsMedian(slopes, line.slope);
    }
    assert MedianOf(intercepts) == Some(line.intercept) by {
      InterceptsCount(ps, line);
      MajorityIsMedian(intercepts, line.intercept);
    }
  }
}
