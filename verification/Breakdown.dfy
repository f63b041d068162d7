/** How many wrong windows the drift estimate tolerates, exactly. */
module Breakdown {
  import opened LineFit
  import opened Drift

  // ---- points the fit cannot place --------------------------------------------------------------

  /** How many steps up the i-th window is, when the first k are right. */
  function Height(k: nat, i: nat): nat { if i < k then 0 else i - k + 1 }

  /** The first k windows measure no drift; the others lie on a rise of h a window, too small for the gate. */
  function RisingPoint(k: nat, i: nat, h: real): LagPoint {
    LagPoint(i as real, h * Height(k, i) as real, 1.0)
  }

  function Rising(n: nat, k: nat, h: real): (ps: seq<LagPoint>)
    ensures |ps| == n
  {
    seq(n, i requires 0 <= i < n => RisingPoint(k, i, h))
  }

  /** Later points lie later and, once off the zero line, strictly higher, no steeper than h. */
  predicate Climbs(a: LagPoint, b: LagPoint, h: real) {
    && a.t < b.t && 0.0 <= a.lag <= b.lag
    && (a.lag == b.lag ==> b.lag == 0.0)
    && b.lag - a.lag <= h * (b.t - a.t)
  }

  predicate Staircase(ps: seq<LagPoint>, h: real) {
    forall i, j :: 0 <= i < j < |ps| ==> Climbs(ps[i], ps[j], h)
  }

  lemma Product(q: real, run: real)
    requires run > 0.0
    ensures q < 0.0 ==> q * run < 0.0
    ensures q == 0.0 ==> q * run == 0.0
    ensures q > 0.0 ==> q * run > 0.0
  {
  }

  lemma StepSlope(a: LagPoint, b: LagPoint, h: real)
    requires Climbs(a, b, h)
    ensures 0.0 <= (b.lag - a.lag) / (b.t - a.t) <= h
    ensures (b.lag - a.lag) / (b.t - a.t) == 0.0 ==> a.lag == b.lag == 0.0
  {
    var rise, run := b.lag - a.lag, b.t - a.t;
    var q := rise / run;
    assert q * run == rise;
    Product(q, run);
    Product(h - q, run);
    assert (h - q) * run == h * run - q * run;
  }

  const FLAT := Line(0.0, 0.0)

  lemma {:induction false} SlopesFromClimb(a: LagPoint, rest: seq<LagPoint>, h: real)
    requires forall b :: b in rest ==> Climbs(a, b, h)
    ensures forall y :: y in SlopesFrom(a, rest) ==> 0.0 <= y <= h
    ensures Count(SlopesFrom(a, rest), 0.0) <= if FLAT.Holds(a) then OnLine(rest, FLAT) else 0
  {
    if rest != [] {
      assert rest[0] in rest && Climbs(a, rest[0], h);
      assert forall b :: b in rest[1..] ==> b in rest;
      var q := (rest[0].lag - a.lag) / (rest[0].t - a.t);
      SlopesFromClimb(a, rest[1..], h);
      StepSlope(a, rest[0], h);
      CountConcat([q], SlopesFrom(a, rest[1..]), 0.0);
    }
  }

  lemma {:induction false} PairSlopesClimb(ps: seq<LagPoint>, h: real)
    requires Staircase(ps, h)
    ensures forall y :: y in PairSlopes(ps) ==> 0.0 <= y <= h
    ensures 2 * Count(PairSlopes(ps), 0.0) <= OnLine(ps, FLAT) * (OnLine(ps, FLAT) - 1)
  {
    if ps != [] {
      var a, rest := ps[0], ps[1..];
      PairSlopesClimb(rest, h);
      forall b | b in rest ensures Climbs(a, b, h) {
        var j :| 0 < j < |ps| && ps[j] == b;
      }
      SlopesFromClimb(a, rest, h);
      CountConcat(SlopesFrom(a, rest), PairSlopes(rest), 0.0);
      Triangle(OnLine(rest, FLAT));
    }
  }

  // ---- the rising points are such points --------------------------------------------------------

  lemma Between(low: real, high: real, t: real)
    requires low <= high && 0.0 <= t
    ensures low * t <= high * t && t * low <= t * high
    ensures 0.0 <= low ==> 0.0 <= low * t
  {
    var gap := high - low;
    assert gap * t >= 0.0;
    assert gap * t == high * t - low * t;
    assert low * t == t * low && high * t == t * high;
  }

  lemma RisingClimbs(k: nat, i: nat, j: nat, h: real)
    requires i < j && h > 0.0
    ensures Climbs(RisingPoint(k, i, h), RisingPoint(k, j, h), h)
  {
    var x, y := Height(k, i) as real, Height(k, j) as real;
    Between(0.0, x, h);
    Between(x, y, h);
    Between(y - x, j as real - i as real, h);
    assert h * y - h * x == h * (y - x);
    if x < y {
      Product(y - x, h);
    }
  }

  lemma RisingStaircase(n: nat, k: nat, h: real)
    requires h > 0.0
    ensures Staircase(Rising(n, k, h), h)
  {
    forall i, j | 0 <= i < j < n ensures Climbs(Rising(n, k, h)[i], Rising(n, k, h)[j], h) {
      RisingClimbs(k, i, j, h);
    }
  }

  lemma RisingRight(k: nat, i: nat, h: real)
    requires h > 0.0
    ensures FLAT.Holds(RisingPoint(k, i, h)) <==> i < k
    ensures OnClock(RisingPoint(k, i, h), 1.0, 0.0) <==> i < k
  {
    if i >= k {
      Product(Height(k, i) as real, h);
    }
  }

  /** Of the points from i on, the first k are right and no others. */
  lemma {:induction false} RisingCount(n: nat, k: nat, i: nat, h: real)
    requires k <= n && i <= n && h > 0.0
    ensures OnLine(Rising(n, k, h)[i..], FLAT) == if i < k then k - i else 0
    ensures CountOnClock(Rising(n, k, h)[i..], 1.0, 0.0) == if i < k then k - i else 0
    decreases n - i
  {
    var rest := Rising(n, k, h)[i..];
    if i < n {
      RisingCount(n, k, i + 1, h);
      RisingRight(k, i, h);
      assert rest[1..] == Rising(n, k, h)[i + 1..] && rest[0] == RisingPoint(k, i, h);
    }
  }

  // ---- nothing is dropped, and the slope stays wrong --------------------------------------------

  /** A rise small enough to stay within one sample over all n windows. */
  predicate Gentle(n: nat, h: real) { h > 0.0 && h * n as real <= 1.0 }

  lemma RisingBounds(n: nat, k: nat, i: nat, h: real, slope: real)
    requires k <= n && i < n && Gentle(n, h) && 0.0 <= slope <= h
    ensures 0.0 <= RisingPoint(k, i, h).lag <= 1.0
    ensures 0.0 <= slope * RisingPoint(k, i, h).t <= 1.0
    ensures -1.0 <= InterceptOf(RisingPoint(k, i, h), slope) <= 1.0
  {
    var p, x, t := RisingPoint(k, i, h), Height(k, i) as real, i as real;
    var lag, lift := h * x, slope * t;
    UnitBound(h, x, n as real, h);
    UnitBound(h, t, n as real, slope);
    assert p.lag == lag && p.t == t;
    assert slope * p.t == lift;
    assert InterceptOf(p, slope) == lag - lift;
  }

  lemma UnitBound(h: real, x: real, most: real, slope: real)
    requires 0.0 <= x <= most && h * most <= 1.0 && 0.0 <= slope <= h
    ensures 0.0 <= slope * x <= 1.0
  {
    Between(slope, h, x);
    Between(x, most, h);
    var atMost := h * most;
    assert slope * x <= h * x <= atMost;
  }

  lemma {:induction false} InterceptsNear(ps: seq<LagPoint>, slope: real)
    requires forall p :: p in ps ==> -1.0 <= InterceptOf(p, slope) <= 1.0
    ensures forall y :: y in Intercepts(ps, slope) ==> -1.0 <= y <= 1.0
  {
    if ps != [] {
      assert ps[0] in ps && forall p :: p in ps[1..] ==> p in ps;
      InterceptsNear(ps[1..], slope);
    }
  }

  lemma {:induction false} AllWithin(ps: seq<LagPoint>, line: Line, tol: real)
    requires forall p :: p in ps ==> line.Residual(p) <= tol
    ensures Within(ps, line, tol) == ps
  {
    if ps != [] {
      assert ps[0] in ps && forall p :: p in ps[1..] ==> p in ps;
      AllWithin(ps[1..], line, tol);
      assert [ps[0]] + ps[1..] == ps;
    }
  }

  lemma SmallResidual(p: LagPoint, line: Line)
    requires 0.0 <= p.lag <= 1.0 && 0.0 <= line.slope * p.t <= 1.0 && -1.0 <= line.intercept <= 1.0
    ensures line.Residual(p) <= 4.0
  {
    var at := line.slope * p.t;
    assert line.At(p.t) == line.intercept + at;
  }

  lemma FlatCount(n: nat, k: nat, h: real)
    requires k <= n && h > 0.0
    ensures 2 * Count(PairSlopes(Rising(n, k, h)), 0.0) <= k * (k - 1)
    ensures 2 * |PairSlopes(Rising(n, k, h))| == n * (n - 1)
    ensures forall y :: y in PairSlopes(Rising(n, k, h)) ==> 0.0 <= y <= h
  {
    var ps := Rising(n, k, h);
    RisingStaircase(n, k, h);
    RisingCount(n, k, 0, h);
    assert ps[0..] == ps;
    StairsCount(ps, h, n, k);
  }

  lemma StairsCount(ps: seq<LagPoint>, h: real, n: nat, k: nat)
    requires Staircase(ps, h) && |ps| == n && OnLine(ps, FLAT) == k
    ensures 2 * Count(PairSlopes(ps), 0.0) <= k * (k - 1)
    ensures 2 * |PairSlopes(ps)| == n * (n - 1)
    ensures forall y :: y in PairSlopes(ps) ==> 0.0 <= y <= h
  {
    StairsApart(ps, h);
    PairSlopesClimb(ps, h);
    PairSlopesCount(ps, FLAT);
  }

  lemma StairsApart(ps: seq<LagPoint>, h: real)
    requires Staircase(ps, h)
    ensures Apart(ps)
  {
    forall i, j | 0 <= i < j < |ps| ensures ps[i].t != ps[j].t {
      assert Climbs(ps[i], ps[j], h);
    }
  }

  /** At most half of all pairs of windows are flat ones. */
  lemma FlatPairs(n: nat, k: nat, h: real)
    requires k <= n && n >= 2 && h > 0.0 && 2 * k * (k - 1) <= n * (n - 1)
    ensures var slopes := PairSlopes(Rising(n, k, h));
            && slopes != [] && 2 * Count(slopes, 0.0) <= |slopes|
            && forall y :: y in slopes ==> 0.0 <= y <= h
  {
    FlatCount(n, k, h);
    var slopes := PairSlopes(Rising(n, k, h));
    HalfOfThem(n, k, |slopes|, Count(slopes, 0.0));
  }

  lemma HalfOfThem(n: nat, k: nat, all: nat, flat: nat)
    requires n >= 2 && 2 * k * (k - 1) <= n * (n - 1)
    requires 2 * all == n * (n - 1) && 2 * flat <= k * (k - 1)
    ensures all > 0 && 2 * flat <= all
  {
    TimesMonotone(1, n - 1, n);
    assert 2 * k * (k - 1) == 2 * (k * (k - 1));
  }

  /** The first fit's slope is wrong, and too small for the gate to see. */
  lemma RisingSlope(n: nat, k: nat, h: real)
    requires k <= n && n >= 2 && h > 0.0 && 2 * k * (k - 1) <= n * (n - 1)
    ensures 0.0 < TheilSenLine(Rising(n, k, h)).slope <= h
  {
    var slopes := PairSlopes(Rising(n, k, h));
    FlatPairs(n, k, h);
    MedianAboveZero(slopes);
    MedianWithin(slopes, 0.0, h);
  }

  lemma RisingNear(n: nat, k: nat, h: real, slope: real, p: LagPoint)
    requires k <= n && Gentle(n, h) && 0.0 <= slope <= h && p in Rising(n, k, h)
    ensures 0.0 <= p.lag <= 1.0 && 0.0 <= slope * p.t <= 1.0 && -1.0 <= InterceptOf(p, slope) <= 1.0
  {
    var i :| 0 <= i < n && Rising(n, k, h)[i] == p;
    RisingBounds(n, k, i, h, slope);
  }

  /** A line this close to all the points drops none of them. */
  lemma GateKeepsAll(n: nat, k: nat, h: real, line: Line, tol: real)
    requires k <= n && Gentle(n, h) && 0.0 <= line.slope <= h && -1.0 <= line.intercept <= 1.0 && tol >= 4.0
    ensures Within(Rising(n, k, h), line, tol) == Rising(n, k, h)
  {
    forall p | p in Rising(n, k, h) ensures line.Residual(p) <= tol {
      RisingNear(n, k, h, line.slope, p);
      SmallResidual(p, line);
    }
    AllWithin(Rising(n, k, h), line, tol);
  }

  lemma RisingIntercept(n: nat, k: nat, h: real, slope: real)
    requires k <= n && n > 0 && Gentle(n, h) && 0.0 <= slope <= h
    ensures -1.0 <= OrZero(MedianOf(Intercepts(Rising(n, k, h), slope))) <= 1.0
  {
    forall p | p in Rising(n, k, h) ensures -1.0 <= InterceptOf(p, slope) <= 1.0 {
      RisingNear(n, k, h, slope, p);
    }
    InterceptsNear(Rising(n, k, h), slope);
    MedianWithin(Intercepts(Rising(n, k, h), slope), -1.0, 1.0);
  }

  lemma RisingUsesAll(n: nat, k: nat, h: real)
    requires k <= n && n >= 2 && Gentle(n, h) && 2 * k * (k - 1) <= n * (n - 1)
    ensures Used(Rising(n, k, h)) == Rising(n, k, h)
  {
    var ps := Rising(n, k, h);
    var line := TheilSenLine(ps);
    RisingSlope(n, k, h);
    RisingIntercept(n, k, h, line.slope);
    GateKeepsAll(n, k, h, line, Tolerance(OrZero(MedianOf(Residuals(ps, line)))));
  }

  lemma RisingIsFair(n: nat, k: nat, h: real)
    requires k <= n && h > 0.0
    ensures Apart(Rising(n, k, h)) && CountOnClock(Rising(n, k, h), 1.0, 0.0) == k
  {
    var ps := Rising(n, k, h);
    RisingStaircase(n, k, h);
    StairsApart(ps, h);
    RisingCount(n, k, 0, h);
    assert ps[0..] == ps;
  }

  /** n windows, k of them right, and an estimate that is not the true clock. */
  lemma RisingMisleads(n: nat, k: nat, h: real)
    requires k <= n && n >= 2 && Gentle(n, h) && 2 * k * (k - 1) <= n * (n - 1)
    ensures EstimateOf(Rising(n, k, h), n).ratio != 1.0
  {
    var ps := Rising(n, k, h);
    var line := TheilSenLine(ps);
    RisingSlope(n, k, h);
    RisingUsesAll(n, k, h);
    HalfStep(n, h);
    WrongReport(line, ps, n);
  }

  lemma HalfStep(n: nat, h: real)
    requires n >= 2 && Gentle(n, h)
    ensures h <= 0.5
  {
    Between(2.0, n as real, h);
  }

  lemma WrongReport(line: Line, used: seq<LagPoint>, n: nat)
    requires 0.0 < line.slope <= 0.5
    ensures FromLine(line, used, n, n).ratio != 1.0
  {
    NotOne(line.slope);
    FromLineReports(line, used, n, n);
  }

  lemma NotOne(slope: real)
    requires 0.0 < slope <= 0.5
    ensures slope != 1.0 && 1.0 / (1.0 - slope) != 1.0
  {
    var q := 1.0 / (1.0 - slope);
    assert q * (1.0 - slope) == 1.0;
  }

  // ---- the exact breakdown point ----------------------------------------------------------------

  /** Every set of n windows at different positions, k of them right, gives the true clock back. */
  ghost predicate AlwaysRecovers(n: nat, k: nat) {
    forall ps: seq<LagPoint>, ratio: real, offset: real ::
      |ps| == n && Apart(ps) && ratio != 0.0 && CountOnClock(ps, ratio, offset) == k ==>
        EstimateOf(ps, n).ratio == ratio && EstimateOf(ps, n).initialOffset == offset
  }

  /** With no window, or one, there is only the fallback. */
  lemma TooFew(n: nat, k: nat)
    requires k <= n < 2
    ensures !AlwaysRecovers(n, k)
  {
    var ps := if n == 0 then [] else [LagPoint(0.0, if k == 1 then 0.0 else 1.0, 1.0)];
    assert |ps| == n && Apart(ps);
    assert CountOnClock(ps, 2.0, 0.0) == k;
    assert EstimateOf(ps, n).ratio == 1.0;
  }

  /** The estimate survives n - k arbitrary wrong windows exactly when most pairs of windows are right ones. */
  lemma BreakdownPoint(n: nat, k: nat)
    requires k <= n
    ensures AlwaysRecovers(n, k) <==> 2 * k * (k - 1) > n * (n - 1)
  {
    if 2 * k * (k - 1) > n * (n - 1) {
      forall ps: seq<LagPoint>, ratio: real, offset: real |
        |ps| == n && Apart(ps) && ratio != 0.0 && CountOnClock(ps, ratio, offset) == k
        ensures EstimateOf(ps, n).ratio == ratio && EstimateOf(ps, n).initialOffset == offset
      {
        ClockIsRecovered(ps, n, ratio, offset);
      }
    } else if n >= 2 {
      var h := 1.0 / n as real;
      assert h * n as real == 1.0;
      RisingIsFair(n, k, h);
      RisingMisleads(n, k, h);
    } else {
      TooFew(n, k);
    }
  }
}
