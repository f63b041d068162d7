/** The drift estimator's outlier gate: exactly which points it drops, and what the confidence then says. */
module Gate {
  import opened Machine
  import opened LineFit
  import opened Drift

  /** How far the lag measured is from the line's, at most. */
  ghost predicate Near(p: LagPoint, line: Line, tol: real) {
    -tol <= p.lag - (line.intercept + line.slope * p.t) <= tol
  }

  ghost function NearOnes(ps: seq<LagPoint>, line: Line, tol: real): set<nat> {
    set i: nat | i < |ps| && Near(ps[i], line, tol)
  }

  /** The points at the near places, in their order. */
  ghost predicate Keeps(ps: seq<LagPoint>, kept: seq<LagPoint>, at: seq<nat>, line: Line, tol: real) {
    && |at| == |kept|
    && (forall i, j :: 0 <= i < j < |at| ==> at[i] < at[j])
    && (forall j :: 0 <= j < |at| ==> at[j] in NearOnes(ps, line, tol) && kept[j] == ps[at[j]])
    && (forall i :: i in NearOnes(ps, line, tol) ==> i in at)
  }

  lemma {:induction false} WithinKeeps(ps: seq<LagPoint>, line: Line, tol: real) returns (at: seq<nat>)
    requires tol >= 0.0
    ensures Keeps(ps, Within(ps, line, tol), at, line, tol)
  {
    hide Keeps, Near;
    if ps == [] {
      at := [];
      NoneKept(line, tol);
    } else {
      var rest := WithinKeeps(ps[1..], line, tol);
      at := OneMoreKept(ps, Within(ps[1..], line, tol), rest, line, tol);
    }
  }

  lemma NoneKept(line: Line, tol: real)
    ensures Keeps([], [], [], line, tol)
  {
  }

  /** One more point, in front. */
  lemma OneMoreKept(ps: seq<LagPoint>, kept: seq<LagPoint>, rest: seq<nat>, line: Line, tol: real)
      returns (at: seq<nat>)
    requires ps != [] && Keeps(ps[1..], kept, rest, line, tol)
    ensures Keeps(ps, (if line.Residual(ps[0]) <= tol then [ps[0]] else []) + kept, at, line, tol)
  {
    NearIsResidual(ps[0], line, tol);
    hide Near, Line.Residual;
    var front := if Near(ps[0], line, tol) then [0] else [];
    NearMoved(ps, line, tol);
    at := front + seq(|rest|, j requires 0 <= j < |rest| => rest[j] + 1);
    MovedKeeps(ps, (if Near(ps[0], line, tol) then [ps[0]] else []) + kept, at, |front|, kept, rest, line, tol);
  }

  lemma MovedKeeps(ps: seq<LagPoint>, out: seq<LagPoint>, at: seq<nat>, d: nat, kept: seq<LagPoint>, rest: seq<nat>,
      line: Line, tol: real)
    requires ps != [] && Keeps(ps[1..], kept, rest, line, tol)
    requires d == if Near(ps[0], line, tol) then 1 else 0
    requires |at| == |out| == d + |rest| && (d == 1 ==> at[0] == 0 && out[0] == ps[0])
    requires forall j :: 0 <= j < |rest| ==> at[d + j] == rest[j] + 1 && out[d + j] == kept[j]
    ensures Keeps(ps, out, at, line, tol)
  {
    NearMoved(ps, line, tol);
    hide Near, NearOnes;
    forall j | 0 <= j < |at| ensures at[j] in NearOnes(ps, line, tol) && out[j] == ps[at[j]] {
      if j >= d {
        var before := j - d;
        assert at[j] == at[d + before] && rest[before] in NearOnes(ps[1..], line, tol);
      }
    }
    forall i, j | 0 <= i < j < |at| ensures at[i] < at[j] {
      if j >= d {
        var later := j - d;
        assert at[j] == rest[later] + 1;
        if i >= d {
          var sooner := i - d;
          assert at[i] == rest[sooner] + 1;
        }
      }
    }
    forall i | i in NearOnes(ps, line, tol) ensures i in at {
      if i > 0 {
        var before := i - 1;
        assert before in NearOnes(ps[1..], line, tol);
        var j :| 0 <= j < |rest| && rest[j] == before;
        assert at[d + j] == i;
      }
    }
  }

  lemma NearMoved(ps: seq<LagPoint>, line: Line, tol: real)
    requires ps != []
    ensures forall i: nat :: i in NearOnes(ps[1..], line, tol) ==> i < |ps| - 1 && ps[1..][i] == ps[i + 1]
    ensures forall i: nat :: i in NearOnes(ps[1..], line, tol) <==> i + 1 in NearOnes(ps, line, tol)
    ensures 0 in NearOnes(ps, line, tol) <==> Near(ps[0], line, tol)
    ensures forall i: nat :: i in NearOnes(ps, line, tol) ==> i < |ps|
  {
  }

  lemma NearIsResidual(p: LagPoint, line: Line, tol: real)
    ensures line.Residual(p) <= tol <==> Near(p, line, tol)
  {
  }

  /** No place is named twice. */
  lemma {:induction false} PlacesCount(at: seq<nat>, places: set<nat>)
    requires forall i, j :: 0 <= i < j < |at| ==> at[i] < at[j]
    requires forall i :: i in places <==> i in at
    ensures |places| == |at|
  {
    if at != [] {
      var front, last := at[..|at| - 1], at[|at| - 1];
      assert at == front + [last] && last !in front;
      PlacesCount(front, places - {last});
    }
  }

  /** Eight times the median distance from the line, but no less than four samples. */
  ghost predicate IsTolerance(ps: seq<LagPoint>, line: Line, tol: real) {
    exists mad ::
      && IsMedian(Distances(ps, line), mad)
      && tol >= 4.0 && tol >= 8.0 * mad && (tol == 4.0 || tol == 8.0 * mad)
  }

  ghost function Distances(ps: seq<LagPoint>, line: Line): seq<real> {
    seq(|ps|, i requires 0 <= i < |ps| =>
      var d := ps[i].lag - (line.intercept + line.slope * ps[i].t); if d < 0.0 then -d else d)
  }

  /** Halfway between the two middle values of the same values in order; their number may be odd. */
  ghost predicate IsMedian(s: seq<real>, m: real) {
    exists sorted: seq<real> ::
      && Ascending(sorted) && multiset(sorted) == multiset(s) && |sorted| == |s| > 0
      && 2.0 * m == sorted[(|s| - 1) / 2] + sorted[|s| / 2]
  }

  lemma {:induction false} InsertKeeps(x: real, s: seq<real>)
    ensures multiset(Insert(x, s)) == multiset{x} + multiset(s)
  {
    if s != [] && x > s[0] {
      InsertKeeps(x, s[1..]);
      assert s == [s[0]] + s[1..];
    }
  }

  lemma {:induction false} SortedKeeps(s: seq<real>)
    ensures multiset(Sorted(s)) == multiset(s)
  {
    if s != [] {
      SortedKeeps(s[1..]);
      InsertKeeps(s[0], Sorted(s[1..]));
      assert s == [s[0]] + s[1..];
    }
  }

  lemma MedianIsMiddle(s: seq<real>)
    requires s != []
    ensures MedianOf(s).Some? && IsMedian(s, MedianOf(s).value)
  {
    SortedFacts(s);
    SortedKeeps(s);
    var sorted, m := Sorted(s), MedianOf(s).value;
    assert 2.0 * m == sorted[(|s| - 1) / 2] + sorted[|s| / 2];
  }

  lemma {:induction false} ResidualsAre(ps: seq<LagPoint>, line: Line)
    ensures Residuals(ps, line) == Distances(ps, line)
  {
    if ps != [] {
      DistancesAre(ps, line);
      DistancesAre(ps[1..], line);
      ResidualsAre(ps[1..], line);
      hide Distances, Line.Residual;
      var all := [line.Residual(ps[0])] + Residuals(ps[1..], line);
      forall i | 0 <= i < |ps| ensures all[i] == Distances(ps, line)[i] {
        if i > 0 { assert ps[1..][i - 1] == ps[i]; }
      }
    }
  }

  lemma DistancesAre(ps: seq<LagPoint>, line: Line)
    ensures |Distances(ps, line)| == |ps|
    ensures forall i :: 0 <= i < |ps| ==> Distances(ps, line)[i] == line.Residual(ps[i])
  {
  }

  lemma ToleranceIs(ps: seq<LagPoint>, line: Line)
    requires ps != []
    ensures IsTolerance(ps, line, Tolerance(OrZero(MedianOf(Residuals(ps, line)))))
  {
    ResidualsAre(ps, line);
    MedianIsMiddle(Distances(ps, line));
  }

  /**
   * The refit uses exactly the points that are at most a tolerance away from the first line, in their order, if that
   * leaves two; otherwise it uses all of them.
   */
  lemma GateIsExact(ps: seq<LagPoint>) returns (tol: real, at: seq<nat>)
    requires ps != []
    ensures IsTolerance(ps, TheilSenLine(ps), tol)
    ensures if |NearOnes(ps, TheilSenLine(ps), tol)| >= 2 then Keeps(ps, Used(ps), at, TheilSenLine(ps), tol)
            else Used(ps) == ps
  {
    var line := TheilSenLine(ps);
    tol := Tolerance(OrZero(MedianOf(Residuals(ps, line))));
    ToleranceIs(ps, line);
    at := WithinKeeps(ps, line, tol);
    PlacesCount(at, NearOnes(ps, line, tol));
    var kept := Within(ps, line, tol);
    if |kept| == |ps| { WithinAll(ps, line, tol); }
  }

  lemma {:induction false} WithinAll(ps: seq<LagPoint>, line: Line, tol: real)
    requires |Within(ps, line, tol)| == |ps|
    ensures Within(ps, line, tol) == ps
  {
    if ps != [] {
      WithinAll(ps[1..], line, tol);
    }
  }

  /** A window that measured pairs the centre of its target span with the centre of the reference span matched to it. */
  lemma PointPairsCentres(r: WindowRequest, m: WindowMeasure, ratio: real, offset: real)
    ensures PointOf(r, None) == [] && |PointOf(r, Some(m))| == 1
    ensures var p, half := PointOf(r, Some(m))[0], r.targetLen as real / 2.0;
            && p.peak == m.peak && p.t == r.targetStart as real + half
            && (OnClock(p, ratio, offset) <==>
                r.targetStart as real + half == offset + ratio * (r.refStart as real + m.lagInSegment + half))
  {
    var p := PointOf(r, Some(m))[0];
    assert p.t - p.lag == r.refStart as real + m.lagInSegment + r.targetLen as real / 2.0;
  }

  /** With fewer than two windows no clock is made up: no drift, no offset, no confidence. */
  lemma NoEvidenceNoDrift(ps: seq<LagPoint>, windowsTotal: nat)
    requires |ps| < 2
    ensures EstimateOf(ps, windowsTotal) == DriftEstimate(1.0, 0.0, 0.0, |ps|, windowsTotal)
  {
  }

  /** The share of the scheduled windows that were used scales the median peak; nothing is cut off. */
  lemma ConfidenceIsShare(medianPeak: real, used: nat, windowsTotal: nat)
    requires 0.0 <= medianPeak <= 1.0 && used <= windowsTotal && windowsTotal > 0
    ensures Confidence(medianPeak, used, windowsTotal) * windowsTotal as real == medianPeak * used as real
  {
    var share := used as real / windowsTotal as real;
    assert share * windowsTotal as real == used as real;
    assert 0.0 <= share <= 1.0;
    ProductInUnit(medianPeak, share);
    assert medianPeak * share * windowsTotal as real == medianPeak * (share * windowsTotal as real);
  }

  lemma ProductInUnit(x: real, y: real)
    requires 0.0 <= x <= 1.0 && 0.0 <= y <= 1.0
    ensures 0.0 <= x * y <= 1.0
  {
    ProductPositive(x, y);
    ProductPositive(1.0 - x, y);
    assert y - x * y == (1.0 - x) * y;
  }

  lemma ProductPositive(x: real, y: real)
    requires x >= 0.0 && y >= 0.0
    ensures x * y >= 0.0
  {
  }
}
