/** The clock-drift estimator: its window schedule, the gated refit, and what the estimate recovers. */
module Drift {
  import opened Machine
  import opened LineFit

  datatype Config = Config(windowLen: nat, interval: nat, maxInitialOffset: nat, maxDriftPpm: real) {
    function Step(): nat { Max(interval, 1) }
  }

  datatype WindowRequest = WindowRequest(targetStart: nat, targetLen: nat, refStart: nat, refLen: nat)

  datatype WindowMeasure = WindowMeasure(lagInSegment: real, peak: real)

  datatype DriftError =
    | NoWindowPending
    | WindowShape(expectedRef: nat, expectedTarget: nat, gotRef: nat, gotTarget: nat)

  datatype DriftEstimate = DriftEstimate(
    ratio: real,
    initialOffset: real,
    confidence: real,
    windowsUsed: nat,
    windowsTotal: nat)

  /** The correlation of one window, whose signal thresholds are not modelled. */
  type Measure = (seq<real>, seq<real>) -> Option<WindowMeasure>

  // ---- the window schedule ----------------------------------------------------------------------

  function CeilNat(x: real): (n: nat)
    ensures x <= n as real
  {
    if x <= 0.0 then 0 else -(-x).Floor
  }

  /** Knobs and stream lengths: all that the schedule depends on. */
  datatype Plan = Plan(config: Config, refLen: nat, targetLen: nat) {
    function MarginAt(targetEnd: nat): nat {
      config.maxInitialOffset + CeilNat(targetEnd as real * config.maxDriftPpm * 0.000001)
    }

    function RequestAt(start: nat): WindowRequest
      requires Usable(start)
    {
      var w := config.windowLen;
      var margin := MarginAt(start + w);
      var refStart := Max(start - margin, 0);
      WindowRequest(start, w, refStart, Min(start + w + margin, refLen) - refStart)
    }

    /** Some reference position within the margin can be laid under the window at start. */
    predicate Usable(start: nat) {
      start - MarginAt(start + config.windowLen) + config.windowLen <= refLen && config.windowLen <= refLen
    }

    function NextFrom(start: nat): Option<WindowRequest>
      decreases targetLen - start
    {
      if config.windowLen == 0 || start + config.windowLen > targetLen then None
      else if Usable(start) then Some(RequestAt(start))
      else NextFrom(start + config.Step())
    }
  }

  predicate Alignable(plan: Plan, start: nat, q: nat) {
    && start - plan.MarginAt(start + plan.config.windowLen) <= q
    && q <= start + plan.MarginAt(start + plan.config.windowLen)
    && q + plan.config.windowLen <= plan.refLen
  }

  /** A reference span as long as the window lies within the margin. */
  ghost predicate HasAlignment(plan: Plan, start: nat) { exists q: nat :: Alignable(plan, start, q) }

  lemma UsableMeansAlignable(plan: Plan, start: nat)
    ensures plan.Usable(start) <==> HasAlignment(plan, start)
  {
    if plan.Usable(start) {
      assert Alignable(plan, start, Max(start - plan.MarginAt(start + plan.config.windowLen), 0));
    }
  }

  /** The segment asked for lies in the stream and holds every alignment the margin allows, and no other. */
  lemma RequestCovers(plan: Plan, start: nat, q: nat)
    requires plan.Usable(start)
    ensures var r := plan.RequestAt(start);
            && r.refStart + r.refLen <= plan.refLen && r.targetLen <= r.refLen
            && (Alignable(plan, start, q) <==>
                r.refStart <= q && q + r.targetLen <= r.refStart + r.refLen)
  {
  }

  /** The position of the k-th scheduled window: one every interval, or every sample if the interval is zero. */
  function ScheduledAt(plan: Plan, start: nat, k: nat): nat {
    start + k * (if plan.config.interval == 0 then 1 else plan.config.interval)
  }

  /** The next request is the first scheduled window that has an alignment; none means none ever will have. */
  lemma {:induction false} NextIsFirstUsable(plan: Plan, start: nat, k: nat)
    requires plan.config.windowLen > 0
    requires ScheduledAt(plan, start, k) + plan.config.windowLen <= plan.targetLen
    requires HasAlignment(plan, ScheduledAt(plan, start, k))
    requires forall j: nat :: j < k ==> !HasAlignment(plan, ScheduledAt(plan, start, j))
    ensures plan.NextFrom(start) == Some(plan.RequestAt(ScheduledAt(plan, start, k)))
    decreases k
  {
    hide HasAlignment;
    var step := plan.config.Step();
    assert ScheduledAt(plan, start, 0) == start;
    UsableMeansAlignable(plan, start);
    if k > 0 {
      assert !HasAlignment(plan, ScheduledAt(plan, start, 0));
      ScheduledNext(plan, start, k - 1);
      var next := start + step;
      forall j: nat | j < k - 1 ensures !HasAlignment(plan, ScheduledAt(plan, next, j)) {
        ScheduledNext(plan, start, j);
        assert !HasAlignment(plan, ScheduledAt(plan, start, j + 1));
      }
      assert (k - 1) * step >= 0;
      NextIsFirstUsable(plan, next, k - 1);
    }
  }

  /** The margin is the coarse misalignment allowed for, and the drift that can have built up, in whole samples. */
  lemma MarginIsLeast(plan: Plan, targetEnd: nat)
    ensures var slack := (plan.MarginAt(targetEnd) - plan.config.maxInitialOffset) as real;
            var drift := targetEnd as real * plan.config.maxDriftPpm * 0.000001;
            0.0 <= slack && drift <= slack && (slack < drift + 1.0 || slack == 0.0)
  {
  }

  lemma ScheduledNext(plan: Plan, start: nat, j: nat)
    ensures ScheduledAt(plan, start + plan.config.Step(), j) == ScheduledAt(plan, start, j + 1)
  {
    assert (j + 1) * plan.config.Step() == j * plan.config.Step() + plan.config.Step();
  }

  lemma {:induction false} NextFacts(plan: Plan, start: nat)
    ensures var next := plan.NextFrom(start);
            next.Some? ==>
              && plan.config.windowLen > 0
              && next.value.targetStart >= start
              && plan.Usable(next.value.targetStart)
              && next.value == plan.RequestAt(next.value.targetStart)
              && next.value.targetStart + plan.config.windowLen <= plan.targetLen
    decreases plan.targetLen - start
  {
    if plan.config.windowLen == 0 || start + plan.config.windowLen > plan.targetLen {
    } else if !plan.Usable(start) {
      NextFacts(plan, start + plan.config.Step());
    }
  }

  // ---- the estimate -----------------------------------------------------------------------------

  function Residuals(ps: seq<LagPoint>, line: Line): seq<real> {
    if ps == [] then [] else [line.Residual(ps[0])] + Residuals(ps[1..], line)
  }

  /** The points no farther than tol from the line, in their order. */
  function Within(ps: seq<LagPoint>, line: Line, tol: real): (kept: seq<LagPoint>)
    ensures |kept| <= |ps|
  {
    if ps == [] then []
    else (if line.Residual(ps[0]) <= tol then [ps[0]] else []) + Within(ps[1..], line, tol)
  }

  function Tolerance(mad: real): real {
    if 8.0 * mad > 4.0 then 8.0 * mad else 4.0
  }

  /** The points the fit ends up using: the gated ones when the gate drops some but leaves two. */
  function Used(ps: seq<LagPoint>): seq<LagPoint> {
    var line := TheilSenLine(ps);
    var kept := Within(ps, line, Tolerance(OrZero(MedianOf(Residuals(ps, line)))));
    if 2 <= |kept| < |ps| then kept else ps
  }

  function Peaks(ps: seq<LagPoint>): seq<real> {
    if ps == [] then [] else [ps[0].peak] + Peaks(ps[1..])
  }

  function Clamp01(x: real): (r: real)
    ensures 0.0 <= r <= 1.0
  {
    if x < 0.0 then 0.0 else if x > 1.0 then 1.0 else x
  }

  /** The median peak of the windows used, times the share of scheduled windows they are. */
  function Confidence(medianPeak: real, used: nat, windowsTotal: nat): real {
    var coverage := used as real / Max(windowsTotal, 1) as real;
    Clamp01(medianPeak * coverage)
  }

  function NoDrift(count: nat, windowsTotal: nat): DriftEstimate {
    DriftEstimate(1.0, 0.0, 0.0, count, windowsTotal)
  }

  /** A slope of one is the division by zero that the source's finiteness check catches. */
  function FromLine(line: Line, used: seq<LagPoint>, count: nat, windowsTotal: nat): DriftEstimate {
    if line.slope == 1.0 then NoDrift(count, windowsTotal)
    else
      var ratio := 1.0 / (1.0 - line.slope);
      DriftEstimate(ratio, line.intercept * ratio,
                    Confidence(OrZero(MedianOf(Peaks(used))), |used|, windowsTotal), |used|, windowsTotal)
  }

  /** The two fitted numbers are those of the line. */
  predicate Reports(e: DriftEstimate, line: Line) {
    && line.slope != 1.0
    && e.ratio == 1.0 / (1.0 - line.slope)
    && e.initialOffset == line.intercept * e.ratio
  }

  function EstimateOf(ps: seq<LagPoint>, windowsTotal: nat): DriftEstimate {
    if |ps| < 2 then NoDrift(|ps|, windowsTotal)
    else FromLine(TheilSenLine(Used(ps)), Used(ps), |ps|, windowsTotal)
  }

  // ---- the estimator object ---------------------------------------------------------------------

  class DriftEstimator {
    const plan: Plan
    const measure: Measure
    var cursor: nat
    var windowsTotal: nat
    var points: seq<LagPoint>

    /** Window centres ascend and all lie before the next window's. */
    ghost predicate Valid()
      reads this
    {
      Ordered(plan, points, cursor)
    }

    constructor (config: Config, refLen: nat, targetLen: nat, measure: Measure)
      ensures Valid() && plan == Plan(config, refLen, targetLen) && this.measure == measure
      ensures cursor == 0 && windowsTotal == 0 && points == []
    {
      this.plan := Plan(config, refLen, targetLen);
      this.measure := measure;
      cursor, windowsTotal, points := 0, 0, [];
    }

    /** A pure peek at the next window. */
    method NextRequest() returns (request: Option<WindowRequest>)
      ensures request == plan.NextFrom(cursor)
    {
      var w := plan.config.windowLen;
      if w == 0 {
        return None;
      }
      var start := cursor;
      while start + w <= plan.targetLen
        invariant plan.NextFrom(cursor) == plan.NextFrom(start)
        decreases plan.targetLen - start
      {
        var margin := plan.MarginAt(start + w);
        var refStart := Max(start - margin, 0);
        var refEnd := Min(start + w + margin, plan.refLen);
        if refEnd >= refStart + w {
          return Some(WindowRequest(start, w, refStart, refEnd - refStart));
        }
        start := start + plan.config.Step();
      }
      request := None;
    }

    /** Takes the slices of the pending window; a wrong shape or an exhausted schedule changes nothing. */
    method PushWindow(reference: seq<real>, target: seq<real>) returns (result: Result<(), DriftError>)
      requires Valid()
      modifies this
      ensures Valid()
      ensures old(plan.NextFrom(cursor)).None? ==> result == Err(NoWindowPending)
      ensures result.Err? ==> cursor == old(cursor) && windowsTotal == old(windowsTotal) && points == old(points)
      ensures old(plan.NextFrom(cursor)).Some? ==>
                var r := old(plan.NextFrom(cursor)).value;
                if |reference| != r.refLen || |target| != r.targetLen then
                  result == Err(WindowShape(r.refLen, r.targetLen, |reference|, |target|))
                else
                  && result == Ok(())
                  && cursor == r.targetStart + plan.config.Step()
                  && windowsTotal == old(windowsTotal) + 1
                  && points == old(points) + PointOf(r, measure(reference, target))
    {
      var request := NextRequest();
      if request.None? {
        return Err(NoWindowPending);
      }
      var r := request.value;
      if |reference| != r.refLen || |target| != r.targetLen {
        return Err(WindowShape(r.refLen, r.targetLen, |reference|, |target|));
      }
      NextFacts(plan, cursor);
      OrderedPush(plan, points, cursor, r, measure(reference, target));
      cursor := r.targetStart + plan.config.Step();
      windowsTotal := windowsTotal + 1;
      points := points + PointOf(r, measure(reference, target));
      result := Ok(());
    }

    /** The robust fit over everything pushed so far, gated and refitted once. */
    method Estimate() returns (estimate: DriftEstimate)
      ensures estimate == EstimateOf(points, windowsTotal)
    {
      if |points| < 2 {
        estimate := NoDrift(|points|, windowsTotal);
      } else {
        var line := TheilSen(points);
        var mad := MedianValue(Residuals(points, line));
        var kept := Within(points, line, Tolerance(mad));
        var used := points;
        if 2 <= |kept| < |points| {
          line := TheilSen(kept);
          used := kept;
        }
        assert used == Used(points);
        estimate := Finish(line, used);
      }
    }

    method Finish(line: Line, used: seq<LagPoint>) returns (estimate: DriftEstimate)
      ensures estimate == FromLine(line, used, |points|, windowsTotal)
    {
      if line.slope == 1.0 {
        return NoDrift(|points|, windowsTotal);
      }
      var ratio := 1.0 / (1.0 - line.slope);
      var medianPeak := MedianValue(Peaks(used));
      estimate := DriftEstimate(ratio, line.intercept * ratio,
                                Confidence(medianPeak, |used|, windowsTotal), |used|, windowsTotal);
    }
  }

  function Centre(r: WindowRequest): real { r.targetStart as real + r.targetLen as real / 2.0 }

  function PointOf(r: WindowRequest, measured: Option<WindowMeasure>): seq<LagPoint> {
    match measured
    case None => []
    case Some(m) =>
      [LagPoint(Centre(r), r.targetStart as real - (r.refStart as real + m.lagInSegment), m.peak)]
  }

  ghost predicate Ordered(plan: Plan, points: seq<LagPoint>, cursor: nat) {
    && (forall i, j :: 0 <= i < j < |points| ==> points[i].t < points[j].t)
    && (forall i :: 0 <= i < |points| ==> points[i].t < cursor as real + plan.config.windowLen as real / 2.0)
  }

  lemma OrderedPush(plan: Plan, points: seq<LagPoint>, cursor: nat, r: WindowRequest, m: Option<WindowMeasure>)
    requires Ordered(plan, points, cursor)
    requires r.targetStart >= cursor && r.targetLen == plan.config.windowLen
    ensures Ordered(plan, points + PointOf(r, m), r.targetStart + plan.config.Step())
  {
    var step := plan.config.Step();
    assert (r.targetStart + step) as real >= r.targetStart as real + 1.0;
    assert r.targetStart as real >= cursor as real;
  }

  lemma OrderedIsApart(plan: Plan, points: seq<LagPoint>, cursor: nat)
    requires Ordered(plan, points, cursor)
    ensures Apart(points)
  {
  }

  // ---- exactness through the refit --------------------------------------------------------------

  lemma {:induction false} WithinFacts(ps: seq<LagPoint>, line: Line, tol: real)
    requires tol >= 0.0
    ensures OnLine(Within(ps, line, tol), line) == OnLine(ps, line)
    ensures forall p :: p in Within(ps, line, tol) ==> p in ps
  {
    if ps != [] {
      WithinFacts(ps[1..], line, tol);
      var rest := Within(ps[1..], line, tol);
      assert ([ps[0]] + rest)[1..] == rest && [] + rest == rest;
      assert ps == [ps[0]] + ps[1..];
    }
  }

  lemma {:induction false} WithinApart(ps: seq<LagPoint>, line: Line, tol: real)
    requires tol >= 0.0 && Apart(ps)
    ensures Apart(Within(ps, line, tol))
  {
    if ps != [] {
      var rest := Within(ps[1..], line, tol);
      WithinFacts(ps[1..], line, tol);
      WithinApart(ps[1..], line, tol);
      forall q | q in rest ensures q.t != ps[0].t {
        var i :| 0 < i < |ps| && ps[i] == q;
      }
      ApartCons(ps[0], rest);
    }
  }

  lemma ApartCons(p: LagPoint, rest: seq<LagPoint>)
    requires Apart(rest) && forall q :: q in rest ==> q.t != p.t
    ensures Apart([p] + rest)
  {
  }

  lemma FewerPairs(m: nat, n: nat)
    requires m <= n
    ensures m * (m - 1) <= n * (n - 1)
  {
    if m > 0 {
      TimesMonotone(m, n, m - 1);
      TimesMonotone(m - 1, n - 1, n);
    } else if n > 0 {
      TimesMonotone(0, n - 1, n);
    }
  }

  /** The gate only ever drops points that are off the line, so the refit finds the same line. */
  lemma UsedKeepsTheLine(ps: seq<LagPoint>, line: Line)
    requires Apart(ps) && MostPairsOn(ps, line)
    ensures TheilSenLine(Used(ps)) == line
    ensures OnLine(Used(ps), line) == OnLine(ps, line)
  {
    TheilSenIsExact(ps, line);
    var tol := Tolerance(OrZero(MedianOf(Residuals(ps, line))));
    var kept := Within(ps, line, tol);
    if 2 <= |kept| < |ps| {
      WithinFacts(ps, line, tol);
      WithinApart(ps, line, tol);
      FewerPairs(|kept|, |ps|);
      TheilSenIsExact(kept, line);
    }
  }

  lemma EstimateFollowsTheLine(ps: seq<LagPoint>, windowsTotal: nat, line: Line)
    requires Apart(ps) && MostPairsOn(ps, line) && line.slope != 1.0
    ensures Reports(EstimateOf(ps, windowsTotal), line)
    ensures OnLine(ps, line) <= EstimateOf(ps, windowsTotal).windowsUsed <= |ps|
  {
    TwoAtLeast(ps, line);
    var used := Used(ps);
    UsedKeepsTheLine(ps, line);
    FromLineReports(line, used, |ps|, windowsTotal);
  }

  lemma TwoAtLeast(ps: seq<LagPoint>, line: Line)
    requires MostPairsOn(ps, line)
    ensures |ps| >= 2
  {
    MostPairsIsMajority(OnLine(ps, line), |ps|);
  }

  lemma FromLineReports(line: Line, used: seq<LagPoint>, count: nat, windowsTotal: nat)
    requires line.slope != 1.0
    ensures Reports(FromLine(line, used, count, windowsTotal), line)
    ensures FromLine(line, used, count, windowsTotal).windowsUsed == |used|
  {
  }

  // ---- what the numbers mean --------------------------------------------------------------------

  /** The point was measured right: its window's reference position is where that clock puts it. */
  predicate OnClock(p: LagPoint, ratio: real, offset: real) {
    p.t == offset + ratio * (p.t - p.lag)
  }

  function ClockLine(ratio: real, offset: real): Line
    requires ratio != 0.0
  {
    Line(1.0 - 1.0 / ratio, offset / ratio)
  }

  lemma Reciprocal(ratio: real)
    requires ratio != 0.0
    ensures (1.0 / ratio) * ratio == 1.0 && 1.0 / ratio != 0.0 && 1.0 / (1.0 / ratio) == ratio
  {
    var inverse := 1.0 / ratio;
    assert inverse * ratio == 1.0;
  }

  lemma DivideByRatio(ratio: real, x: real, y: real)
    requires ratio != 0.0
    ensures x == y <==> x / ratio == y / ratio
    ensures (x / ratio) * ratio == x
  {
    assert (x / ratio) * ratio == x && (y / ratio) * ratio == y;
  }

  lemma ClockIsALine(p: LagPoint, ratio: real, offset: real)
    requires ratio != 0.0
    ensures ClockLine(ratio, offset).Holds(p) <==> OnClock(p, ratio, offset)
  {
    var inverse := 1.0 / ratio;
    Reciprocal(ratio);
    DivideByRatio(ratio, offset, offset);
    var c := offset / ratio;
    var gap := p.lag - (c + (1.0 - inverse) * p.t);
    assert gap * ratio == p.t - (offset + ratio * (p.t - p.lag)) by {
      ScaledGap(p.t, p.lag, c, inverse, ratio, offset);
    }
    if gap * ratio == 0.0 {
      assert gap == 0.0;
    }
  }

  lemma ScaledGap(t: real, lag: real, c: real, inverse: real, ratio: real, offset: real)
    requires inverse * ratio == 1.0 && c * ratio == offset
    ensures (lag - (c + (1.0 - inverse) * t)) * ratio == t - (offset + ratio * (t - lag))
  {
    assert (inverse * t) * ratio == (inverse * ratio) * t;
  }

  /** How many of the points were measured right. */
  function CountOnClock(ps: seq<LagPoint>, ratio: real, offset: real): (n: nat)
    ensures n <= |ps|
  {
    if ps == [] then 0
    else (if OnClock(ps[0], ratio, offset) then 1 else 0) + CountOnClock(ps[1..], ratio, offset)
  }

  lemma {:induction false} ClockCount(ps: seq<LagPoint>, ratio: real, offset: real)
    requires ratio != 0.0
    ensures OnLine(ps, ClockLine(ratio, offset)) == CountOnClock(ps, ratio, offset)
  {
    if ps != [] {
      ClockCount(ps[1..], ratio, offset);
      ClockIsALine(ps[0], ratio, offset);
    }
  }

  /** With k of n windows right and most pairs among those k, both numbers come back exactly, and no right
      window is dropped. */
  lemma ClockIsRecovered(ps: seq<LagPoint>, windowsTotal: nat, ratio: real, offset: real)
    requires Apart(ps) && ratio != 0.0
    requires MostPairsOnClock(ps, ratio, offset)
    ensures EstimateOf(ps, windowsTotal).ratio == ratio
    ensures EstimateOf(ps, windowsTotal).initialOffset == offset
    ensures CountOnClock(ps, ratio, offset) <= EstimateOf(ps, windowsTotal).windowsUsed <= |ps|
  {
    var line := ClockLine(ratio, offset);
    ClockPairs(ps, ratio, offset);
    ClockLineReports(EstimateOf(ps, windowsTotal), ratio, offset);
    EstimateFollowsTheLine(ps, windowsTotal, line);
  }

  lemma AnyClockIsRecovered(plan: Plan, ps: seq<LagPoint>, cursor: nat, windowsTotal: nat)
    requires Ordered(plan, ps, cursor)
    ensures forall ratio: real, offset: real :: ratio != 0.0 && MostPairsOnClock(ps, ratio, offset) ==>
              EstimateOf(ps, windowsTotal).ratio == ratio && EstimateOf(ps, windowsTotal).initialOffset == offset
  {
    OrderedIsApart(plan, ps, cursor);
    forall ratio: real, offset: real | ratio != 0.0 && MostPairsOnClock(ps, ratio, offset)
      ensures EstimateOf(ps, windowsTotal).ratio == ratio && EstimateOf(ps, windowsTotal).initialOffset == offset
    {
      ClockIsRecovered(ps, windowsTotal, ratio, offset);
    }
  }

  lemma ClockPairs(ps: seq<LagPoint>, ratio: real, offset: real)
    requires ratio != 0.0
    ensures OnLine(ps, ClockLine(ratio, offset)) == CountOnClock(ps, ratio, offset)
    ensures MostPairsOn(ps, ClockLine(ratio, offset)) == MostPairsOnClock(ps, ratio, offset)
  {
    ClockCount(ps, ratio, offset);
  }

  predicate MostPairsOnClock(ps: seq<LagPoint>, ratio: real, offset: real) {
    var k := CountOnClock(ps, ratio, offset);
    2 * k * (k - 1) > |ps| * (|ps| - 1)
  }

  lemma ClockLineReports(e: DriftEstimate, ratio: real, offset: real)
    requires ratio != 0.0
    ensures ClockLine(ratio, offset).slope != 1.0
    ensures Reports(e, ClockLine(ratio, offset)) ==> e.ratio == ratio && e.initialOffset == offset
  {
    Reciprocal(ratio);
    assert 1.0 - ClockLine(ratio, offset).slope == 1.0 / ratio;
    DivideByRatio(ratio, offset, offset);
  }

  // ---- a whole run ------------------------------------------------------------------------------

  /** The points of the windows scheduled from start on, one per window that measured. */
  function RunPoints(plan: Plan, measure: Measure, reference: seq<real>, target: seq<real>, start: nat): seq<LagPoint>
    requires |reference| == plan.refLen && |target| == plan.targetLen
    decreases plan.targetLen - start
  {
    NextFacts(plan, start);
    match plan.NextFrom(start)
    case None => []
    case Some(r) =>
      RequestCovers(plan, r.targetStart, 0);
      PointOf(r, measure(reference[r.refStart..r.refStart + r.refLen],
                         target[r.targetStart..r.targetStart + r.targetLen]))
      + RunPoints(plan, measure, reference, target, r.targetStart + plan.config.Step())
  }

  function RunTotal(plan: Plan, start: nat): nat
    decreases plan.targetLen - start
  {
    NextFacts(plan, start);
    match plan.NextFrom(start)
    case None => 0
    case Some(r) => 1 + RunTotal(plan, r.targetStart + plan.config.Step())
  }

  /** One window of a run: its slices are in bounds and its point comes before those of the later windows. */
  lemma RunStep(plan: Plan, measure: Measure, reference: seq<real>, target: seq<real>, start: nat, r: WindowRequest)
    requires |reference| == plan.refLen && |target| == plan.targetLen
    requires plan.NextFrom(start) == Some(r)
    ensures start <= r.targetStart && r.targetStart + r.targetLen <= plan.targetLen && r.targetLen > 0
    ensures r.refStart + r.refLen <= plan.refLen
    ensures var next := r.targetStart + plan.config.Step();
            && RunTotal(plan, start) == 1 + RunTotal(plan, next)
            && RunPoints(plan, measure, reference, target, start)
               == PointOf(r, measure(reference[r.refStart..r.refStart + r.refLen],
                                     target[r.targetStart..r.targetStart + r.targetLen]))
                  + RunPoints(plan, measure, reference, target, next)
  {
    NextFacts(plan, start);
    RequestCovers(plan, r.targetStart, 0);
  }

  lemma RunEnd(plan: Plan, measure: Measure, reference: seq<real>, target: seq<real>, start: nat)
    requires |reference| == plan.refLen && |target| == plan.targetLen
    requires plan.NextFrom(start) == None
    ensures RunPoints(plan, measure, reference, target, start) == [] && RunTotal(plan, start) == 0
  {
  }

  /** Pushes the pending window's slices, which is never refused. */
  method PushPending(estimator: DriftEstimator, reference: seq<real>, target: seq<real>, r: WindowRequest)
    requires estimator.Valid()
    requires |reference| == estimator.plan.refLen && |target| == estimator.plan.targetLen
    requires estimator.plan.NextFrom(estimator.cursor) == Some(r)
    modifies estimator
    ensures estimator.Valid()
    ensures estimator.cursor == r.targetStart + estimator.plan.config.Step()
    ensures old(estimator.cursor) < estimator.cursor && old(estimator.cursor) < estimator.plan.targetLen
    ensures old(estimator.points)
              + RunPoints(estimator.plan, estimator.measure, reference, target, old(estimator.cursor))
            == estimator.points
               + RunPoints(estimator.plan, estimator.measure, reference, target, estimator.cursor)
    ensures old(estimator.windowsTotal) + RunTotal(estimator.plan, old(estimator.cursor))
            == estimator.windowsTotal + RunTotal(estimator.plan, estimator.cursor)
  {
    hide RunPoints, RunTotal, PointOf;
    RunStep(estimator.plan, estimator.measure, reference, target, estimator.cursor, r);
    var segment := reference[r.refStart..r.refStart + r.refLen];
    var window := target[r.targetStart..r.targetStart + r.targetLen];
    ghost var before, point := estimator.points, PointOf(r, estimator.measure(segment, window));
    ghost var next := r.targetStart + estimator.plan.config.Step();
    ghost var later := RunPoints(estimator.plan, estimator.measure, reference, target, next);
    var pushed := estimator.PushWindow(segment, window);
    assert pushed.Ok?;
    assert before + (point + later) == (before + point) + later;
  }

  /** Pushes every window still scheduled, and stops. */
  method PushAll(estimator: DriftEstimator, reference: seq<real>, target: seq<real>)
    requires estimator.Valid()
    requires |reference| == estimator.plan.refLen && |target| == estimator.plan.targetLen
    modifies estimator
    ensures estimator.Valid()
    ensures estimator.points == old(estimator.points)
                                + RunPoints(estimator.plan, estimator.measure, reference, target, old(estimator.cursor))
    ensures estimator.windowsTotal == old(estimator.windowsTotal) + RunTotal(estimator.plan, old(estimator.cursor))
  {
    ghost var plan, measure := estimator.plan, estimator.measure;
    ghost var all := estimator.points + RunPoints(plan, measure, reference, target, estimator.cursor);
    ghost var total := estimator.windowsTotal + RunTotal(plan, estimator.cursor);
    var request := estimator.NextRequest();
    while request.Some?
      invariant estimator.Valid()
      invariant request == plan.NextFrom(estimator.cursor)
      invariant all == estimator.points + RunPoints(plan, measure, reference, target, estimator.cursor)
      invariant total == estimator.windowsTotal + RunTotal(plan, estimator.cursor)
      decreases plan.targetLen - estimator.cursor
    {
      PushPending(estimator, reference, target, request.value);
      request := estimator.NextRequest();
    }
    RunEnd(plan, measure, reference, target, estimator.cursor);
    assert all == estimator.points + [] == estimator.points;
  }

  /** The one-shot driver returns the true clock whenever enough of the scheduled windows measured right. */
  method EstimateDriftWith(reference: seq<real>, target: seq<real>, config: Config, measure: Measure)
    returns (estimate: DriftEstimate)
    ensures var plan := Plan(config, |reference|, |target|);
            estimate == EstimateOf(RunPoints(plan, measure, reference, target, 0), RunTotal(plan, 0))
    ensures var plan := Plan(config, |reference|, |target|);
            forall ratio: real, offset: real ::
              ratio != 0.0 && MostPairsOnClock(RunPoints(plan, measure, reference, target, 0), ratio, offset)
              ==> estimate.ratio == ratio && estimate.initialOffset == offset
  {
    hide RunPoints, RunTotal, EstimateOf, MostPairsOnClock;
    var estimator := new DriftEstimator(config, |reference|, |target|, measure);
    ghost var plan := Plan(config, |reference|, |target|);
    ghost var all := RunPoints(plan, measure, reference, target, 0);
    PushAll(estimator, reference, target);
    assert estimator.points == [] + all == all;
    estimate := estimator.Estimate();
    AnyClockIsRecovered(plan, all, estimator.cursor, estimator.windowsTotal);
  }
}
