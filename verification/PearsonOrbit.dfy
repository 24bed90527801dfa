/** Whether the exact test on the shift states is valid on every orbit when the statistic is lagged Pearson. */
module PearsonOrbit {
  import opened Wrappers
  import opened Arithmetic
  import opened Counting
  import opened Contracts
  import opened Selection
  import opened Circular
  import opened Plans
  import opened ExactOracle
  import opened Attainability
  import opened Pearson
  import opened PearsonLaws
  import opened Sawtooth
  import opened PearsonPower

  // ---------------------------------------------------------------- windows with two peaks

  /** A countdown that passes below 0 just before it reaches it: two neighbouring windows start with a rise. */
  function Dipping(): int -> real {
    (z: int) => if z == 1 then -1.0 else z as real
  }

  function PeakShape(rule: SelectionRule): int -> real {
    if rule.MaxUpper? then Dipping() else Falling()
  }

  function PeakTarget(rule: SelectionRule, size: nat): (y: seq<real>)
    requires 2 <= size && (size == 2 ==> rule.MaxUpper?)
    ensures |y| == size && Varies(y)
  {
    if rule.MaxUpper? then Step(size) else Bend(size)
  }

  lemma DippingStep(n: nat, size: nat, c: nat)
    requires 2 <= size < n && 5 <= n && c < n
    ensures var x := Window(Dipping(), n, size, c);
      x[1] != x[0] && (x[1] - x[0] > 0.0 <==> c <= 1)
  {
    WrapNear(c, n);
    WrapNear(c - 1, n);
  }

  lemma UpperPeak(estimate: Estimator, n: nat, size: nat, c: nat, x: seq<real>)
    requires 2 <= size < n && 5 <= n && c < n && PearsonOn(estimate, size) && x == Window(Dipping(), n, size, c)
    ensures estimate(x, Step(size)).Some? && (estimate(x, Step(size)).value > 0.0 <==> c <= 1)
  {
    DippingStep(n, size, c);
    CorrelationSign(estimate, size, x, Step(size));
    StepCoSpread(x);
  }

  lemma AbsolutePeak(estimate: Estimator, n: nat, size: nat, c: nat, x: seq<real>)
    requires 3 <= size < n && c < n && PearsonOn(estimate, size) && x == Window(Falling(), n, size, c)
    ensures estimate(x, Bend(size)).Some? && (estimate(x, Bend(size)).value != 0.0 <==> c <= 1)
  {
    FallingSteps(n, size, c);
    CorrelationSign(estimate, size, x, Bend(size));
    BendCoSpread(x);
  }

  /** Exactly the windows from 0 and 1 score above zero. */
  ghost predicate TwoPeakWindows(estimate: Estimator, rule: SelectionRule, n: nat, size: nat)
    requires 2 <= size < n && (size == 2 ==> rule.MaxUpper?)
  {
    forall c: nat {:trigger Window(PeakShape(rule), n, size, c)} :: c < n ==>
      var e := estimate(Window(PeakShape(rule), n, size, c), PeakTarget(rule, size));
      e.Some? && (Score(rule, e.value) > 0.0 <==> c <= 1)
  }

  lemma PearsonTwoPeaks(estimate: Estimator, rule: SelectionRule, n: nat, size: nat)
    requires 2 <= size < n && 5 <= n && (size == 2 ==> rule.MaxUpper?) && PearsonOn(estimate, size)
    ensures TwoPeakWindows(estimate, rule, n, size)
  {
    forall c: nat {:trigger Window(PeakShape(rule), n, size, c)} | c < n
      ensures var e := estimate(Window(PeakShape(rule), n, size, c), PeakTarget(rule, size));
        e.Some? && (Score(rule, e.value) > 0.0 <==> c <= 1)
    {
      if rule.MaxUpper? {
        UpperPeak(estimate, n, size, c, Window(Dipping(), n, size, c));
      } else {
        AbsolutePeak(estimate, n, size, c, Window(Falling(), n, size, c));
      }
    }
  }

  // ---------------------------------------------------------------- data with two peaks

  /** At most k shifted copies of any pair get 1 + E <= k from the exact test. */
  ghost predicate OrbitValidFor(scan: Scan, n: nat, minShift: nat)
    requires 1 <= minShift && 2 * minShift <= n
  {
    forall source: seq<real>, target: seq<real>, k: nat, shifts: set<int>
      {:trigger LowShifts(scan, source, target, minShift, k, shifts)} ::
      |source| == |target| == n && LowShifts(scan, source, target, minShift, k, shifts) ==> |shifts| <= k
  }

  ghost predicate LowShifts(
    scan: Scan, source: seq<real>, target: seq<real>, minShift: nat, k: nat, shifts: set<int>)
    requires 1 <= minShift && 2 * minShift <= |source|
  {
    forall r :: r in shifts ==>
      InStateSpace(r, |source|, minShift) && LowRanked(scan, source, target, minShift, r, k)
  }

  function PeakReference(plan: Plan, n: nat): (target: seq<real>)
    requires Canonical(plan.candidates) && MaxLag(plan.candidates) + 2 <= n
    requires n - MaxLag(plan.candidates) == 2 ==> plan.rule.MaxUpper?
    ensures |target| == n
    ensures target[MaxLag(plan.candidates)..] == PeakTarget(plan.rule, n - MaxLag(plan.candidates))
  {
    seq(MaxLag(plan.candidates), _ => 0.0) + PeakTarget(plan.rule, n - MaxLag(plan.candidates))
  }

  /** The slice of the single lag at a shift is the window from the shift's distance to the first peak. */
  lemma PeakSlice(f: int -> real, n: nat, lag: nat, m: nat, s: nat) returns (c: nat)
    requires 0 < lag < n && 0 < m < n - 1 && s < n
    ensures c < n && (c <= 1 <==> s == m || s == m + 1)
    ensures LagSlice(Rotate(Countdown(f, n, n - m), s), lag, lag) == Window(f, n, n - lag, c)
  {
    SliceIsWindow(f, n, n - m, lag, lag, s);
    c := Wrap(n - m - lag + lag + s, n);
    WrapNear(n - m - lag + lag + s, n);
  }

  lemma PeakDecision(
    plan: Plan, adapter: Adapter, estimate: Estimator, n: nat, m: nat, s: nat, source: seq<real>, target: seq<real>)
    requires PlanOk(plan) && |plan.candidates| == 1 && Evaluates(adapter, plan, estimate, n)
    requires n - MaxLag(plan.candidates) == 2 ==> plan.rule.MaxUpper?
    requires TwoPeakWindows(estimate, plan.rule, n, n - MaxLag(plan.candidates)) && 0 < m < n - 1 && s < n
    requires source == Countdown(PeakShape(plan.rule), n, n - m) && target == PeakReference(plan, n)
    ensures var d := Decision(plan, adapter, Rotate(source, s), target);
      d.Some? && (d.value > 0.0 <==> s == m || s == m + 1)
  {
    var lag := MaxLag(plan.candidates);
    var es := Estimates(plan, estimate, Rotate(source, s), target);
    var c := PeakSlice(PeakShape(plan.rule), n, lag, m, s);
    assert LagSlice(Rotate(source, s), lag, lag) == Window(PeakShape(plan.rule), n, n - lag, c);
    assert es[0] == estimate(Window(PeakShape(plan.rule), n, n - lag, c), PeakTarget(plan.rule, n - lag));
    var best := EstimatesDecide(plan, adapter, estimate, n, Rotate(source, s), target, es);
  }

  /** Every state decides, above zero exactly at two neighbouring shifts. */
  predicate TwoPeaked(t: seq<Option<real>>, m: nat) {
    forall s :: 0 <= s < |t| ==> t[s].Some? && (t[s].value > 0.0 <==> s == m || s == m + 1)
  }

  lemma PeakTable(
    plan: Plan, adapter: Adapter, estimate: Estimator, n: nat, m: nat, source: seq<real>, target: seq<real>)
    requires PlanOk(plan) && |plan.candidates| == 1 && Evaluates(adapter, plan, estimate, n)
    requires n - MaxLag(plan.candidates) == 2 ==> plan.rule.MaxUpper?
    requires TwoPeakWindows(estimate, plan.rule, n, n - MaxLag(plan.candidates)) && 0 < m < n - 1
    requires source == Countdown(PeakShape(plan.rule), n, n - m) && target == PeakReference(plan, n)
    ensures TwoPeaked(Decisions(ScanOf(plan, adapter), source, target), m)
  {
    var t := Decisions(ScanOf(plan, adapter), source, target);
    forall s | 0 <= s < n ensures t[s].Some? && (t[s].value > 0.0 <==> s == m || s == m + 1) {
      PeakDecision(plan, adapter, estimate, n, m, s, source, target);
    }
  }

  lemma PeaksAreLow(scan: Scan, source: seq<real>, target: seq<real>, m: nat)
    requires TwoPeaked(Decisions(scan, source, target), m) && 2 <= m && 2 * m < |source|
    ensures LowShifts(scan, source, target, m, 1, {m as int, m + 1})
  {
    PeaksRankFirst(scan, source, target, m, m);
    PeaksRankFirst(scan, source, target, m, m + 1);
  }

  /** Two neighbouring shifts both get rank 1, although at most one may. */
  lemma PearsonOrbitFails(plan: Plan, adapter: Adapter, estimate: Estimator, n: nat, m: nat)
    returns (source: seq<real>, target: seq<real>)
    requires PlanOk(plan) && |plan.candidates| == 1 && Evaluates(adapter, plan, estimate, n)
    requires n - MaxLag(plan.candidates) == 2 ==> plan.rule.MaxUpper?
    requires PearsonOn(estimate, n - MaxLag(plan.candidates)) && 2 <= m && 2 * m < n
    ensures |source| == |target| == n && LowShifts(ScanOf(plan, adapter), source, target, m, 1, {m as int, m + 1})
  {
    source, target := Countdown(PeakShape(plan.rule), n, n - m), PeakReference(plan, n);
    PearsonTwoPeaks(estimate, plan.rule, n, n - MaxLag(plan.candidates));
    PeakTable(plan, adapter, estimate, n, m, source, target);
    PeaksAreLow(ScanOf(plan, adapter), source, target, m);
  }

  // ---------------------------------------------------------------- two samples scored by absolute value

  lemma {:induction false} UnitExceeding(t: seq<Option<real>>, low: nat, high: nat)
    requires Unit(t) && low <= high <= |t| && AllDecided(t, low, high)
    ensures Exceeding(t, 1.0, low, high) == high - low
  {
    if low < high {
      UnitExceeding(t, low, high - 1);
      assert t[high - 1].Some?;
    }
  }

  /** Every state ranks last, so no level below the number of states is reached at all. */
  lemma UnitOrbitBound(t: seq<Option<real>>, minShift: nat, k: nat)
    requires 1 <= minShift && 2 * minShift <= |t| && Unit(t) && Evaluable(t, minShift)
    requires 1 + Exceedances(t, minShift) <= k
    ensures StateCount(|t|, minShift) <= k
  {
    UnitExceeding(t, minShift, |t| - minShift + 1);
  }

  lemma UnitOrbitValid(plan: Plan, adapter: Adapter, estimate: Estimator, n: nat, m: nat)
    requires PlanOk(plan) && Evaluates(adapter, plan, estimate, n) && plan.rule.MaxAbsolute? && UnitPairs(estimate)
    requires n - MaxLag(plan.candidates) == 2 && 1 <= m && 2 * m <= n
    ensures OrbitValidFor(ScanOf(plan, adapter), n, m)
  {
    var scan := ScanOf(plan, adapter);
    forall source: seq<real>, target: seq<real>, k: nat, shifts: set<int>
      {:trigger LowShifts(scan, source, target, m, k, shifts)}
      | |source| == |target| == n && LowShifts(scan, source, target, m, k, shifts)
      ensures |shifts| <= k
    {
      if shifts != {} {
        var r := AnyMember(shifts);
        UnitTable(plan, adapter, estimate, n, Rotate(source, r), target);
        UnitOrbitBound(DecisionsAt(scan, source, target, r), m, k);
        SubsetSize(shifts, StateSet(n, m));
        StatesSize(n, m);
      }
    }
  }

  // ---------------------------------------------------------------- the exact condition

  lemma GroupOrbitValid(scan: Scan, n: nat, m: nat)
    requires Group(n, m)
    ensures OrbitValidFor(scan, n, m)
  {
    forall source: seq<real>, target: seq<real>, k: nat, shifts: set<int>
      {:trigger LowShifts(scan, source, target, m, k, shifts)}
      | |source| == |target| == n && LowShifts(scan, source, target, m, k, shifts)
      ensures |shifts| <= k
    {
      OracleOrbitBound(scan, source, target, m, k, shifts);
    }
  }

  lemma PairViolates(scan: Scan, source: seq<real>, target: seq<real>, n: nat, m: nat, shifts: set<int>)
    requires |source| == |target| == n && 2 <= m && 2 * m < n
    requires LowShifts(scan, source, target, m, 1, shifts) && shifts == {m as int, m + 1}
    ensures !OrbitValidFor(scan, n, m)
  {
    assert shifts - {m as int} == {m + 1};
  }

  /**
   * Lagged Pearson with a single lag: the exact test is valid on the orbit of every pair exactly when its shifts are a
   * group, or two samples are scored by absolute value.
   */
  lemma PearsonOrbitValidIff(plan: Plan, adapter: Adapter, estimate: Estimator, n: nat, m: nat)
    requires PlanOk(plan) && Evaluates(adapter, plan, estimate, n) && PearsonOn(estimate, n - MaxLag(plan.candidates))
    requires 1 <= m && 2 * m <= n && (|plan.candidates| == 1 || Group(n, m))
    ensures OrbitValidFor(ScanOf(plan, adapter), n, m)
       <==> Group(n, m) || (n - MaxLag(plan.candidates) == 2 && plan.rule.MaxAbsolute?)
  {
    if Group(n, m) {
      GroupOrbitValid(ScanOf(plan, adapter), n, m);
    } else if n - MaxLag(plan.candidates) == 2 && plan.rule.MaxAbsolute? {
      PearsonUnitPairs(estimate);
      UnitOrbitValid(plan, adapter, estimate, n, m);
    } else {
      var source, target := PearsonOrbitFails(plan, adapter, estimate, n, m);
      PairViolates(ScanOf(plan, adapter), source, target, n, m, {m as int, m + 1});
    }
  }

  /** So a plan the report passes, whatever its lags, is valid on every orbit exactly under the same condition. */
  lemma PassingPlanValidIff(div: Division, plan: Plan, adapter: Adapter, estimate: Estimator, n: nat)
    requires PlanOk(plan) && Evaluates(adapter, plan, estimate, n) && PearsonOn(estimate, n - MaxLag(plan.candidates))
    requires Assess(div, plan, true, n).status == Pass
    ensures 2 * plan.nullParameter <= n
    ensures OrbitValidFor(ScanOf(plan, adapter), n, plan.nullParameter)
       <==> Group(n, plan.nullParameter) || (n - MaxLag(plan.candidates) == 2 && plan.rule.MaxAbsolute?)
  {
    PearsonOrbitValidIff(plan, adapter, estimate, n, plan.nullParameter);
  }

  /** The plan with one lag and min_shift 2 passes on thirty samples, and is not valid on every orbit. */
  lemma SingleLagPlanNotValid(div: Division, adapter: Adapter, estimate: Estimator)
    requires div.Sound() && forall a, n :: n > 0 ==> div.of(a, n) == a as real / n as real
    requires Evaluates(adapter, SingleLagPlan(), estimate, 30) && PearsonOn(estimate, 29)
    ensures Assess(div, SingleLagPlan(), true, 30).status == Pass
    ensures !OrbitValidFor(ScanOf(SingleLagPlan(), adapter), 30, 2)
  {
    SingleLagPasses(div);
    PassingPlanValidIff(div, SingleLagPlan(), adapter, estimate, 30);
  }
}
