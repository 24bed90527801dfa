/** Calibration plans, the bound statistic adapter, and the decision a full scan of a pair reaches. */
module Plans {
  import opened Wrappers
  import opened Contracts
  import opened Selection
  import opened Circular

  datatype Plan = Plan(
    candidates: seq<int>,
    rule: SelectionRule,
    nullName: NullName,
    nullParameter: int,
    replicates: int,
    alpha: real,
    tieTolerance: real)

  predicate PlanOk(plan: Plan) {
    && Canonical(plan.candidates) && plan.tieTolerance >= 0.0
    && plan.nullParameter >= 1
    && (plan.nullName == CircularShiftExactV1 ==> plan.nullParameter == 1)
    && 1 <= plan.replicates <= 1_000_000 && 0.0 < plan.alpha < 1.0
  }

  function MaxLag(candidates: seq<int>): (m: int)
    requires Canonical(candidates)
    ensures m > 0 && m in candidates && forall i :: 0 <= i < |candidates| ==> candidates[i] <= m
  {
    candidates[|candidates| - 1]
  }

  /** The statistic bound to a plan: an uninterpreted function of the pair it scans. */
  datatype Adapter = Adapter(
    evaluate: (seq<real>, seq<real>) -> seq<StatisticResult>,
    minSupport: int,
    backendIdentity: string,
    preprocessingIdentity: string)

  /** One entry of a vector the executor admits as raw. */
  predicate RawResult(r: StatisticResult, candidate: int, adapter: Adapter) {
    && StatisticOk(r) && r.candidateId == candidate && r.selectionScore.None?
    && r.backendIdentity == adapter.backendIdentity && r.preprocessingIdentity == adapter.preprocessingIdentity
  }

  predicate RawOk(results: seq<StatisticResult>, candidates: seq<int>, adapter: Adapter) {
    |results| == |candidates| && forall i :: 0 <= i < |results| ==> RawResult(results[i], candidates[i], adapter)
  }

  predicate CommonSupport(results: seq<StatisticResult>, support: int) {
    forall i :: 0 <= i < |results| ==> results[i].supportN == support
  }

  /** Registered adapters return raw vectors on the common support of the pair. */
  ghost predicate AdapterOk(adapter: Adapter, candidates: seq<int>)
    requires Canonical(candidates)
  {
    && adapter.minSupport >= 1
    && forall source: seq<real>, target: seq<real> {:trigger adapter.evaluate(source, target)} ::
         |source| == |target| && |source| >= MaxLag(candidates) + adapter.minSupport ==>
           && RawOk(adapter.evaluate(source, target), candidates, adapter)
           && CommonSupport(adapter.evaluate(source, target), |source| - MaxLag(candidates))
  }

  predicate HasFailure(results: seq<StatisticResult>) {
    exists i :: 0 <= i < |results| && results[i].validity.AnalyticFailure?
  }

  /** A raw vector without failures is exactly what the selector admits. */
  lemma RawSelectable(results: seq<StatisticResult>, plan: Plan, adapter: Adapter)
    requires PlanOk(plan) && RawOk(results, plan.candidates, adapter)
    ensures Selectable(results, plan.candidates, plan.tieTolerance) <==> !HasFailure(results)
  {
    if !HasFailure(results) {
      forall i | 0 <= i < |results| ensures RawEntry(results[i], plan.candidates[i]) {
        assert RawResult(results[i], plan.candidates[i], adapter);
      }
    }
    if i :| 0 <= i < |results| && results[i].validity.AnalyticFailure? {
      assert !RawEntry(results[i], plan.candidates[i]);
    }
  }

  /** The decision of a full scan with reselection; None when the selector refuses the vector. */
  function Decision(plan: Plan, adapter: Adapter, source: seq<real>, target: seq<real>): Option<real> {
    var v := adapter.evaluate(source, target);
    if Selectable(v, plan.candidates, plan.tieTolerance)
    then Some(Selected(v, plan.candidates, plan.rule, plan.tieTolerance).0.decisionStatistic)
    else None
  }

  /** A scan that decides a pair of series, or cannot. */
  type Scan = (seq<real>, seq<real>) -> Option<real>

  function ScanOf(plan: Plan, adapter: Adapter): Scan {
    (source: seq<real>, target: seq<real>) => Decision(plan, adapter, source, target)
  }

  // ---------------------------------------------------------------- lagged statistics

  /** A statistic that sees one candidate as its lag slice paired with the target tail. */
  type Estimator = (seq<real>, seq<real>) -> Option<real>

  ghost predicate Lagged(adapter: Adapter, candidates: seq<int>, estimate: Estimator)
    requires Canonical(candidates)
  {
    var maxLag := MaxLag(candidates);
    forall source: seq<real>, target: seq<real>, i: int {:trigger adapter.evaluate(source, target)[i]} ::
      |source| == |target| > maxLag && 0 <= i < |candidates| && |adapter.evaluate(source, target)| == |candidates| ==>
        adapter.evaluate(source, target)[i].estimate
          == estimate(LagSlice(source, maxLag, candidates[i]), target[maxLag..])
  }
}
