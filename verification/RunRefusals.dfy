/** What a refusal at planning time means for whole runs: sound for enumeration, not for sampling. */
module RunRefusals {
  import opened Wrappers
  import opened Arithmetic
  import opened Contracts
  import opened Circular
  import opened Plans
  import opened ExactOracle
  import opened Attainability
  import opened Collisions
  import opened PowerCap
  import opened Refusals
  import opened Execution
  import opened Verifier
  import opened Acceptance
  import opened Agreement
  import opened RunLaws
  import opened Pearson

  // ---------------------------------------------------------------- refusals that hold for every run

  lemma FailureDecidesNothing(div: Division, r: CalibrationResult)
    requires NullBindOk(r) || ObservedFailureOk(r) || ReplicateFailureOk(div, r)
    ensures r.rejectNull.None?
  {
  }

  lemma CompleteRejects(div: Division, r: CalibrationResult)
    requires CompleteOk(div, r) && r.plannedReplicates >= 1 && r.rejectNull == Some(true)
    ensures Rejects(div, r.alpha, r.plannedReplicates, r.exceedanceCount)
  {
  }

  lemma RejectingRecord(div: Division, r: CalibrationResult)
    requires ResultOk(div, r) && r.rejectNull == Some(true)
    ensures r.status.Complete? && r.plannedReplicates >= 1
    ensures Rejects(div, r.alpha, r.plannedReplicates, r.exceedanceCount)
  {
    if r.status.Complete? {
      CompleteRejects(div, r);
    } else {
      FailureDecidesNothing(div, r);
    }
  }

  lemma AcceptedRejects(div: Division, ctx: Context, r: CalibrationResult)
    requires ContextOk(ctx) && div.Sound() && Accepted(div, ctx, r) && r.rejectNull == Some(true)
    ensures r.status.Complete? && Rejects(div, ctx.plan.alpha, ctx.plan.replicates, r.exceedanceCount)
    ensures 0 <= r.exceedanceCount
  {
    AcceptedSatisfiesInvariants(div, ctx, r);
    RejectingRecord(div, r);
  }

  /** No record of a plan refused for its replicate count, however produced, is accepted with a rejection. */
  lemma TooFewReplicatesNeverReject(div: Division, ctx: Context, r: CalibrationResult, lagged: bool, n: nat)
    requires ContextOk(ctx) && div.Sound() && Accepted(div, ctx, r)
    requires Assess(div, ctx.plan, lagged, n).status == RefuseReplicatesTooFew
    ensures r.rejectNull != Some(true)
  {
    if r.rejectNull == Some(true) {
      AcceptedRejects(div, ctx, r);
      ReplicatesTooFewSound(div, ctx.plan, lagged, n, r.exceedanceCount);
    }
  }

  /** A run that returns a result was long enough for its statistic to bind. */
  lemma ReturnedRunBinds(div: Division, run: Run, draws: seq<seq<int>>)
    requires RunOk(run) && AdapterOk(run.adapter, run.plan.candidates) && DrawsOk(run, draws)
    requires Calibrated(div, run, draws).Ok?
    ensures Bindable(run.plan, run.adapter, run.source, run.target)
  {
  }

  lemma EnumeratedCount(div: Division, run: Run, estimate: Estimator, t: seq<Option<real>>, e: nat)
    requires div.Sound() && RunOk(run) && run.plan.nullName == CircularShiftExactV1
    requires Bindable(run.plan, run.adapter, run.source, run.target)
    requires Lagged(run.adapter, run.plan.candidates, estimate)
    requires Assess(div, run.plan, true, run.Length()).status == RefuseNullStatesTooFew
    requires t == Table(run) && 2 <= |t| == run.Length() && Evaluable(t, 1) && e == Exceedances(t, 1)
    ensures run.plan.replicates + 1 == run.Length() && !Rejects(div, run.plan.alpha, run.plan.replicates, e)
  {
    EnumeratedRefusalSound(div, run.plan, run.adapter, estimate, run.source, run.target);
  }

  lemma RefusedIsLong(div: Division, plan: Plan, n: nat)
    requires PlanOk(plan) && plan.nullName == CircularShiftExactV1
    requires Assess(div, plan, true, n).status == RefuseNullStatesTooFew
    ensures 2 <= n && plan.replicates == n - 1
  {
  }

  /** No enumerated run of a plan refused for too few states rejects, whatever the data. */
  lemma TooFewStatesNeverReject(
    div: Division, run: Run, draws: seq<seq<int>>, estimate: Estimator, result: CalibrationResult)
    requires div.Sound() && RunOk(run) && AdapterOk(run.adapter, run.plan.candidates) && DigestsOk(run.digests)
    requires DrawsOk(run, draws) && Lagged(run.adapter, run.plan.candidates, estimate)
    requires run.plan.nullName == CircularShiftExactV1
    requires Assess(div, run.plan, true, run.Length()).status == RefuseNullStatesTooFew
    requires ContextOk(ContextOf(run)) && Calibrated(div, run, draws) == Ok(result)
    ensures result.rejectNull != Some(true)
  {
    if result.rejectNull == Some(true) {
      RefusedIsLong(div, run.plan, run.Length());
      ExecutorResultsAccepted(div, run, draws, result);
      AcceptedRejects(div, ContextOf(run), result);
      EnumeratedRunMatchesOracle(div, run, draws, result);
      ReturnedRunBinds(div, run, draws);
      TableAt(run.plan, run.adapter, run.source, run.target, 0);
      EnumeratedCount(div, run, estimate, Table(run), result.exceedanceCount);
    }
  }

  // ---------------------------------------------------------------- a refused sampled plan that rejects

  /** Four samples on which both lags see rising pairs, and falling ones after a shift by two. */
  function RefusedSource(): seq<real> {
    [0.0, 1.0, 2.0, 1.0]
  }

  lemma RefusedSlices()
    ensures LagSlice(RefusedSource(), 2, 1) == [1.0, 2.0] && LagSlice(RefusedSource(), 2, 2) == [0.0, 1.0]
    ensures Rotate(RefusedSource(), 2) == [2.0, 1.0, 0.0, 1.0]
    ensures LagSlice([2.0, 1.0, 0.0, 1.0], 2, 1) == [1.0, 0.0] && LagSlice([2.0, 1.0, 0.0, 1.0], 2, 2) == [2.0, 1.0]
  {
    var r := Rotate(RefusedSource(), 2);
    WrapIsNear();
    assert r[0] == 2.0 && r[1] == 1.0 && r[2] == 0.0 && r[3] == 1.0;
  }

  lemma WrapIsNear()
    ensures Wrap(-2, 4) == 2 && Wrap(-1, 4) == 3 && Wrap(0, 4) == 0 && Wrap(1, 4) == 1
  {
  }

  /** A two-lag pair whose estimates agree decides their common value. */
  lemma BothLagsDecide(adapter: Adapter, estimate: Estimator, source: seq<real>, target: seq<real>, v: real)
    requires AdapterOk(adapter, [1, 2]) && adapter.minSupport <= 2 && Lagged(adapter, [1, 2], estimate)
    requires |source| == |target| == 4
    requires estimate(LagSlice(source, 2, 1), target[2..]) == Some(v)
    requires estimate(LagSlice(source, 2, 2), target[2..]) == Some(v)
    ensures Decision(SampledPlan(), adapter, source, target) == Some(v)
  {
    var plan, results := SampledPlan(), adapter.evaluate(source, target);
    assert RawOk(results, plan.candidates, adapter) && |results| == 2;
    assert RawResult(results[0], 1, adapter) && RawResult(results[1], 2, adapter);
    assert results[0].estimate == Some(v) && results[1].estimate == Some(v);
    RawSelectable(results, plan, adapter);
    var star := DecisionMeaning(plan, adapter, source, target);
  }

  lemma {:induction false} NothingReaches(t: seq<Option<real>>, minShift: nat, draws: seq<nat>)
    requires t != [] && forall i :: 0 <= i < |draws| ==> !Reaches(Drawn(t, minShift, draws[i]), t[0].GetOr(0.0))
    ensures DrawExceedances(t, minShift, draws) == 0
  {
    if draws != [] { NothingReaches(t, minShift, draws[1..]); }
  }

  /** Ninety-nine draws of the shift by two. */
  function RefusedDraws(): (draws: seq<nat>)
    ensures |draws| == 99 && forall i :: 0 <= i < 99 ==> draws[i] == 2
  {
    seq(99, i requires 0 <= i < 99 => 2)
  }

  lemma RefusedTable(adapter: Adapter, estimate: Estimator, target: seq<real>)
    requires AdapterOk(adapter, [1, 2]) && adapter.minSupport <= 2 && Lagged(adapter, [1, 2], estimate)
    requires PearsonOn(estimate, 2) && |target| == 4 && target[2] < target[3]
    ensures var t := DecisionTable(SampledPlan(), adapter, RefusedSource(), target);
      |t| == 4 && t[0] == Some(1.0) && t[2] == Some(-1.0)
  {
    var low, high := target[2], target[3];
    assert target[2..] == [low, high];
    RefusedSlices();
    PairCorrelation(estimate, 1.0, 2.0, low, high);
    PairCorrelation(estimate, 0.0, 1.0, low, high);
    PairCorrelation(estimate, 1.0, 0.0, low, high);
    PairCorrelation(estimate, 2.0, 1.0, low, high);
    BothLagsDecide(adapter, estimate, RefusedSource(), target, 1.0);
    BothLagsDecide(adapter, estimate, [2.0, 1.0, 0.0, 1.0], target, -1.0);
    TableAt(SampledPlan(), adapter, RefusedSource(), target, 0);
    TableAt(SampledPlan(), adapter, RefusedSource(), target, 2);
  }

  /**
   * A sampled lagged-Pearson plan that is refused because its states are said to be too few still rejects: on this
   * source, with any target that ends rising, ninety-nine draws of the shift by two give p = 1/100.
   */
  lemma RefusedPearsonPlanRejects(div: Division, adapter: Adapter, estimate: Estimator, target: seq<real>)
    requires div.Sound() && forall a, n :: n > 0 ==> div.of(a, n) == a as real / n as real
    requires AdapterOk(adapter, [1, 2]) && adapter.minSupport <= 2 && Lagged(adapter, [1, 2], estimate)
    requires PearsonOn(estimate, 2) && |target| == 4 && target[2] < target[3]
    ensures Assess(div, SampledPlan(), true, 4).status == RefuseNullStatesTooFew
    ensures var t := DecisionTable(SampledPlan(), adapter, RefusedSource(), target);
      |t| == 4 && DrawsReject(div, SampledPlan().alpha, t, 1, RefusedDraws())
  {
    hide DecisionTable, Assess;
    SampledRefusal(div);
    RefusedTable(adapter, estimate, target);
    var t := DecisionTable(SampledPlan(), adapter, RefusedSource(), target);
    NothingReaches(t, 1, RefusedDraws());
    assert div.of(1, 100) == 1 as real / 100 as real;
  }

  lemma RefusedRunReady(run: Run)
    requires RunOk(run) && run.plan == SampledPlan() && run.source == RefusedSource()
    requires AdapterOk(run.adapter, [1, 2]) && run.adapter.minSupport <= 2
    ensures Registered(run) && Sampled(run) && IsWordOf(run, RefusedDraws()) && Admitted(run)
  {
  }

  /** And so does the whole run: it is admitted by the budget and returns a rejection. */
  lemma RefusedPearsonRunRejects(div: Division, run: Run, estimate: Estimator)
    requires div.Sound() && forall a, n :: n > 0 ==> div.of(a, n) == a as real / n as real
    requires RunOk(run) && run.plan == SampledPlan() && run.source == RefusedSource()
    requires AdapterOk(run.adapter, [1, 2]) && run.adapter.minSupport <= 2 && Lagged(run.adapter, [1, 2], estimate)
    requires PearsonOn(estimate, 2) && run.target[2] < run.target[3]
    ensures Assess(div, run.plan, true, run.Length()).status == RefuseNullStatesTooFew
    ensures DrawsOk(run, DrawsFrom(RefusedDraws())) && RunRejects(div, run, DrawsFrom(RefusedDraws()))
  {
    RefusedPearsonPlanRejects(div, run.adapter, estimate, run.target);
    RefusedRunReady(run);
    SampledRunRejectsIff(div, run, RefusedDraws());
  }
}
