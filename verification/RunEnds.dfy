/** Every way a run ends, and every field of the record it then returns. */
module RunEnds {
  import opened Wrappers
  import opened Contracts
  import opened Selection
  import opened Plans
  import opened ExactOracle
  import opened NullModels
  import opened NullBindings
  import opened Execution
  import opened Agreement
  import opened AcceptedContent
  import opened RunLaws

  // ---------------------------------------------------------------- one replicate

  /** The decision of the data a state produces. */
  function StateDecision(run: Run, state: NullState): Option<real>
    requires StateReady(run, state)
  {
    Decision(run.plan, run.adapter, Transform(run.plan, run.source, state), run.target)
  }

  /** The token names the null, the state, and the digests of the input, the plan, the parameter and the binding. */
  predicate TokenNames(run: Run, state: NullState, t: Token) {
    var d, plan := run.digests, run.plan;
    && t.nullName == plan.nullName && t.state == state
    && t.nullParameterSha256 == d.parameter(plan.nullName, plan.nullParameter)
    && t.semanticInputSha256 == d.semantic(run.source, run.target, plan.candidates)
    && t.scientificPlanSha256 == d.plan(plan)
    && t.boundNullOwnerSha256
       == d.owner(d.semantic(run.source, run.target, plan.candidates), d.plan(plan),
                  d.parameter(plan.nullName, plan.nullParameter), |run.source|)
  }

  /** What the outcome says about its state: another state with the same data, and a scan that fails. */
  predicate OutcomeSays(run: Run, state: NullState, diagnostics: seq<string>)
    requires StateReady(run, state)
  {
    diagnostics
    == (if Moves(run.plan, |run.source|, state) && Transform(run.plan, run.source, state) == run.source
        then ["nonidentity_data_equivalent_v2"] else [])
       + (if StateDecision(run, state).None? then ["replicate_statistic_scan_analytical_failure_v2"] else [])
  }

  /** Every field of the outcome of a replicate. */
  predicate OutcomeStates(run: Run, id: nat, state: NullState, o: ReplicateOutcome)
    requires StateReady(run, state)
  {
    && o.replicateId == id
    && o.seedDigestSha256 == run.digests.seed(run.digests.plan(run.plan), id, run.plan.replicates)
    && TokenNames(run, state, o.transformToken)
    && (o.transformToken.isIdentity <==> !Moves(run.plan, |run.source|, state))
    && Unscored(o.statisticResults)
       == Unscored(run.adapter.evaluate(Transform(run.plan, run.source, state), run.target))
    && Records(o, StateDecision(run, state))
    && (o.failureStage == if StateDecision(run, state).None? then Some(StatisticScan) else None)
    && OutcomeSays(run, state, o.diagnostics)
  }

  lemma ScoredUnscored(raw: seq<StatisticResult>, plan: Plan)
    requires PlanOk(plan) && Selectable(raw, plan.candidates, plan.tieTolerance)
    ensures Unscored(Selected(raw, plan.candidates, plan.rule, plan.tieTolerance).1) == Unscored(raw)
  {
    var scored := Selected(raw, plan.candidates, plan.rule, plan.tieTolerance).1;
    forall i | 0 <= i < |raw| ensures Unscored(scored)[i] == Unscored(raw)[i] {
    }
  }

  lemma FromRaw(run: Run, id: nat, state: NullState, raw: seq<StatisticResult>, said: seq<string>, observed: real)
    requires RunOk(run) && OutcomeFrom(run, id, state, raw, said, observed).Ok?
    ensures var o := OutcomeFrom(run, id, state, raw, said, observed).value;
      && o.replicateId == id && o.seedDigestSha256 == run.Seed(id) && o.transformToken == run.TokenFor(state)
      && Unscored(o.statisticResults) == Unscored(raw)
      && (HasFailure(raw) <==> !Selectable(raw, run.plan.candidates, run.plan.tieTolerance))
      && o.failureStage == (if HasFailure(raw) then Some(StatisticScan) else None)
      && o.diagnostics == said + (if HasFailure(raw) then ["replicate_statistic_scan_analytical_failure_v2"] else [])
  {
    RawSelectable(raw, run.plan, run.adapter);
    if !HasFailure(raw) { ScoredUnscored(raw, run.plan); }
  }

  /** The outcome of a replicate, whatever the null. */
  lemma OutcomeIs(run: Run, id: nat, state: NullState, observed: real)
    requires StateReady(run, state) && OutcomeOf(run, id, state, observed).Ok?
    ensures OutcomeStates(run, id, state, OutcomeOf(run, id, state, observed).value)
  {
    var raw := run.adapter.evaluate(Transform(run.plan, run.source, state), run.target);
    hide Selectable, Selected, Transform, InUniverse;
    FromRaw(run, id, state, raw, TransformDiagnostics(run, state), observed);
    RawRecords(run, id, state, raw, TransformDiagnostics(run, state), observed);
  }

  // ---------------------------------------------------------------- counting the outcomes

  /** The replicates whose decision reaches the observed one. */
  ghost function Hits(ds: seq<Option<real>>, observed: real): (h: set<int>)
    ensures forall i :: i in h <==> 0 <= i < |ds| && Reaches(ds[i], observed)
  {
    set i | 0 <= i < |ds| && Reaches(ds[i], observed)
  }

  /** The replicates that cannot be decided. */
  ghost function Misses(ds: seq<Option<real>>): (m: set<int>)
    ensures forall i :: i in m <==> 0 <= i < |ds| && ds[i].None?
  {
    set i | 0 <= i < |ds| && ds[i].None?
  }

  lemma LastCounts(ds: seq<Option<real>>, observed: real)
    requires ds != []
    ensures var last := |ds| - 1;
      && |Hits(ds, observed)| == |Hits(ds[..last], observed)| + (if Reaches(ds[last], observed) then 1 else 0)
      && |Misses(ds)| == |Misses(ds[..last])| + if ds[last].None? then 1 else 0
  {
    var last := |ds| - 1;
    var hits, misses := Hits(ds[..last], observed), Misses(ds[..last]);
    assert Hits(ds, observed) == if Reaches(ds[last], observed) then hits + {last} else hits;
    assert Misses(ds) == if ds[last].None? then misses + {last} else misses;
  }

  predicate RecordsAll(outcomes: seq<ReplicateOutcome>, ds: seq<Option<real>>) {
    |outcomes| == |ds| && forall i :: 0 <= i < |ds| ==> Records(outcomes[i], ds[i])
  }

  lemma {:induction false} CountsAreSizes(outcomes: seq<ReplicateOutcome>, ds: seq<Option<real>>, observed: real)
    requires RecordsAll(outcomes, ds)
    ensures CountExceedances(outcomes, observed) == |Hits(ds, observed)| && CountFailures(outcomes) == |Misses(ds)|
    decreases |ds|
  {
    hide Records, Reaches;
    if ds == [] {
      assert Hits(ds, observed) == {} && Misses(ds) == {};
    } else {
      var last := |ds| - 1;
      CountsAreSizes(outcomes[..last], ds[..last], observed);
      RecordCounts(outcomes[last], ds[last], observed);
      LastCounts(ds, observed);
    }
  }

  // ---------------------------------------------------------------- the record

  /** The digests and the plan every record repeats. */
  predicate Heads(run: Run, r: CalibrationResult) {
    && r.semanticInputSha256 == run.digests.semantic(run.source, run.target, run.plan.candidates)
    && r.scientificPlanSha256 == run.digests.plan(run.plan)
    && r.plannedReplicates == run.plan.replicates && r.alpha == run.plan.alpha
  }

  /** A record without outcomes and without a decision. */
  predicate Undecided(r: CalibrationResult) {
    && r.status.NotEvaluable? && r.observedSelection.None? && r.replicates == []
    && r.exceedanceCount == 0 && r.failureCount == 0
    && r.pValue.None? && r.exceedanceBoundLow.None? && r.exceedanceBoundHigh.None? && r.rejectNull.None?
  }

  /** The run stops before it binds anything exactly when the series is too short for the statistic. */
  lemma TooShortRefused(div: Division, run: Run, draws: seq<seq<int>>)
    requires DrawsOk(run, draws) && AdapterOk(run.adapter, run.plan.candidates)
    ensures Calibrated(div, run, draws) == Err(RunError.BindRefused)
       <==> |run.source| < run.plan.candidates[|run.plan.candidates| - 1] + run.adapter.minSupport
  {
    if Registered(run) && Calibrated(div, run, draws).Err? {
      VectorOfRun(run, run.source);
      if Prepare(run).Ok? && Prepare(run).value.Prepared? {
        var outcomes := PreparedReturns(div, run, draws);
      }
    }
  }

  /** A null that does not bind, or an enumeration of the wrong length, ends the run with nothing observed. */
  lemma NullRefused(div: Division, run: Run, draws: seq<seq<int>>)
    requires Registered(run) && DrawsOk(run, draws)
    requires BindNull(run.plan, run.Length()).Disabled?
          || (run.plan.nullName == CircularShiftExactV1 && run.plan.replicates != run.Length() - 1)
    ensures Calibrated(div, run, draws).Ok?
    ensures var r := Calibrated(div, run, draws).value;
      && Heads(run, r) && Undecided(r) && r.failureStage == Some(NullBind) && r.observedResults == []
      && r.diagnostics
         == if BindNull(run.plan, run.Length()).Disabled? then BindNull(run.plan, run.Length()).diagnostics
            else ["enumeration_replicate_count_mismatch_v1"]
  {
  }

  /** The null binds, and an enumeration has one replicate for each state but the identity. */
  predicate Started(run: Run)
    requires RunOk(run)
  {
    && BindNull(run.plan, run.Length()).Bound?
    && (run.plan.nullName == CircularShiftExactV1 ==> run.plan.replicates == run.Length() - 1)
  }

  lemma PreparedIff(run: Run)
    requires Registered(run) && Started(run)
    ensures Prepare(run).Ok?
    ensures Prepare(run).value.Prepared? <==> Decision(run.plan, run.adapter, run.source, run.target).Some?
    ensures Prepare(run).value.diagnostics
         == BindNull(run.plan, run.Length()).diagnostics
            + if Prepare(run).value.Prepared? then [] else ["observed_statistic_scan_analytical_failure_v2"]
  {
    VectorOfRun(run, run.source);
    RawSelectable(run.adapter.evaluate(run.source, run.target), run.plan, run.adapter);
  }

  /** Data that cannot be decided end the run with the raw observed vector. */
  lemma ObservedFails(div: Division, run: Run, draws: seq<seq<int>>)
    requires Registered(run) && DrawsOk(run, draws) && Started(run)
    requires Decision(run.plan, run.adapter, run.source, run.target).None?
    ensures Calibrated(div, run, draws).Ok?
    ensures var r := Calibrated(div, run, draws).value;
      && Heads(run, r) && Undecided(r) && r.failureStage == Some(ObservedStatisticScan)
      && r.observedResults == run.adapter.evaluate(run.source, run.target)
      && r.diagnostics
         == BindNull(run.plan, run.Length()).diagnostics + ["observed_statistic_scan_analytical_failure_v2"]
  {
    PreparedIff(run);
  }

  // ---------------------------------------------------------------- the budget

  /** The same charge for each of b replicates. */
  function Charged(b: nat, each: nat): nat {
    if b == 0 then 0 else Charged(b - 1, each) + each
  }

  lemma {:induction false} ChargedIs(b: nat, each: nat)
    ensures Charged(b, each) == b * each
  {
    if b > 0 { ChargedIs(b - 1, each); }
  }

  /** What the replicates of a run are charged: evaluations, retained state units, and values and units touched. */
  predicate Affordable(b: nat, candidates: nat, n: nat, units: nat) {
    && b <= 1_000 && Charged(b, candidates) <= 5_000 && Charged(b, units) <= 25_000
    && Charged(b, Charged(candidates, n) + units + n) <= 2_500_000
  }

  lemma AffordableIs(b: nat, candidates: nat, n: nat, units: nat)
    ensures Affordable(b, candidates, n, units) <==> WithinBudget(b, candidates, n, units)
  {
    ChargedIs(b, candidates);
    ChargedIs(b, units);
    ChargedIs(candidates, n);
    ChargedIs(b, Charged(candidates, n) + units + n);
  }

  lemma AdmittedIs(run: Run, units: nat)
    requires Registered(run) && Started(run)
    requires units == if run.plan.nullName == BlockShuffleV2 then |run.source| / run.plan.nullParameter else 1
    ensures Admitted(run)
       <==> Affordable(run.plan.replicates, |run.plan.candidates|, |run.source|, units)
  {
    hide Affordable, WithinBudget, AdapterOk;
    AffordableIs(run.plan.replicates, |run.plan.candidates|, |run.source|, units);
  }

  /** A run whose data decide goes on exactly when its replicates are affordable. */
  lemma BudgetStops(div: Division, run: Run, draws: seq<seq<int>>, units: nat)
    requires Registered(run) && DrawsOk(run, draws) && Started(run)
    requires units == if run.plan.nullName == BlockShuffleV2 then |run.source| / run.plan.nullParameter else 1
    ensures Calibrated(div, run, draws) == Err(BudgetExceeded)
       <==> Decision(run.plan, run.adapter, run.source, run.target).Some?
            && !Affordable(run.plan.replicates, |run.plan.candidates|, |run.source|, units)
  {
    hide Affordable, Decision, BindNull, FinalResult, Prepare, AdapterOk, DrawsOk, Admitted, Calibrated;
    PreparedIff(run);
    AdmittedIs(run, units);
    if Prepare(run).value.Prepared? {
      GuardDecides(div, run, draws);
    } else {
      StoppedBeforeBudget(div, run, draws);
    }
  }

  // ---------------------------------------------------------------- an evaluated run

  /** The decision of each replicate. */
  function RunDecisions(run: Run, draws: seq<seq<int>>): (ds: seq<Option<real>>)
    requires LoopReady(run, draws)
    ensures |ds| == |draws|
  {
    seq(|draws|, i requires 0 <= i < |draws| =>
      StateAtReady(run, draws, i);
      StateDecision(run, StateAt(run, draws, i)))
  }

  /** Each outcome states its own replicate. */
  ghost predicate StatesAll(run: Run, draws: seq<seq<int>>, outcomes: seq<ReplicateOutcome>)
    requires LoopReady(run, draws)
  {
    |outcomes| == |draws|
    && forall i {:trigger outcomes[i]} :: 0 <= i < |outcomes| ==>
         StateReady(run, StateAt(run, draws, i)) && OutcomeStates(run, i, StateAt(run, draws, i), outcomes[i])
  }

  /** Status, stage, counts, p-value, bounds, decision and diagnostics of an evaluated record. */
  predicate Reports(div: Division, run: Run, r: CalibrationResult, e: nat, f: nat, said: seq<string>) {
    var b := run.plan.replicates;
    && r.exceedanceCount == e && r.failureCount == f
    && if f == 0 then
         && r.status.Complete? && r.failureStage.None? && r.pValue == Some(div.of(1 + e, b + 1))
         && r.rejectNull == Some(div.of(1 + e, b + 1) <= run.plan.alpha)
         && r.exceedanceBoundLow.None? && r.exceedanceBoundHigh.None? && r.diagnostics == said
       else
         && r.status.NotEvaluable? && r.failureStage == Some(ReplicateExecution) && r.pValue.None?
         && r.rejectNull.None? && r.exceedanceBoundLow == Some(div.of(1 + e, b + 1))
         && r.exceedanceBoundHigh == Some(div.of(1 + e + f, b + 1))
         && r.diagnostics == said + ["replicate_execution_analytical_failure_v2"]
  }

  lemma LoopStates(run: Run, draws: seq<seq<int>>, outcomes: seq<ReplicateOutcome>, observed: real)
    requires LoopReady(run, draws) && Outcomes(run, draws, observed) == Ok(outcomes)
    ensures StatesAll(run, draws, outcomes) && RecordsAll(outcomes, RunDecisions(run, draws))
  {
    hide OutcomeStates, OutcomeOf, StateDecision, Records;
    forall i | 0 <= i < |outcomes|
      ensures StateReady(run, StateAt(run, draws, i)) && OutcomeStates(run, i, StateAt(run, draws, i), outcomes[i])
      ensures Records(outcomes[i], RunDecisions(run, draws)[i])
    {
      TableAtIndex(run, draws, i, observed);
      OutcomeIs(run, i, StateAt(run, draws, i), observed);
      StatesRecord(run, i, StateAt(run, draws, i), outcomes[i]);
    }
  }

  lemma StatesRecord(run: Run, id: nat, state: NullState, o: ReplicateOutcome)
    requires StateReady(run, state) && OutcomeStates(run, id, state, o)
    ensures Records(o, StateDecision(run, state))
  {
  }

  /**
   * Every field of the record of an evaluated run: the observed scan, one outcome for each draw in its place, and
   * the numbers that follow from how many decisions reach the observed one and how many are missing.
   */
  lemma EvaluatedRecord(div: Division, run: Run, draws: seq<seq<int>>, r: CalibrationResult, observed: real)
    requires Registered(run) && DrawsOk(run, draws) && Started(run) && Calibrated(div, run, draws) == Ok(r)
    requires Decision(run.plan, run.adapter, run.source, run.target) == Some(observed)
    ensures LoopReady(run, draws) && Heads(run, r)
    ensures Unscored(r.observedResults) == Unscored(run.adapter.evaluate(run.source, run.target))
    ensures r.observedSelection.Some? && r.observedSelection.value.decisionStatistic == observed
    ensures StatesAll(run, draws, r.replicates)
    ensures var ds := RunDecisions(run, draws);
      Reports(div, run, r, |Hits(ds, observed)|, |Misses(ds)|, BindNull(run.plan, run.Length()).diagnostics)
  {
    hide StatesAll, RecordsAll, RunDecisions, Outcomes, Selected, BindNull, AdapterOk;
    PreparedIff(run);
    PreparedFrom(run);
    var raw := run.adapter.evaluate(run.source, run.target);
    ScoredUnscored(raw, run.plan);
    PreparedIsReady(run, draws);
    LoopCompletes(run, draws);
    var outcomes := Outcomes(run, draws, observed).value;
    LoopStates(run, draws, outcomes, observed);
    CountsAreSizes(outcomes, RunDecisions(run, draws), observed);
  }
}
