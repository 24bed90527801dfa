/** The executor and the separately written verifier agree: what one builds the other accepts. */
module Agreement {
  import opened Wrappers
  import opened Contracts
  import opened Selection
  import opened Plans
  import opened NullModels
  import opened Execution
  import opened Verifier

  // ---------------------------------------------------------------- vectors

  /** A raw vector as a registered adapter returns it for this run. */
  predicate RawOfRun(run: Run, raw: seq<StatisticResult>)
    requires RunOk(run)
  {
    RawOk(raw, run.plan.candidates, run.adapter) && CommonSupport(raw, Support(run)) && Support(run) >= 1
  }

  function Support(run: Run): int
    requires RunOk(run)
  {
    run.Length() - MaxLag(run.plan.candidates)
  }

  lemma RawEntriesRead(run: Run, raw: seq<StatisticResult>, i: nat)
    requires RunOk(run) && RawOfRun(run, raw) && i < |raw|
    ensures RawResult(raw[i], run.plan.candidates[i], run.adapter) && raw[i].supportN == Support(run)
  {
  }

  lemma ScoredVectorVerified(run: Run, raw: seq<StatisticResult>)
    requires RunOk(run) && RawOfRun(run, raw) && !HasFailure(raw)
    ensures Selectable(raw, run.plan.candidates, run.plan.tieTolerance)
    ensures var (selection, scored) := Selected(raw, run.plan.candidates, run.plan.rule, run.plan.tieTolerance);
      CompleteVerified(ContextOf(run), scored, Some(selection)) && scored[0].supportN == Support(run)
  {
    var ctx, plan := ContextOf(run), run.plan;
    RawSelectable(raw, plan, run.adapter);
    SelectorOutputAccepted(raw, plan.candidates, plan.rule, plan.tieTolerance);
    var (selection, scored) := Selected(raw, plan.candidates, plan.rule, plan.tieTolerance);
    forall i | 0 <= i < |scored|
      ensures EntryRead(ctx, scored[i], plan.candidates[i], scored[0].supportN) && ScoredEntry(ctx, scored[i])
    {
      RawEntriesRead(run, raw, i);
      RawEntriesRead(run, raw, 0);
      assert RawEntry(raw[i], plan.candidates[i]);
    }
    RawEntriesRead(run, raw, 0);
  }

  lemma FailureVectorVerified(run: Run, raw: seq<StatisticResult>)
    requires RunOk(run) && RawOfRun(run, raw) && HasFailure(raw)
    ensures FailureVerified(ContextOf(run), raw, None) && raw[0].supportN == Support(run)
  {
    forall i | 0 <= i < |raw|
      ensures EntryRead(ContextOf(run), raw[i], run.plan.candidates[i], raw[0].supportN) && RawFailureEntry(raw[i])
    {
      RawEntriesRead(run, raw, i);
      RawEntriesRead(run, raw, 0);
    }
    RawEntriesRead(run, raw, 0);
  }

  // ---------------------------------------------------------------- outcomes

  /** A state the run may use for a replicate; an enumeration uses the shift of the replicate's own position. */
  predicate StateOfReplicate(run: Run, replicate: nat, state: NullState) {
    && StateReady(run, state)
    && (run.plan.nullName == CircularShiftExactV1 ==>
          run.plan.replicates == run.Length() - 1 && state == CircularShiftState(replicate + 1))
  }

  lemma TokenOfRunVerified(run: Run, replicate: nat, state: NullState)
    requires StateOfReplicate(run, replicate, state)
    ensures TokenVerified(ContextOf(run), run.TokenFor(state), run.SemanticSha(), run.Length(), replicate)
  {
  }

  lemma OutcomeVerified(
    run: Run, replicate: nat, state: NullState, raw: seq<StatisticResult>, diagnostics: seq<string>, observed: real)
    requires StateOfReplicate(run, replicate, state) && RawOfRun(run, raw)
    requires OutcomeFrom(run, replicate, state, raw, diagnostics, observed).Ok?
    ensures ReplicateVerified(
      ContextOf(run), run.SemanticSha(), Support(run),
      OutcomeFrom(run, replicate, state, raw, diagnostics, observed).value, replicate)
  {
    TokenOfRunVerified(run, replicate, state);
    if HasFailure(raw) {
      FailureVectorVerified(run, raw);
    } else {
      ScoredVectorVerified(run, raw);
    }
  }

  // ---------------------------------------------------------------- whole runs

  /** A run of a registered adapter on a pair its statistic binds to. */
  ghost predicate Registered(run: Run) {
    && RunOk(run) && AdapterOk(run.adapter, run.plan.candidates)
    && run.Length() >= MaxLag(run.plan.candidates) + run.adapter.minSupport
  }

  lemma VectorOfRun(run: Run, source: seq<real>)
    requires Registered(run) && |source| == run.Length()
    ensures RawOfRun(run, run.adapter.evaluate(source, run.target))
  {
  }

  /** The data's own vector, when the run gets past its observed scan. */
  lemma PreparedFrom(run: Run)
    requires Registered(run) && Prepare(run).Ok? && Prepare(run).value.Prepared?
    ensures var raw := run.adapter.evaluate(run.source, run.target);
      RawOfRun(run, raw) && !HasFailure(raw)
      && Selectable(raw, run.plan.candidates, run.plan.tieTolerance)
      && var (selection, scored) := Selected(raw, run.plan.candidates, run.plan.rule, run.plan.tieTolerance);
         Prepare(run).value.observed == scored && Prepare(run).value.selection == selection
  {
    VectorOfRun(run, run.source);
    ScoredVectorVerified(run, run.adapter.evaluate(run.source, run.target));
  }

  /** No replicate of a registered adapter fails an executor guard: a sampled identity reproduces the observed scan. */
  lemma ReplicateNeverFails(run: Run, replicate: nat, state: NullState)
    requires Registered(run) && Prepare(run).Ok? && Prepare(run).value.Prepared?
    requires StateReady(run, state)
    ensures OutcomeOf(run, replicate, state, Prepare(run).value.selection.decisionStatistic).Ok?
  {
    PreparedFrom(run);
    VectorOfRun(run, Transform(run.plan, run.source, state));
    if IsIdentityState(state) { IdentityRestores(run.plan, run.source, state); }
  }

  lemma {:induction false} AllCollected<T>(t: seq<Result<T, RunError>>, count: nat)
    requires count <= |t| && forall i :: 0 <= i < count ==> t[i].Ok?
    ensures Collected(t, count).Ok?
  {
    if count > 0 { AllCollected(t, count - 1); }
  }

  /** So the replicate loop always completes with exactly B outcomes, each the one its position yields. */
  lemma LoopCompletes(run: Run, draws: seq<seq<int>>)
    requires Registered(run) && DrawsOk(run, draws) && Prepare(run).Ok? && Prepare(run).value.Prepared?
    ensures LoopReady(run, draws)
    ensures Outcomes(run, draws, Prepare(run).value.selection.decisionStatistic).Ok?
  {
    PreparedIsReady(run, draws);
    var observed := Prepare(run).value.selection.decisionStatistic;
    var t := OutcomeTable(run, draws, observed);
    forall i | 0 <= i < |t| ensures t[i].Ok? {
      TableAtIndex(run, draws, i, observed);
      ReplicateNeverFails(run, i, StateOf(run.plan, run.Length(), i, draws[i]));
    }
    AllCollected(t, |draws|);
  }

  lemma OutcomesOfRunVerified(run: Run, draws: seq<seq<int>>, i: nat)
    requires Registered(run) && DrawsOk(run, draws) && Prepare(run).Ok? && Prepare(run).value.Prepared?
    requires i < |draws|
    ensures LoopReady(run, draws)
    ensures var outcomes := Outcomes(run, draws, Prepare(run).value.selection.decisionStatistic);
      outcomes.Ok? && |outcomes.value| == |draws|
      && ReplicateVerified(ContextOf(run), run.SemanticSha(), Support(run), outcomes.value[i], i)
  {
    LoopCompletes(run, draws);
    var observed := Prepare(run).value.selection.decisionStatistic;
    TableAtIndex(run, draws, i, observed);
    var state := StateOf(run.plan, run.Length(), i, draws[i]);
    var source := Transform(run.plan, run.source, state);
    VectorOfRun(run, source);
    OutcomeVerified(run, i, state, run.adapter.evaluate(source, run.target), TransformDiagnostics(run, state),
                    observed);
  }

  lemma TerminalAccepted(div: Division, run: Run)
    requires Registered(run) && DigestsOk(run.digests) && Prepare(run).Ok? && Prepare(run).value.Terminal?
    ensures var p := Prepare(run).value;
      Accepted(div, ContextOf(run), TerminalResult(run, p.stage, p.observed, p.diagnostics))
  {
    var raw := run.adapter.evaluate(run.source, run.target);
    VectorOfRun(run, run.source);
    if HasFailure(raw) { FailureVectorVerified(run, raw); }
  }

  ghost predicate AllVerified(run: Run, outcomes: seq<ReplicateOutcome>)
    requires RunOk(run) && Support(run) >= 1
  {
    && |outcomes| == run.plan.replicates
    && forall i :: 0 <= i < |outcomes| ==>
         ReplicateVerified(ContextOf(run), run.SemanticSha(), Support(run), outcomes[i], i)
  }

  lemma OutcomesAllVerified(run: Run, draws: seq<seq<int>>)
    requires Registered(run) && DrawsOk(run, draws) && Prepare(run).Ok? && Prepare(run).value.Prepared?
    ensures LoopReady(run, draws)
    ensures var outcomes := Outcomes(run, draws, Prepare(run).value.selection.decisionStatistic);
      outcomes.Ok? && AllVerified(run, outcomes.value)
  {
    LoopCompletes(run, draws);
    var outcomes := Outcomes(run, draws, Prepare(run).value.selection.decisionStatistic).value;
    forall i | 0 <= i < |outcomes|
      ensures ReplicateVerified(ContextOf(run), run.SemanticSha(), Support(run), outcomes[i], i)
    {
      OutcomesOfRunVerified(run, draws, i);
    }
  }

  lemma TerminalArithmetic(
    div: Division, run: Run, observed: seq<StatisticResult>, selection: SelectionResult, diagnostics: seq<string>,
    outcomes: seq<ReplicateOutcome>, e: nat, f: nat)
    requires RunOk(run) && |outcomes| == run.plan.replicates
    ensures TerminalVerified(div, ResultFromCounts(div, run, observed, selection, diagnostics, outcomes, e, f), e, f)
  {
  }

  lemma FinalAccepted(
    div: Division, run: Run, observed: seq<StatisticResult>, selection: SelectionResult, diagnostics: seq<string>,
    outcomes: seq<ReplicateOutcome>)
    requires RunOk(run) && Support(run) >= 1 && DigestsOk(run.digests)
    requires CompleteVerified(ContextOf(run), observed, Some(selection)) && observed[0].supportN == Support(run)
    requires AllVerified(run, outcomes)
    ensures Accepted(div, ContextOf(run), FinalResult(div, run, observed, selection, diagnostics, outcomes))
  {
    TerminalArithmetic(div, run, observed, selection, diagnostics, outcomes,
                       CountExceedances(outcomes, selection.decisionStatistic), CountFailures(outcomes));
  }

  /** What a prepared run returns: the budget refusal or the final result of its completed loop. */
  lemma PreparedReturns(div: Division, run: Run, draws: seq<seq<int>>) returns (outcomes: seq<ReplicateOutcome>)
    requires Registered(run) && DrawsOk(run, draws) && Prepare(run).Ok? && Prepare(run).value.Prepared?
    ensures AllVerified(run, outcomes)
    ensures var p := Prepare(run).value;
      Calibrated(div, run, draws)
        == if Admitted(run) then Ok(FinalResult(div, run, p.observed, p.selection, p.diagnostics, outcomes))
           else Err(BudgetExceeded)
  {
    OutcomesAllVerified(run, draws);
    outcomes := Outcomes(run, draws, Prepare(run).value.selection.decisionStatistic).value;
  }

  lemma PreparedVectorVerified(run: Run)
    requires Registered(run) && Prepare(run).Ok? && Prepare(run).value.Prepared?
    ensures var p := Prepare(run).value;
      CompleteVerified(ContextOf(run), p.observed, Some(p.selection)) && p.observed[0].supportN == Support(run)
  {
    PreparedFrom(run);
    ScoredVectorVerified(run, run.adapter.evaluate(run.source, run.target));
  }

  lemma PreparedAccepted(div: Division, run: Run, draws: seq<seq<int>>, result: CalibrationResult)
    requires Registered(run) && DigestsOk(run.digests) && DrawsOk(run, draws)
    requires Prepare(run).Ok? && Prepare(run).value.Prepared?
    requires Calibrated(div, run, draws) == Ok(result)
    ensures Accepted(div, ContextOf(run), result)
  {
    PreparedVectorVerified(run);
    var outcomes := PreparedReturns(div, run, draws);
    var p := Prepare(run).value;
    FinalAccepted(div, run, p.observed, p.selection, p.diagnostics, outcomes);
  }

  /** Every result the run builds is accepted by the verifier. */
  lemma ExecutorResultsAccepted(div: Division, run: Run, draws: seq<seq<int>>, result: CalibrationResult)
    requires RunOk(run) && AdapterOk(run.adapter, run.plan.candidates) && DigestsOk(run.digests) && DrawsOk(run, draws)
    requires Calibrated(div, run, draws) == Ok(result)
    ensures Accepted(div, ContextOf(run), result)
  {
    if Prepare(run).value.Terminal? {
      TerminalAccepted(div, run);
    } else {
      PreparedAccepted(div, run, draws, result);
    }
  }

  /** Only a refused bind or the budget stops a run of a registered adapter: its integrity guards never fire. */
  lemma ExecutorStopsOnly(div: Division, run: Run, draws: seq<seq<int>>)
    requires RunOk(run) && AdapterOk(run.adapter, run.plan.candidates) && DrawsOk(run, draws)
    requires Calibrated(div, run, draws).Err?
    ensures Calibrated(div, run, draws).error == BindRefused || Calibrated(div, run, draws).error == BudgetExceeded
  {
    if Registered(run) {
      VectorOfRun(run, run.source);
      if Prepare(run).Ok? && Prepare(run).value.Prepared? {
        var outcomes := PreparedReturns(div, run, draws);
      }
    }
  }

  /** A bound run is admitted exactly when the plan report has said so. */
  lemma ReportedBudgetIsGuard(run: Run)
    requires RunOk(run) && BindNull(run.plan, run.Length()).Bound?
    ensures Admitted(run) <==> ReportedBudget(run.plan, run.Length()) == Some(true)
    ensures ReportedBudget(run.plan, run.Length()).Some?
  {
  }

  /** A run that ends before it is prepared never meets the budget guard. */
  lemma StoppedBeforeBudget(div: Division, run: Run, draws: seq<seq<int>>)
    requires DrawsOk(run, draws) && !(Prepare(run).Ok? && Prepare(run).value.Prepared?)
    ensures Calibrated(div, run, draws) != Err(BudgetExceeded)
  {
  }

  lemma GuardDecides(div: Division, run: Run, draws: seq<seq<int>>)
    requires Registered(run) && DrawsOk(run, draws) && Prepare(run).Ok? && Prepare(run).value.Prepared?
    ensures Calibrated(div, run, draws) == Err(BudgetExceeded) <==> !Admitted(run)
  {
    var outcomes := PreparedReturns(div, run, draws);
  }

  /** The budget stops a run exactly when it is prepared and the plan report has said so. */
  lemma ReportedBudgetDecides(div: Division, run: Run, draws: seq<seq<int>>)
    requires RunOk(run) && AdapterOk(run.adapter, run.plan.candidates) && DrawsOk(run, draws)
    ensures Calibrated(div, run, draws) == Err(BudgetExceeded)
       <==> Prepare(run).Ok? && Prepare(run).value.Prepared? && ReportedBudget(run.plan, run.Length()) == Some(false)
  {
    if Prepare(run).Ok? && Prepare(run).value.Prepared? {
      ReportedBudgetIsGuard(run);
      GuardDecides(div, run, draws);
    } else {
      StoppedBeforeBudget(div, run, draws);
    }
  }
}
