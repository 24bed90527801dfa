/** Laws of whole circular runs: enumeration equals the exact oracle, and sampling obeys the power cap. */
module RunLaws {
  import opened Wrappers
  import opened Counting
  import opened Contracts
  import opened Selection
  import opened Circular
  import opened Plans
  import opened ExactOracle
  import opened Attainability
  import opened Collisions
  import opened PowerCap
  import opened Refusals
  import opened NullModels
  import opened Execution
  import opened Agreement

  function Table(run: Run): (t: seq<Option<real>>)
  {
    DecisionTable(run.plan, run.adapter, run.source, run.target)
  }

  /** An outcome records what the decision table says about its shift. */
  predicate Records(outcome: ReplicateOutcome, decision: Option<real>) {
    if decision.None? then outcome.status.ReplicateFailed?
    else outcome.status.ReplicateComplete? && outcome.selection.Some?
         && outcome.selection.value.decisionStatistic == decision.value
  }

  lemma RawRecords(
    run: Run, replicate: nat, state: NullState, raw: seq<StatisticResult>, diagnostics: seq<string>, observed: real)
    requires RunOk(run) && OutcomeFrom(run, replicate, state, raw, diagnostics, observed).Ok?
    ensures Records(OutcomeFrom(run, replicate, state, raw, diagnostics, observed).value,
      if Selectable(raw, run.plan.candidates, run.plan.tieTolerance)
      then Some(Selected(raw, run.plan.candidates, run.plan.rule, run.plan.tieTolerance).0.decisionStatistic)
      else None)
  {
    RawSelectable(raw, run.plan, run.adapter);
  }

  lemma OutcomeRecords(run: Run, replicate: nat, shift: int, observed: real)
    requires StateReady(run, CircularShiftState(shift)) && 0 <= shift < run.Length()
    requires OutcomeOf(run, replicate, CircularShiftState(shift), observed).Ok?
    ensures Records(OutcomeOf(run, replicate, CircularShiftState(shift), observed).value, Table(run)[shift])
  {
    var state := CircularShiftState(shift);
    TableAt(run.plan, run.adapter, run.source, run.target, shift);
    RawRecords(run, replicate, state, run.adapter.evaluate(Rotate(run.source, shift), run.target),
               TransformDiagnostics(run, state), observed);
  }

  /** The shift a circular run applies at each position. */
  function ShiftAt(run: Run, draws: seq<seq<int>>, i: nat): int
    requires LoopReady(run, draws) && i < |draws| && run.plan.nullName != BlockShuffleV2
  {
    StateAt(run, draws, i).shift
  }

  /** Every outcome of a run records the decision of its position's shift. */
  lemma RunRecords(run: Run, draws: seq<seq<int>>, i: nat)
    requires Registered(run) && DrawsOk(run, draws) && Prepare(run).Ok? && Prepare(run).value.Prepared?
    requires run.plan.nullName != BlockShuffleV2 && i < |draws|
    ensures LoopReady(run, draws)
    ensures var outcomes := Outcomes(run, draws, Prepare(run).value.selection.decisionStatistic);
      outcomes.Ok? && |outcomes.value| == |draws| && 0 <= ShiftAt(run, draws, i) < run.Length()
      && Records(outcomes.value[i], Table(run)[ShiftAt(run, draws, i)])
  {
    LoopCompletes(run, draws);
    var observed := Prepare(run).value.selection.decisionStatistic;
    TableAtIndex(run, draws, i, observed);
    OutcomeRecords(run, i, ShiftAt(run, draws, i), observed);
  }

  /** The observed decision of a prepared run is the identity entry of its table. */
  lemma PreparedObserves(run: Run)
    requires Registered(run) && Prepare(run).Ok? && Prepare(run).value.Prepared?
    ensures Table(run)[0] == Some(Prepare(run).value.selection.decisionStatistic)
  {
    PreparedFrom(run);
    TableAt(run.plan, run.adapter, run.source, run.target, 0);
  }

  // ---------------------------------------------------------------- counting what a record holds

  lemma RecordCounts(outcome: ReplicateOutcome, decision: Option<real>, observed: real)
    requires Records(outcome, decision)
    ensures Exceeds(outcome, observed) <==> Reaches(decision, observed)
    ensures outcome.status.ReplicateFailed? <==> decision.None?
  {
  }

  /** The outcomes record the enumerated shifts in order: position i holds shift i + 1. */
  predicate RecordsEnumeration(outcomes: seq<ReplicateOutcome>, t: seq<Option<real>>) {
    |outcomes| < |t| && forall i :: 0 <= i < |outcomes| ==> Records(outcomes[i], t[i + 1])
  }

  lemma {:induction false} EnumerationCounts(outcomes: seq<ReplicateOutcome>, t: seq<Option<real>>, observed: real)
    requires RecordsEnumeration(outcomes, t)
    ensures CountExceedances(outcomes, observed) == Exceeding(t, observed, 1, |outcomes| + 1)
    ensures CountFailures(outcomes) == 0 <==> AllDecided(t, 1, |outcomes| + 1)
  {
    if outcomes != [] {
      var last := |outcomes| - 1;
      EnumerationCounts(outcomes[..last], t, observed);
      RecordCounts(outcomes[last], t[|outcomes|], observed);
    }
  }

  lemma {:induction false} DrawAppend(t: seq<Option<real>>, minShift: nat, draws: seq<nat>, index: nat)
    requires t != []
    ensures DrawExceedances(t, minShift, draws + [index])
         == DrawExceedances(t, minShift, draws)
            + if Reaches(Drawn(t, minShift, index), t[0].GetOr(0.0)) then 1 else 0
  {
    if draws == [] {
      assert draws + [index] == [index] && [index][1..] == [];
    } else {
      DrawAppend(t, minShift, draws[1..], index);
      assert (draws + [index])[1..] == draws[1..] + [index];
    }
  }

  /** The outcomes record the drawn indices in order. */
  predicate RecordsDraws(outcomes: seq<ReplicateOutcome>, t: seq<Option<real>>, minShift: nat, draws: seq<nat>) {
    |outcomes| == |draws| && forall i :: 0 <= i < |outcomes| ==> Records(outcomes[i], Drawn(t, minShift, draws[i]))
  }

  lemma {:induction false} DrawCounts(
    outcomes: seq<ReplicateOutcome>, t: seq<Option<real>>, minShift: nat, draws: seq<nat>)
    requires t != [] && RecordsDraws(outcomes, t, minShift, draws)
    ensures CountExceedances(outcomes, t[0].GetOr(0.0)) == DrawExceedances(t, minShift, draws)
    ensures CountFailures(outcomes) == 0 <==> AllDrawn(t, minShift, draws)
    decreases |outcomes|
  {
    if outcomes != [] {
      var last := |outcomes| - 1;
      DrawCounts(outcomes[..last], t, minShift, draws[..last]);
      RecordCounts(outcomes[last], Drawn(t, minShift, draws[last]), t[0].GetOr(0.0));
      DrawAppend(t, minShift, draws[..last], draws[last]);
      assert draws == draws[..last] + [draws[last]];
    }
  }

  // ---------------------------------------------------------------- enumeration equals the oracle

  lemma EnumeratedRecords(run: Run, draws: seq<seq<int>>)
    requires Registered(run) && DrawsOk(run, draws) && Prepare(run).Ok? && Prepare(run).value.Prepared?
    requires run.plan.nullName == CircularShiftExactV1
    ensures LoopReady(run, draws)
    ensures var outcomes := Outcomes(run, draws, Prepare(run).value.selection.decisionStatistic);
      outcomes.Ok? && RecordsEnumeration(outcomes.value, Table(run)) && |outcomes.value| + 1 == run.Length()
  {
    LoopCompletes(run, draws);
    var outcomes := Outcomes(run, draws, Prepare(run).value.selection.decisionStatistic).value;
    forall i | 0 <= i < |outcomes| ensures Records(outcomes[i], Table(run)[i + 1]) {
      RunRecords(run, draws, i);
    }
  }

  /** What a prepared enumerated run counts. */
  lemma EnumeratedOutcomes(run: Run, draws: seq<seq<int>>)
    requires Registered(run) && DrawsOk(run, draws) && Prepare(run).Ok? && Prepare(run).value.Prepared?
    requires run.plan.nullName == CircularShiftExactV1 && |Table(run)| == run.Length()
    ensures LoopReady(run, draws)
    ensures var observed := Prepare(run).value.selection.decisionStatistic;
      var outcomes := Outcomes(run, draws, observed);
      && outcomes.Ok?
      && (CountFailures(outcomes.value) == 0 <==> Evaluable(Table(run), 1))
      && (Evaluable(Table(run), 1) ==> CountExceedances(outcomes.value, observed) == Exceedances(Table(run), 1))
  {
    EnumeratedRecords(run, draws);
    PreparedObserves(run);
    var observed := Prepare(run).value.selection.decisionStatistic;
    EnumerationCounts(Outcomes(run, draws, observed).value, Table(run), observed);
  }

  lemma FinalReports(
    div: Division, run: Run, observed: seq<StatisticResult>, selection: SelectionResult, diagnostics: seq<string>,
    outcomes: seq<ReplicateOutcome>)
    ensures var r, e := FinalResult(div, run, observed, selection, diagnostics, outcomes),
                        CountExceedances(outcomes, selection.decisionStatistic);
      && (r.status.Complete? <==> CountFailures(outcomes) == 0)
      && (r.status.Complete? ==>
            r.exceedanceCount == e && r.pValue == Some(div.of(1 + e, run.plan.replicates + 1)))
  {
  }

  /** A prepared run that returns a result returns the final result of its outcomes. */
  lemma PreparedResult(div: Division, run: Run, draws: seq<seq<int>>, result: CalibrationResult)
    requires DrawsOk(run, draws) && Prepare(run).Ok? && Prepare(run).value.Prepared?
    requires Calibrated(div, run, draws) == Ok(result)
    ensures LoopReady(run, draws)
    ensures var p := Prepare(run).value;
      var outcomes := Outcomes(run, draws, p.selection.decisionStatistic);
      outcomes.Ok? && result == FinalResult(div, run, p.observed, p.selection, p.diagnostics, outcomes.value)
  {
    PreparedIsReady(run, draws);
  }

  predicate ReportsOracle(div: Division, run: Run, result: CalibrationResult, t: seq<Option<real>>)
    requires 2 <= |t| == run.Length()
  {
    && (result.status.Complete? <==> Evaluable(t, 1))
    && (result.status.Complete? ==>
          && result.exceedanceCount == Exceedances(t, 1)
          && result.pValue == Some(div.of(1 + Exceedances(t, 1), StateCount(run.Length(), 1))))
  }

  lemma OutcomesReport(
    div: Division, run: Run, observed: seq<StatisticResult>, selection: SelectionResult, diagnostics: seq<string>,
    outcomes: seq<ReplicateOutcome>, t: seq<Option<real>>)
    requires 2 <= |t| == run.Length() == run.plan.replicates + 1
    requires CountFailures(outcomes) == 0 <==> Evaluable(t, 1)
    requires Evaluable(t, 1) ==> CountExceedances(outcomes, selection.decisionStatistic) == Exceedances(t, 1)
    ensures ReportsOracle(div, run, FinalResult(div, run, observed, selection, diagnostics, outcomes), t)
  {
    FinalReports(div, run, observed, selection, diagnostics, outcomes);
  }

  lemma EnumeratedPrepared(run: Run, div: Division, draws: seq<seq<int>>)
    requires Registered(run) && DrawsOk(run, draws) && Prepare(run).Ok? && Prepare(run).value.Prepared?
    requires run.plan.nullName == CircularShiftExactV1
    requires 2 <= |Table(run)| == run.Length() == run.plan.replicates + 1
    ensures LoopReady(run, draws)
    ensures var p := Prepare(run).value;
      var outcomes := Outcomes(run, draws, p.selection.decisionStatistic);
      outcomes.Ok? && ReportsOracle(div, run, FinalResult(div, run, p.observed, p.selection, p.diagnostics,
                                                          outcomes.value), Table(run))
  {
    var p := Prepare(run).value;
    EnumeratedOutcomes(run, draws);
    OutcomesReport(div, run, p.observed, p.selection, p.diagnostics,
                   Outcomes(run, draws, p.selection.decisionStatistic).value, Table(run));
  }

  lemma TerminalReports(div: Division, run: Run, draws: seq<seq<int>>, result: CalibrationResult)
    requires DrawsOk(run, draws) && Prepare(run).Ok? && Prepare(run).value.Terminal?
    requires Calibrated(div, run, draws) == Ok(result)
    ensures result.status.NotEvaluable?
  {
  }

  /** An enumerated run completes exactly when every rotation decides, and then reports the oracle's count. */
  lemma EnumeratedRunMatchesOracle(div: Division, run: Run, draws: seq<seq<int>>, result: CalibrationResult)
    requires RunOk(run) && AdapterOk(run.adapter, run.plan.candidates) && DrawsOk(run, draws)
    requires run.plan.nullName == CircularShiftExactV1 && run.plan.replicates == run.Length() - 1
    requires Calibrated(div, run, draws) == Ok(result)
    ensures result.status.Complete? <==> Evaluable(Table(run), 1)
    ensures result.status.Complete? ==>
      && result.exceedanceCount == Exceedances(Table(run), 1)
      && result.pValue == Some(div.of(1 + Exceedances(Table(run), 1), StateCount(run.Length(), 1)))
  {
    TableAt(run.plan, run.adapter, run.source, run.target, 0);
    if Prepare(run).value.Prepared? {
      PreparedResult(div, run, draws, result);
      EnumeratedPrepared(run, div, draws);
    } else {
      TerminalReports(div, run, draws, result);
      UnpreparedUndecided(run);
    }
  }

  /** A bound run that stops at its observed scan has no observed decision. */
  lemma UnpreparedUndecided(run: Run)
    requires Registered(run) && BindNull(run.plan, run.Length()).Bound?
    requires run.plan.nullName == CircularShiftExactV1 ==> run.plan.replicates == run.Length() - 1
    requires Prepare(run).Ok? && Prepare(run).value.Terminal?
    ensures Table(run)[0].None?
  {
    var raw := run.adapter.evaluate(run.source, run.target);
    VectorOfRun(run, run.source);
    RawSelectable(raw, run.plan, run.adapter);
    TableAt(run.plan, run.adapter, run.source, run.target, 0);
  }

  // ---------------------------------------------------------------- sampling obeys the power cap

  /** One index per replicate, as the random source answers a sampled circular run. */
  function DrawsFrom(word: seq<nat>): (draws: seq<seq<int>>)
    ensures |draws| == |word| && forall i :: 0 <= i < |draws| ==> draws[i] == [word[i]]
  {
    seq(|word|, i requires 0 <= i < |word| => [word[i] as int])
  }

  /** A word of state indices, one for each planned replicate. */
  predicate IsWordOf(run: Run, word: seq<nat>) {
    |word| == run.plan.replicates
    && forall i :: 0 <= i < |word| ==> word[i] < StateCount(run.Length(), run.plan.nullParameter)
  }

  predicate Sampled(run: Run) {
    RunOk(run) && run.plan.nullName == CircularShiftV2 && 2 * run.plan.nullParameter <= run.Length()
  }

  lemma WordDrawsOk(run: Run, word: seq<nat>)
    requires Sampled(run) && IsWordOf(run, word)
    ensures DrawsOk(run, DrawsFrom(word))
  {
  }

  lemma SampledRecords(run: Run, word: seq<nat>)
    requires Registered(run) && Sampled(run) && IsWordOf(run, word)
    requires Prepare(run).Ok? && Prepare(run).value.Prepared?
    ensures LoopReady(run, DrawsFrom(word))
    ensures var outcomes := Outcomes(run, DrawsFrom(word), Prepare(run).value.selection.decisionStatistic);
      outcomes.Ok? && RecordsDraws(outcomes.value, Table(run), run.plan.nullParameter, word)
  {
    WordDrawsOk(run, word);
    LoopCompletes(run, DrawsFrom(word));
    var outcomes := Outcomes(run, DrawsFrom(word), Prepare(run).value.selection.decisionStatistic).value;
    forall i | 0 <= i < |outcomes| ensures Records(outcomes[i], Drawn(Table(run), run.plan.nullParameter, word[i])) {
      RunRecords(run, DrawsFrom(word), i);
    }
  }

  predicate RunRejects(div: Division, run: Run, draws: seq<seq<int>>)
    requires DrawsOk(run, draws)
  {
    Calibrated(div, run, draws).Ok? && Calibrated(div, run, draws).value.rejectNull == Some(true)
  }

  lemma FinalRejectsIff(
    div: Division, run: Run, observed: seq<StatisticResult>, selection: SelectionResult, diagnostics: seq<string>,
    outcomes: seq<ReplicateOutcome>, t: seq<Option<real>>, word: seq<nat>)
    requires t != [] && t[0] == Some(selection.decisionStatistic) && |word| == run.plan.replicates
    requires run.plan.nullParameter >= 0 && RecordsDraws(outcomes, t, run.plan.nullParameter, word)
    ensures FinalResult(div, run, observed, selection, diagnostics, outcomes).rejectNull == Some(true)
       <==> DrawsReject(div, run.plan.alpha, t, run.plan.nullParameter, word)
  {
    DrawCounts(outcomes, t, run.plan.nullParameter, word);
  }

  /** A sampled run rejects exactly when it is admitted and its draws reject by the decision table. */
  lemma SampledRunRejectsIff(div: Division, run: Run, word: seq<nat>)
    requires Registered(run) && Sampled(run) && IsWordOf(run, word)
    ensures DrawsOk(run, DrawsFrom(word)) && run.Length() > 0
    ensures RunRejects(div, run, DrawsFrom(word))
       <==> Admitted(run) && DrawsReject(div, run.plan.alpha, Table(run), run.plan.nullParameter, word)
  {
    WordDrawsOk(run, word);
    VectorOfRun(run, run.source);
    if Prepare(run).value.Prepared? {
      SampledRecords(run, word);
      PreparedObserves(run);
      var p := Prepare(run).value;
      FinalRejectsIff(div, run, p.observed, p.selection, p.diagnostics,
                      Outcomes(run, DrawsFrom(word), p.selection.decisionStatistic).value, Table(run), word);
    } else {
      UnpreparedUndecided(run);
    }
  }

  /** Over all draw sequences, at most the reported share of whole runs reject, for every data set. */
  lemma RunsObeyReportedCap(div: Division, run: Run, estimate: Estimator, rejecting: set<seq<nat>>)
    requires div.Sound() && Registered(run) && Sampled(run) && Lagged(run.adapter, run.plan.candidates, estimate)
    requires forall word :: word in rejecting ==> IsWordOf(run, word)
    requires forall word :: word in rejecting ==> DrawsOk(run, DrawsFrom(word)) && RunRejects(div, run, DrawsFrom(word))
    ensures DrawCount(run.plan, run.Length()) > 0
    ensures |rejecting| as real / DrawCount(run.plan, run.Length()) as real <= Cap(div, run.plan, run.Length())
  {
    PowerCapHolds(div, run.plan, run.adapter, estimate, run.source, run.target);
    RejectingAmongPlan(div, run, rejecting);
    ReportedBound(div, run.plan, run.Length(), |rejecting|);
  }

  lemma RejectingAmongPlan(div: Division, run: Run, rejecting: set<seq<nat>>)
    requires Registered(run) && Sampled(run)
    requires forall word :: word in rejecting ==> IsWordOf(run, word)
    requires forall word :: word in rejecting ==> DrawsOk(run, DrawsFrom(word)) && RunRejects(div, run, DrawsFrom(word))
    ensures |rejecting| <= |PlanRejects(div, run.plan, Table(run))|
  {
    var letters := Letters(StateCount(run.Length(), run.plan.nullParameter));
    forall word | word in rejecting ensures word in PlanRejects(div, run.plan, Table(run)) {
      SampledRunRejectsIff(div, run, word);
      WordsAre(run.plan.replicates, letters, word);
    }
    SubsetSize(rejecting, PlanRejects(div, run.plan, Table(run)));
  }
}
