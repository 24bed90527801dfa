/** The p-value bounds of a run with failed replicates, over every way those replicates could have ended. */
module FailureBounds {
  import opened Wrappers
  import opened Contracts
  import opened Verifier
  import opened Acceptance

  /** A record in which every failed outcome has been replaced by some complete one. */
  predicate Completes(completed: seq<ReplicateOutcome>, outcomes: seq<ReplicateOutcome>) {
    |completed| == |outcomes|
    && forall i :: 0 <= i < |outcomes| ==>
         if outcomes[i].status.ReplicateFailed?
         then completed[i].status.ReplicateComplete? && completed[i].selection.Some?
         else completed[i] == outcomes[i]
  }

  /** Completing the failures can only add exceedances, and at most one for each. */
  lemma {:induction false} CompletionCounts(
    completed: seq<ReplicateOutcome>, outcomes: seq<ReplicateOutcome>, observed: real)
    requires Completes(completed, outcomes)
    ensures CountExceedances(outcomes, observed) <= CountExceedances(completed, observed)
         <= CountExceedances(outcomes, observed) + CountFailures(outcomes)
    ensures CountFailures(completed) == 0
    decreases |outcomes|
  {
    if outcomes != [] {
      var last := |outcomes| - 1;
      CompletionCounts(completed[..last], outcomes[..last], observed);
    }
  }

  /** A vector in which every candidate scores the given value. */
  function FillVector(results: seq<StatisticResult>, decision: real): (filled: seq<StatisticResult>)
    ensures |filled| == |results|
    ensures forall i :: 0 <= i < |filled| ==>
              filled[i] == results[i].(estimate := Some(decision), selectionScore := Some(decision), validity := Valid)
  {
    seq(|results|, i requires 0 <= i < |results| =>
      results[i].(estimate := Some(decision), selectionScore := Some(decision), validity := Valid))
  }

  /** One outcome, completed if it failed: the first candidate is selected with the given decision. */
  function FillOne(o: ReplicateOutcome, decision: real): ReplicateOutcome {
    if o.status.ReplicateFailed?
    then
      var candidate := if o.statisticResults == [] then 1 else o.statisticResults[0].candidateId;
      o.(status := ReplicateComplete, failureStage := None,
         statisticResults := FillVector(o.statisticResults, decision),
         selection := Some(SelectionResult(candidate, 0, decision, [candidate])))
    else o
  }

  /** The completed outcome satisfies the constructor of an outcome, for the same candidates and token. */
  lemma FilledOk(o: ReplicateOutcome, decision: real)
    requires OutcomeOk(o)
    ensures OutcomeOk(FillOne(o, decision))
    ensures CandidateIds(FillOne(o, decision).statisticResults) == CandidateIds(o.statisticResults)
  {
    if o.status.ReplicateFailed? {
      var filled := FillVector(o.statisticResults, decision);
      assert filled != [] && CandidateIds(filled) == CandidateIds(o.statisticResults);
      assert forall i :: 0 <= i < |filled| ==> StatisticOk(o.statisticResults[i]) && StatisticOk(filled[i]);
      assert CandidateIds(filled)[0] == o.statisticResults[0].candidateId;
      assert ScoresOf(filled)[0] == decision;
    }
  }

  /** The completion in which every failed replicate decides the given value. */
  function Fill(outcomes: seq<ReplicateOutcome>, decision: real): seq<ReplicateOutcome> {
    if outcomes == [] then []
    else Fill(outcomes[..|outcomes| - 1], decision) + [FillOne(outcomes[|outcomes| - 1], decision)]
  }

  lemma CompletesOneMore(
    completed: seq<ReplicateOutcome>, outcomes: seq<ReplicateOutcome>, c: ReplicateOutcome, o: ReplicateOutcome)
    requires Completes(completed, outcomes) && Completes([c], [o])
    ensures Completes(completed + [c], outcomes + [o])
  {
    assert [c][0] == c && [o][0] == o;
  }

  lemma CountsOneMore(outcomes: seq<ReplicateOutcome>, o: ReplicateOutcome, observed: real)
    ensures CountExceedances(outcomes + [o], observed)
         == CountExceedances(outcomes, observed) + if Exceeds(o, observed) then 1 else 0
    ensures CountFailures(outcomes + [o]) == CountFailures(outcomes) + if o.status.ReplicateFailed? then 1 else 0
  {
    assert (outcomes + [o])[..|outcomes|] == outcomes;
  }

  lemma FillOneCompletes(o: ReplicateOutcome, decision: real, observed: real)
    ensures Completes([FillOne(o, decision)], [o])
    ensures Exceeds(FillOne(o, decision), observed)
       <==> if o.status.ReplicateFailed? then decision >= observed else Exceeds(o, observed)
  {
  }

  lemma {:induction false} FillCompletes(outcomes: seq<ReplicateOutcome>, decision: real)
    ensures Completes(Fill(outcomes, decision), outcomes)
    decreases |outcomes|
  {
    if outcomes != [] {
      var init, last := outcomes[..|outcomes| - 1], outcomes[|outcomes| - 1];
      FillCompletes(init, decision);
      FillOneCompletes(last, decision, decision);
      CompletesOneMore(Fill(init, decision), init, FillOne(last, decision), last);
      assert init + [last] == outcomes;
    }
  }

  /** One more outcome adds the same to both sides of the count. */
  lemma FillCountStep(
    filled: seq<ReplicateOutcome>, outcomes: seq<ReplicateOutcome>, o: ReplicateOutcome, decision: real, observed: real)
    requires CountExceedances(filled, observed)
          == CountExceedances(outcomes, observed) + if decision >= observed then CountFailures(outcomes) else 0
    ensures CountExceedances(filled + [FillOne(o, decision)], observed)
         == CountExceedances(outcomes + [o], observed)
            + if decision >= observed then CountFailures(outcomes + [o]) else 0
  {
    FillOneCompletes(o, decision, observed);
    CountsOneMore(outcomes, o, observed);
    CountsOneMore(filled, FillOne(o, decision), observed);
    assert Exceeds(o, observed) ==> !o.status.ReplicateFailed?;
  }

  lemma {:induction false} FillCounts(outcomes: seq<ReplicateOutcome>, decision: real, observed: real)
    ensures CountExceedances(Fill(outcomes, decision), observed)
         == CountExceedances(outcomes, observed) + if decision >= observed then CountFailures(outcomes) else 0
    decreases |outcomes|
  {
    if outcomes != [] {
      var init, last := outcomes[..|outcomes| - 1], outcomes[|outcomes| - 1];
      FillCounts(init, decision, observed);
      FillCountStep(Fill(init, decision), init, last, decision, observed);
      assert init + [last] == outcomes;
    }
  }

  /** The retained bounds are those of the record's own counts. */
  predicate FailureRecord(div: Division, r: CalibrationResult, observed: real, e: nat, f: nat) {
    && e == CountExceedances(r.replicates, observed) && f == CountFailures(r.replicates) && r.plannedReplicates >= 0
    && r.exceedanceBoundLow == Some(div.of(1 + e, r.plannedReplicates + 1))
    && r.exceedanceBoundHigh == Some(div.of(1 + e + f, r.plannedReplicates + 1))
  }

  /** The verifier's terminal check leaves such a record, from the counts it derives. */
  lemma VerifiedFailureRecord(div: Division, r: CalibrationResult, observed: real, e: nat, f: nat)
    requires ExecutionTerminal(div, r, e, f) && r.plannedReplicates >= 0
    requires e == CountExceedances(r.replicates, observed) && f == CountFailures(r.replicates)
    ensures FailureRecord(div, r, observed, e, f) && f >= 1
  {
  }

  /** So does the constructor, in the same state. */
  lemma ConstructedFailureRecord(div: Division, r: CalibrationResult)
    requires ReplicateFailureOk(div, r) && r.plannedReplicates >= 0
    ensures var observed := r.observedSelection.value.decisionStatistic;
      FailureRecord(div, r, observed, CountExceedances(r.replicates, observed), CountFailures(r.replicates))
  {
  }

  /** The p-value a completion of the record would have. */
  function CompletedP(div: Division, r: CalibrationResult, completed: seq<ReplicateOutcome>, observed: real): real {
    div.of(1 + CountExceedances(completed, observed), r.plannedReplicates + 1)
  }

  /** Whatever the failed replicates would have given, the p-value lies between the retained bounds. */
  lemma BoundsCoverCompletions(
    div: Division, r: CalibrationResult, observed: real, e: nat, f: nat, completed: seq<ReplicateOutcome>)
    requires div.Sound() && FailureRecord(div, r, observed, e, f) && Completes(completed, r.replicates)
    ensures r.exceedanceBoundLow.value <= CompletedP(div, r, completed, observed) <= r.exceedanceBoundHigh.value
  {
    CompletionCounts(completed, r.replicates, observed);
  }

  predicate AllOutcomesOk(outcomes: seq<ReplicateOutcome>) {
    forall i :: 0 <= i < |outcomes| ==> OutcomeOk(outcomes[i])
  }

  lemma AllOkAppend(outcomes: seq<ReplicateOutcome>, o: ReplicateOutcome)
    ensures AllOutcomesOk(outcomes + [o]) <==> AllOutcomesOk(outcomes) && OutcomeOk(o)
  {
    var longer := outcomes + [o];
    assert longer[|outcomes|] == o && forall i :: 0 <= i < |outcomes| ==> longer[i] == outcomes[i];
  }

  lemma {:induction false} FillOk(outcomes: seq<ReplicateOutcome>, decision: real)
    requires AllOutcomesOk(outcomes)
    ensures AllOutcomesOk(Fill(outcomes, decision))
    decreases |outcomes|
  {
    if outcomes != [] {
      var init, last := outcomes[..|outcomes| - 1], outcomes[|outcomes| - 1];
      assert init + [last] == outcomes;
      AllOkAppend(init, last);
      FillOk(init, decision);
      FilledOk(last, decision);
      AllOkAppend(Fill(init, decision), FillOne(last, decision));
    }
  }

  lemma FilledP(div: Division, r: CalibrationResult, observed: real, decision: real, count: nat)
    requires count == CountExceedances(r.replicates, observed)
                      + if decision >= observed then CountFailures(r.replicates) else 0
    ensures Completes(Fill(r.replicates, decision), r.replicates)
    ensures CompletedP(div, r, Fill(r.replicates, decision), observed) == div.of(1 + count, r.plannedReplicates + 1)
  {
    FillCompletes(r.replicates, decision);
    FillCounts(r.replicates, decision, observed);
  }

  /** Both bounds are attained, by completions below and at the observed decision, so no narrower interval is right. */
  lemma BoundsAttained(div: Division, r: CalibrationResult, observed: real, e: nat, f: nat)
    requires FailureRecord(div, r, observed, e, f)
    ensures var lowest, highest := Fill(r.replicates, observed - 1.0), Fill(r.replicates, observed);
      && Completes(lowest, r.replicates) && Completes(highest, r.replicates)
      && r.exceedanceBoundLow == Some(CompletedP(div, r, lowest, observed))
      && r.exceedanceBoundHigh == Some(CompletedP(div, r, highest, observed))
  {
    FilledP(div, r, observed, observed - 1.0, e);
    FilledP(div, r, observed, observed, e + f);
  }

  /** Without failures there is nothing to complete, and the interval is the p-value itself. */
  lemma NoFailuresCollapse(
    div: Division, r: CalibrationResult, observed: real, e: nat, completed: seq<ReplicateOutcome>)
    requires FailureRecord(div, r, observed, e, 0) && Completes(completed, r.replicates)
    ensures completed == r.replicates
    ensures r.exceedanceBoundLow == r.exceedanceBoundHigh == Some(CompletedP(div, r, completed, observed))
  {
    NoFailuresCounted(r.replicates);
    assert completed == r.replicates;
  }

  // ---------------------------------------------------------------- the reference tail summary

  datatype Tail = Tail(b: nat, e: nat, f: nat, low: real, high: real, p: Option<real>)

  function CountReached(maxima: seq<Option<real>>, observed: real): nat {
    if maxima == [] then 0
    else CountReached(maxima[..|maxima| - 1], observed)
         + if maxima[|maxima| - 1].Some? && maxima[|maxima| - 1].value >= observed then 1 else 0
  }

  function CountMissing(maxima: seq<Option<real>>): nat {
    if maxima == [] then 0
    else CountMissing(maxima[..|maxima| - 1]) + if maxima[|maxima| - 1].None? then 1 else 0
  }

  /** The diagnostic script's summary of a finite schedule of maxima, None standing for a failed position. */
  function SummarizeTail(div: Division, observed: real, maxima: seq<Option<real>>): Tail {
    var b, e, f := |maxima|, CountReached(maxima, observed), CountMissing(maxima);
    var low, high := div.of(1 + e, b + 1), div.of(1 + e + f, b + 1);
    Tail(b, e, f, low, high, if f == 0 then Some(low) else None)
  }

  /** The schedule of maxima a record retains. */
  function MaximaOf(outcomes: seq<ReplicateOutcome>): (maxima: seq<Option<real>>)
    ensures |maxima| == |outcomes|
  {
    seq(|outcomes|, i requires 0 <= i < |outcomes| =>
      if outcomes[i].status.ReplicateComplete? && outcomes[i].selection.Some?
      then Some(outcomes[i].selection.value.decisionStatistic) else None)
  }

  /** Complete outcomes carry their selection; failed ones carry none. */
  predicate SelectionsFit(outcomes: seq<ReplicateOutcome>) {
    forall i :: 0 <= i < |outcomes| ==> (outcomes[i].status.ReplicateComplete? <==> outcomes[i].selection.Some?)
  }

  lemma {:induction false} SummaryCounts(outcomes: seq<ReplicateOutcome>, observed: real)
    requires SelectionsFit(outcomes)
    ensures CountReached(MaximaOf(outcomes), observed) == CountExceedances(outcomes, observed)
    ensures CountMissing(MaximaOf(outcomes)) == CountFailures(outcomes)
  {
    if outcomes != [] {
      var init := outcomes[..|outcomes| - 1];
      SummaryCounts(init, observed);
      assert MaximaOf(outcomes)[..|outcomes| - 1] == MaximaOf(init);
    }
  }

  /** An accepted evaluated record meets what the next lemma asks of its outcomes. */
  lemma EvaluatedSelectionsFit(div: Division, r: CalibrationResult, e: nat, f: nat)
    requires Evaluated(div, r, e, f)
    ensures SelectionsFit(r.replicates)
  {
    forall i | 0 <= i < |r.replicates|
      ensures r.replicates[i].status.ReplicateComplete? <==> r.replicates[i].selection.Some?
    {
      assert OutcomeOk(r.replicates[i]);
    }
  }

  /** The reference summary repeats the record: its counts, and its p-value or its bounds. */
  predicate SummaryAgrees(r: CalibrationResult, tail: Tail) {
    && tail.b == r.plannedReplicates && tail.e == r.exceedanceCount && tail.f == r.failureCount
    && tail.p == r.pValue
    && if r.status.Complete? then r.pValue == Some(tail.low) && tail.low == tail.high
       else r.exceedanceBoundLow == Some(tail.low) && r.exceedanceBoundHigh == Some(tail.high)
  }

  lemma SummaryFromCounts(
    div: Division, r: CalibrationResult, e: nat, f: nat, observed: real, maxima: seq<Option<real>>)
    requires TerminalVerified(div, r, e, f) && (r.status.Complete? || r.failureStage == Some(ReplicateExecution))
    requires |maxima| == |r.replicates| && CountReached(maxima, observed) == e && CountMissing(maxima) == f
    ensures SummaryAgrees(r, SummarizeTail(div, observed, maxima))
  {
  }

  /** On every verified record the reference computes the retained p-value or the retained bounds. */
  lemma ReferenceAgrees(
    div: Division, r: CalibrationResult, e: nat, f: nat, observed: real, maxima: seq<Option<real>>)
    requires TerminalVerified(div, r, e, f) && (r.status.Complete? || r.failureStage == Some(ReplicateExecution))
    requires e == CountExceedances(r.replicates, observed) && f == CountFailures(r.replicates)
    requires SelectionsFit(r.replicates) && maxima == MaximaOf(r.replicates)
    ensures SummaryAgrees(r, SummarizeTail(div, observed, maxima))
  {
    SummaryCounts(r.replicates, observed);
    SummaryFromCounts(div, r, e, f, observed, maxima);
  }

  // ---------------------------------------------------------------- accepted records

  /** The counts of an accepted record with failed replicates. */
  lemma AcceptedFailure(div: Division, ctx: Context, r: CalibrationResult) returns (e: nat, f: nat)
    requires ContextOk(ctx) && Accepted(div, ctx, r)
    requires !r.status.Complete? && r.failureStage == Some(ReplicateExecution)
    ensures r.observedSelection.Some? && TerminalVerified(div, r, e, f) && SelectionsFit(r.replicates)
    ensures FailureRecord(div, r, r.observedSelection.value.decisionStatistic, e, f) && f >= 1
  {
    e, f := AcceptedEvaluated(div, ctx, r);
    VerifiedFailureRecord(div, r, r.observedSelection.value.decisionStatistic, e, f);
    EvaluatedSelectionsFit(div, r, e, f);
  }

  /** The bounds hold for this completion, are attained, and are those of the reference summary. */
  predicate BoundsRight(div: Division, r: CalibrationResult, observed: real, completed: seq<ReplicateOutcome>) {
    var lowest, highest := Fill(r.replicates, observed - 1.0), Fill(r.replicates, observed);
    && r.exceedanceBoundLow.Some? && r.exceedanceBoundHigh.Some?
    && r.exceedanceBoundLow.value <= CompletedP(div, r, completed, observed) <= r.exceedanceBoundHigh.value
    && Completes(lowest, r.replicates) && r.exceedanceBoundLow.value == CompletedP(div, r, lowest, observed)
    && Completes(highest, r.replicates) && r.exceedanceBoundHigh.value == CompletedP(div, r, highest, observed)
    && SummaryAgrees(r, SummarizeTail(div, observed, MaximaOf(r.replicates)))
  }

  lemma RecordBounds(
    div: Division, r: CalibrationResult, observed: real, e: nat, f: nat, completed: seq<ReplicateOutcome>)
    requires div.Sound() && FailureRecord(div, r, observed, e, f) && Completes(completed, r.replicates)
    requires TerminalVerified(div, r, e, f) && SelectionsFit(r.replicates)
    requires !r.status.Complete? && r.failureStage == Some(ReplicateExecution)
    ensures BoundsRight(div, r, observed, completed)
  {
    BoundsCoverCompletions(div, r, observed, e, f, completed);
    BoundsAttained(div, r, observed, e, f);
    ReferenceAgrees(div, r, e, f, observed, MaximaOf(r.replicates));
  }

  /**
   * On every record the verifier accepts with failed replicates, each completion has its p within the retained
   * bounds, two completions attain them, and the reference summary of the maxima repeats the record.
   */
  lemma AcceptedBounds(div: Division, ctx: Context, r: CalibrationResult, completed: seq<ReplicateOutcome>)
    requires ContextOk(ctx) && div.Sound() && Accepted(div, ctx, r)
    requires !r.status.Complete? && r.failureStage == Some(ReplicateExecution) && Completes(completed, r.replicates)
    ensures r.observedSelection.Some?
    ensures BoundsRight(div, r, r.observedSelection.value.decisionStatistic, completed)
  {
    var e, f := AcceptedFailure(div, ctx, r);
    RecordBounds(div, r, r.observedSelection.value.decisionStatistic, e, f, completed);
  }

  /** The attaining completions are well formed: every outcome in them satisfies the constructor. */
  lemma AcceptedCompletionsOk(div: Division, ctx: Context, r: CalibrationResult, decision: real)
    requires ContextOk(ctx) && Accepted(div, ctx, r)
    requires r.failureStage != Some(NullBind) && r.failureStage != Some(ObservedStatisticScan)
    ensures AllOutcomesOk(Fill(r.replicates, decision))
  {
    var e, f := AcceptedRetains(div, ctx, r);
    FillOk(r.replicates, decision);
  }
}
