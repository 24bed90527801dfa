/** What an accepted record leaves open: its raw evidence, and nothing else. */
module AcceptedContent {
  import opened Wrappers
  import opened Contracts
  import opened Selection
  import opened Plans
  import opened Verifier

  /** The results as the statistic returned them, without their scores. */
  function Unscored(results: seq<StatisticResult>): (raw: seq<StatisticResult>)
    ensures |raw| == |results|
    ensures forall i :: 0 <= i < |raw| ==> raw[i] == results[i].(selectionScore := None)
  {
    seq(|results|, i requires 0 <= i < |results| => results[i].(selectionScore := None))
  }

  /** The same raw vector, the same state and the same diagnostics. */
  predicate SameOutcome(a: ReplicateOutcome, b: ReplicateOutcome) {
    && Unscored(a.statisticResults) == Unscored(b.statisticResults)
    && a.transformToken.state == b.transformToken.state && a.diagnostics == b.diagnostics
  }

  /** The same input digest, the same diagnostics, the same raw observed vector, and outcome for outcome the same. */
  predicate SameEvidence(a: CalibrationResult, b: CalibrationResult) {
    && a.semanticInputSha256 == b.semanticInputSha256 && a.diagnostics == b.diagnostics
    && Unscored(a.observedResults) == Unscored(b.observedResults) && |a.replicates| == |b.replicates|
    && forall i :: 0 <= i < |a.replicates| ==> SameOutcome(a.replicates[i], b.replicates[i])
  }

  lemma SameFailure(a: seq<StatisticResult>, b: seq<StatisticResult>)
    requires Unscored(a) == Unscored(b)
    ensures HasFailure(a) <==> HasFailure(b)
  {
    forall i | 0 <= i < |a| ensures a[i].validity == b[i].validity {
      assert Unscored(a)[i] == Unscored(b)[i];
    }
  }

  lemma CompleteHasNone(ctx: Context, results: seq<StatisticResult>, selection: Option<SelectionResult>)
    requires PlanOk(ctx.plan) && CompleteVerified(ctx, results, selection)
    ensures !HasFailure(results) && results != [] && results[0].supportN >= 1 && selection.Some?
  {
    assert EntryRead(ctx, results[0], ctx.plan.candidates[0], results[0].supportN);
    forall i | 0 <= i < |results| ensures results[i].validity.Valid? { assert ScoredEntry(ctx, results[i]); }
  }

  /** The plan scores the raw vector and selects from it. */
  lemma CompleteFixed(ctx: Context, a: seq<StatisticResult>, s: Option<SelectionResult>, b: seq<StatisticResult>,
                      t: Option<SelectionResult>)
    requires PlanOk(ctx.plan) && CompleteVerified(ctx, a, s) && CompleteVerified(ctx, b, t)
    requires Unscored(a) == Unscored(b)
    ensures a == b && s == t
  {
    hide SelectionOf;
    forall i | 0 <= i < |a| ensures a[i] == b[i] {
      assert ScoredEntry(ctx, a[i]) && ScoredEntry(ctx, b[i]);
      assert Unscored(a)[i] == Unscored(b)[i];
    }
  }

  lemma FailureFixed(ctx: Context, a: seq<StatisticResult>, s: Option<SelectionResult>, b: seq<StatisticResult>,
                     t: Option<SelectionResult>)
    requires FailureVerified(ctx, a, s) && FailureVerified(ctx, b, t) && Unscored(a) == Unscored(b)
    ensures a == b && s == t
  {
    forall i | 0 <= i < |a| ensures a[i] == b[i] {
      assert RawFailureEntry(a[i]) && RawFailureEntry(b[i]);
      assert Unscored(a)[i] == Unscored(b)[i];
    }
  }

  lemma OutcomeFixed(ctx: Context, semantic: string, support: int, a: ReplicateOutcome, b: ReplicateOutcome, id: nat)
    requires PlanOk(ctx.plan) && support >= 1 && SameOutcome(a, b)
    requires ReplicateVerified(ctx, semantic, support, a, id) && ReplicateVerified(ctx, semantic, support, b, id)
    ensures a == b
  {
    hide CompleteVerified, FailureVerified, OwnedToken;
    SameFailure(a.statisticResults, b.statisticResults);
    if a.status.ReplicateComplete? { CompleteHasNone(ctx, a.statisticResults, a.selection); }
    if b.status.ReplicateComplete? { CompleteHasNone(ctx, b.statisticResults, b.selection); }
    if a.status.ReplicateFailed? { FailedHasOne(ctx, a.statisticResults, a.selection); }
    if b.status.ReplicateFailed? { FailedHasOne(ctx, b.statisticResults, b.selection); }
    if a.status.ReplicateFailed? {
      FailureFixed(ctx, a.statisticResults, a.selection, b.statisticResults, b.selection);
    } else {
      CompleteFixed(ctx, a.statisticResults, a.selection, b.statisticResults, b.selection);
    }
  }

  lemma FailedHasOne(ctx: Context, results: seq<StatisticResult>, selection: Option<SelectionResult>)
    requires FailureVerified(ctx, results, selection)
    ensures HasFailure(results) && results != []
  {
  }

  lemma OutcomesFixed(ctx: Context, a: CalibrationResult, b: CalibrationResult, support: int)
    requires PlanOk(ctx.plan) && support >= 1 && SameEvidence(a, b)
    requires OutcomesVerified(ctx, a, support) && OutcomesVerified(ctx, b, support)
    ensures a.replicates == b.replicates
  {
    hide ReplicateVerified, SameOutcome;
    forall i | 0 <= i < |a.replicates| ensures a.replicates[i] == b.replicates[i] {
      assert ReplicateVerified(ctx, a.semanticInputSha256, support, a.replicates[i], i);
      assert ReplicateVerified(ctx, a.semanticInputSha256, support, b.replicates[i], i);
      assert SameOutcome(a.replicates[i], b.replicates[i]);
      OutcomeFixed(ctx, a.semanticInputSha256, support, a.replicates[i], b.replicates[i], i);
    }
  }

  /** The failure stage an accepted record may name, by its observed vector. */
  lemma StageFollows(div: Division, ctx: Context, r: CalibrationResult)
    requires PlanOk(ctx.plan) && Accepted(div, ctx, r)
    ensures r.failureStage == Some(NullBind) <==> r.observedResults == []
    ensures r.failureStage == Some(ObservedStatisticScan) <==> HasFailure(r.observedResults)
  {
    if r.failureStage != Some(NullBind) && r.failureStage != Some(ObservedStatisticScan) {
      CompleteHasNone(ctx, r.observedResults, r.observedSelection);
    }
  }

  lemma TerminalFixed(div: Division, a: CalibrationResult, b: CalibrationResult, e: nat, f: nat)
    requires TerminalVerified(div, a, e, f) && TerminalVerified(div, b, e, f)
    requires a.failureStage == Some(NullBind) <==> b.failureStage == Some(NullBind)
    requires a.failureStage == Some(ObservedStatisticScan) <==> b.failureStage == Some(ObservedStatisticScan)
    requires a.semanticInputSha256 == b.semanticInputSha256 && a.scientificPlanSha256 == b.scientificPlanSha256
    requires a.plannedReplicates == b.plannedReplicates && a.alpha == b.alpha && a.diagnostics == b.diagnostics
    requires a.observedResults == b.observedResults && a.observedSelection == b.observedSelection
    requires a.replicates == b.replicates
    ensures a == b
  {
  }

  /**
   * Two accepted records of one plan with the same evidence are the same record: seeds, tokens, scores, selections,
   * counts, p-value, bounds, decision, status and stage all follow.
   */
  lemma AcceptedFixed(div: Division, ctx: Context, a: CalibrationResult, b: CalibrationResult)
    requires PlanOk(ctx.plan) && Accepted(div, ctx, a) && Accepted(div, ctx, b) && SameEvidence(a, b)
    ensures a == b
  {
    hide CompleteVerified, FailureVerified, OutcomesVerified, SameOutcome, TerminalVerified, CountExceedances;
    StageFollows(div, ctx, a);
    StageFollows(div, ctx, b);
    SameFailure(a.observedResults, b.observedResults);
    if a.failureStage == Some(NullBind) {
      BothEmpty(div, a, b);
      TerminalFixed(div, a, b, 0, 0);
    } else if a.failureStage == Some(ObservedStatisticScan) {
      FailureFixed(ctx, a.observedResults, a.observedSelection, b.observedResults, b.observedSelection);
      BothEmpty(div, a, b);
      TerminalFixed(div, a, b, 0, 0);
    } else {
      CompleteHasNone(ctx, a.observedResults, a.observedSelection);
      CompleteFixed(ctx, a.observedResults, a.observedSelection, b.observedResults, b.observedSelection);
      OutcomesFixed(ctx, a, b, a.observedResults[0].supportN);
      var decision := a.observedSelection.value.decisionStatistic;
      TerminalFixed(div, a, b, CountExceedances(a.replicates, decision), CountFailures(a.replicates));
    }
  }

  lemma BothEmpty(div: Division, a: CalibrationResult, b: CalibrationResult)
    requires TerminalVerified(div, a, 0, 0) && TerminalVerified(div, b, 0, 0) && a.failureStage == b.failureStage
    requires a.failureStage == Some(NullBind) || a.failureStage == Some(ObservedStatisticScan)
    ensures a.replicates == b.replicates == [] && a.observedSelection == b.observedSelection == None
  {
  }
}
