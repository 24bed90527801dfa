/** What acceptance implies: the constructor invariants, and the exact content of a complete record. */
module Acceptance {
  import opened Wrappers
  import opened Contracts
  import opened Selection
  import opened Plans
  import opened Execution
  import opened Verifier

  ghost predicate ContextOk(ctx: Context) {
    PlanOk(ctx.plan) && DigestsOk(ctx.digests) && ctx.backendIdentity != "" && ctx.preprocessingIdentity != ""
  }

  // ---------------------------------------------------------------- constructor invariants

  lemma VectorReadOk(ctx: Context, results: seq<StatisticResult>)
    requires ContextOk(ctx) && VectorRead(ctx, results)
    requires forall i :: 0 <= i < |results| ==>
      if results[i].validity.Valid? then results[i].estimate.Some?
      else results[i].estimate.None? && results[i].selectionScore.None?
    ensures VectorOk(results, false) && CandidateIds(results) == ctx.plan.candidates
  {
    forall i | 0 <= i < |results|
      ensures StatisticOk(results[i]) && CandidateIds(results)[i] == ctx.plan.candidates[i]
    {
      assert EntryRead(ctx, results[i], ctx.plan.candidates[i], results[0].supportN);
    }
    assert CandidateIds(results) == ctx.plan.candidates;
  }

  lemma CompleteVerifiedOk(ctx: Context, results: seq<StatisticResult>, selection: Option<SelectionResult>)
    requires ContextOk(ctx) && CompleteVerified(ctx, results, selection)
    ensures CompleteVectorOk(results, selection) && CandidateIds(results) == ctx.plan.candidates
  {
    forall i | 0 <= i < |results| ensures results[i].validity.Valid? && results[i].estimate.Some? {
      assert ScoredEntry(ctx, results[i]);
    }
    VectorReadOk(ctx, results);
    ReselectedVectorOk(results, ctx.plan.candidates, ctx.plan.tieTolerance);
  }

  lemma FailureVerifiedOk(ctx: Context, results: seq<StatisticResult>, selection: Option<SelectionResult>)
    requires ContextOk(ctx) && FailureVerified(ctx, results, selection)
    ensures FailureVectorOk(results) && CandidateIds(results) == ctx.plan.candidates
  {
    forall i | 0 <= i < |results|
      ensures results[i].selectionScore.None? && (results[i].estimate.None? <==> results[i].validity.AnalyticFailure?)
    {
      assert RawFailureEntry(results[i]);
    }
    VectorReadOk(ctx, results);
  }

  lemma TokenVerifiedOk(ctx: Context, token: Token, semantic: string, n: nat, replicate: int)
    requires ContextOk(ctx) && IsSha256(semantic) && TokenVerified(ctx, token, semantic, n, replicate)
    ensures TokenOk(token)
  {
  }

  lemma OutcomeVerifiedOk(ctx: Context, semantic: string, support: int, outcome: ReplicateOutcome, id: nat)
    requires ContextOk(ctx) && IsSha256(semantic) && support >= 1
    requires ReplicateVerified(ctx, semantic, support, outcome, id)
    ensures OutcomeOk(outcome) && CandidateIds(outcome.statisticResults) == ctx.plan.candidates
    ensures outcome.replicateId == id
    ensures var t := outcome.transformToken;
      t == OwnedToken(ctx, semantic, support + MaxLag(ctx.plan.candidates), t.state)
  {
    TokenVerifiedOk(ctx, outcome.transformToken, semantic, support + MaxLag(ctx.plan.candidates), id);
    if outcome.status.ReplicateFailed? {
      FailureVerifiedOk(ctx, outcome.statisticResults, outcome.selection);
    } else {
      CompleteVerifiedOk(ctx, outcome.statisticResults, outcome.selection);
    }
  }

  lemma OutcomeAtOk(ctx: Context, r: CalibrationResult, support: int, i: nat)
    requires ContextOk(ctx) && PrefixVerified(ctx, r) && support >= 1 && OutcomesVerified(ctx, r, support)
    requires i < |r.replicates|
    ensures OutcomeOk(r.replicates[i]) && r.replicates[i].replicateId == i
    ensures CandidateIds(r.replicates[i].statisticResults) == ctx.plan.candidates
    ensures var t := r.replicates[i].transformToken;
      t == OwnedToken(ctx, r.semanticInputSha256, support + MaxLag(ctx.plan.candidates), t.state)
  {
    OutcomeVerifiedOk(ctx, r.semanticInputSha256, support, r.replicates[i], i);
  }

  lemma TokensVerifiedOwned(ctx: Context, r: CalibrationResult, support: int)
    requires ContextOk(ctx) && PrefixVerified(ctx, r) && support >= 1 && OutcomesVerified(ctx, r, support)
    ensures TokensOwned(r.replicates, r.semanticInputSha256, r.scientificPlanSha256)
  {
    forall i | 0 <= i < |r.replicates|
      ensures var t, t0 := r.replicates[i].transformToken, r.replicates[0].transformToken;
        && t.semanticInputSha256 == r.semanticInputSha256 && t.scientificPlanSha256 == r.scientificPlanSha256
        && t.nullName == t0.nullName && t.nullParameterSha256 == t0.nullParameterSha256
        && t.boundNullOwnerSha256 == t0.boundNullOwnerSha256
    {
      OutcomeAtOk(ctx, r, support, i);
      OutcomeAtOk(ctx, r, support, 0);
    }
  }

  /** The observed vector and the outcomes of an accepted evaluated record satisfy the retention invariants. */
  lemma RetentionHolds(ctx: Context, r: CalibrationResult)
    requires ContextOk(ctx) && PrefixVerified(ctx, r)
    requires CompleteVerified(ctx, r.observedResults, r.observedSelection)
    requires OutcomesVerified(ctx, r, r.observedResults[0].supportN)
    requires r.exceedanceCount == CountExceedances(r.replicates, r.observedSelection.value.decisionStatistic)
    ensures RetainsRun(r) && forall i :: 0 <= i < |r.replicates| ==> OutcomeOk(r.replicates[i])
  {
    var support := r.observedResults[0].supportN;
    CompleteVerifiedOk(ctx, r.observedResults, r.observedSelection);
    TokensVerifiedOwned(ctx, r, support);
    forall i | 0 <= i < |r.replicates|
      ensures OutcomeOk(r.replicates[i]) && r.replicates[i].replicateId == i
      ensures CandidateIds(r.replicates[i].statisticResults) == CandidateIds(r.observedResults)
    {
      OutcomeAtOk(ctx, r, support, i);
    }
  }

  lemma {:induction false} NoFailuresCounted(outcomes: seq<ReplicateOutcome>)
    ensures CountFailures(outcomes) == 0 <==> forall i :: 0 <= i < |outcomes| ==> outcomes[i].status.ReplicateComplete?
  {
    if outcomes != [] {
      var last := |outcomes| - 1;
      NoFailuresCounted(outcomes[..last]);
      assert forall i :: 0 <= i < last ==> outcomes[i] == outcomes[..last][i];
    }
  }

  lemma BoundsAreProbabilities(div: Division, e: nat, f: nat, b: nat)
    requires div.Sound() && e + f <= b
    ensures 0.0 < div.of(1 + e, b + 1) <= 1.0 && 0.0 < div.of(1 + e + f, b + 1) <= 1.0
  {
  }

  lemma EvaluatedNumbers(div: Division, r: CalibrationResult, e: nat, f: nat)
    requires div.Sound() && TerminalVerified(div, r, e, f)
    requires r.failureStage != Some(NullBind) && r.failureStage != Some(ObservedStatisticScan)
    requires e + f <= |r.replicates|
    ensures ProbabilityOk(r.pValue) && ProbabilityOk(r.exceedanceBoundLow) && ProbabilityOk(r.exceedanceBoundHigh)
    ensures r.exceedanceCount == e <= r.plannedReplicates && r.failureCount == f <= r.plannedReplicates
  {
    BoundsAreProbabilities(div, e, f, r.plannedReplicates);
  }

  lemma CompleteTerminalOk(div: Division, r: CalibrationResult, e: nat, f: nat)
    requires RetainsRun(r) && CompleteTerminal(div, r, e, f) && f == CountFailures(r.replicates)
    ensures CompleteOk(div, r)
  {
    NoFailuresCounted(r.replicates);
  }

  lemma ExecutionTerminalOk(div: Division, r: CalibrationResult, e: nat, f: nat)
    requires RetainsRun(r) && ExecutionTerminal(div, r, e, f) && f == CountFailures(r.replicates)
    requires e + f <= r.plannedReplicates
    ensures ReplicateFailureOk(div, r)
  {
  }

  /** What is known of a record accepted with its loop run: it retains the run, and e and f count its outcomes. */
  ghost predicate Evaluated(div: Division, r: CalibrationResult, e: nat, f: nat) {
    && RetainsRun(r) && (forall i :: 0 <= i < |r.replicates| ==> OutcomeOk(r.replicates[i]))
    && e == CountExceedances(r.replicates, r.observedSelection.value.decisionStatistic)
    && f == CountFailures(r.replicates) && e + f <= |r.replicates|
    && TerminalVerified(div, r, e, f)
    && r.failureStage != Some(NullBind) && r.failureStage != Some(ObservedStatisticScan)
    && IsSha256(r.semanticInputSha256) && IsSha256(r.scientificPlanSha256)
    && 1 <= r.plannedReplicates <= 1_000_000 && 0.0 < r.alpha < 1.0
  }

  lemma AcceptedRetains(div: Division, ctx: Context, r: CalibrationResult) returns (e: nat, f: nat)
    requires ContextOk(ctx) && Accepted(div, ctx, r)
    requires r.failureStage != Some(NullBind) && r.failureStage != Some(ObservedStatisticScan)
    ensures RetainsRun(r) && forall i :: 0 <= i < |r.replicates| ==> OutcomeOk(r.replicates[i])
    ensures e == CountExceedances(r.replicates, r.observedSelection.value.decisionStatistic)
    ensures f == CountFailures(r.replicates) && e + f <= |r.replicates|
    ensures TerminalVerified(div, r, e, f)
  {
    var decision := r.observedSelection.value.decisionStatistic;
    RetentionHolds(ctx, r);
    CountsFit(r.replicates, decision);
    e, f := CountExceedances(r.replicates, decision), CountFailures(r.replicates);
  }

  lemma AcceptedScalars(div: Division, ctx: Context, r: CalibrationResult)
    requires ContextOk(ctx) && Accepted(div, ctx, r)
    ensures IsSha256(r.semanticInputSha256) && IsSha256(r.scientificPlanSha256)
    ensures 1 <= r.plannedReplicates <= 1_000_000 && 0.0 < r.alpha < 1.0
  {
  }

  lemma AcceptedEvaluated(div: Division, ctx: Context, r: CalibrationResult) returns (e: nat, f: nat)
    requires ContextOk(ctx) && Accepted(div, ctx, r)
    requires r.failureStage != Some(NullBind) && r.failureStage != Some(ObservedStatisticScan)
    ensures Evaluated(div, r, e, f)
  {
    e, f := AcceptedRetains(div, ctx, r);
    AcceptedScalars(div, ctx, r);
  }

  lemma TerminalStateOk(div: Division, r: CalibrationResult, e: nat, f: nat)
    requires RetainsRun(r) && TerminalVerified(div, r, e, f)
    requires r.failureStage != Some(NullBind) && r.failureStage != Some(ObservedStatisticScan)
    requires f == CountFailures(r.replicates) && e + f <= |r.replicates|
    ensures if r.status.Complete? then CompleteOk(div, r)
            else r.failureStage == Some(ReplicateExecution) && ReplicateFailureOk(div, r)
  {
    if r.status.Complete? {
      CompleteTerminalOk(div, r, e, f);
    } else {
      ExecutionTerminalOk(div, r, e, f);
    }
  }

  /** A record accepted without its loop run. */
  lemma EmptyAccepted(div: Division, ctx: Context, r: CalibrationResult)
    requires ContextOk(ctx) && Accepted(div, ctx, r)
    requires r.failureStage == Some(NullBind) || r.failureStage == Some(ObservedStatisticScan)
    ensures ResultOk(div, r)
  {
    if r.failureStage == Some(ObservedStatisticScan) {
      FailureVerifiedOk(ctx, r.observedResults, r.observedSelection);
    }
  }

  lemma EvaluatedResultOk(div: Division, r: CalibrationResult, e: nat, f: nat)
    requires div.Sound() && Evaluated(div, r, e, f)
    ensures ResultOk(div, r)
  {
    EvaluatedNumbers(div, r, e, f);
    TerminalStateOk(div, r, e, f);
  }

  /** Every accepted record satisfies all the invariants of the result constructor. */
  lemma AcceptedSatisfiesInvariants(div: Division, ctx: Context, r: CalibrationResult)
    requires ContextOk(ctx) && div.Sound() && Accepted(div, ctx, r)
    ensures ResultOk(div, r)
  {
    if r.failureStage == Some(NullBind) || r.failureStage == Some(ObservedStatisticScan) {
      EmptyAccepted(div, ctx, r);
    } else {
      var e, f := AcceptedEvaluated(div, ctx, r);
      EvaluatedResultOk(div, r, e, f);
    }
  }

  /** The length a record was run on, as its verifier recovers it. */
  function RecordLength(ctx: Context, r: CalibrationResult): int
    requires Canonical(ctx.plan.candidates) && r.observedResults != []
  {
    r.observedResults[0].supportN + MaxLag(ctx.plan.candidates)
  }

  /** What acceptance of an evaluated record says about its outcomes and its p. */
  lemma AcceptedOutcomes(div: Division, ctx: Context, r: CalibrationResult)
    requires PlanOk(ctx.plan) && Accepted(div, ctx, r)
    requires r.failureStage != Some(NullBind) && r.failureStage != Some(ObservedStatisticScan)
    ensures r.observedResults != [] && r.observedSelection.Some? && r.observedResults[0].supportN >= 1
    ensures OutcomesVerified(ctx, r, r.observedResults[0].supportN)
    ensures |r.replicates| == r.plannedReplicates == ctx.plan.replicates >= 1
    ensures r.status.Complete? ==>
      r.pValue == Some(div.of(1 + CountExceedances(r.replicates, r.observedSelection.value.decisionStatistic),
                              r.plannedReplicates + 1))
  {
  }

  /** One retained outcome of an exact record: the verifier pins its shift and the number of replicates. */
  lemma EnumeratedOutcome(ctx: Context, r: CalibrationResult, support: int, i: nat)
    requires PlanOk(ctx.plan) && ctx.plan.nullName == CircularShiftExactV1 && support >= 1
    requires OutcomesVerified(ctx, r, support) && i < |r.replicates|
    ensures r.replicates[i].transformToken.state == CircularShiftState(i + 1)
    ensures ctx.plan.replicates == support + MaxLag(ctx.plan.candidates) - 1
  {
    assert ReplicateVerified(ctx, r.semanticInputSha256, support, r.replicates[i], i);
  }

  /**
   * The retained outcomes of an accepted exact record enumerate the nonidentity shifts of that length, each once and
   * in order; a complete one derives its p over all of them.
   */
  lemma AcceptedEnumeration(div: Division, ctx: Context, r: CalibrationResult)
    requires PlanOk(ctx.plan) && Accepted(div, ctx, r) && ctx.plan.nullName == CircularShiftExactV1
    requires r.failureStage != Some(NullBind) && r.failureStage != Some(ObservedStatisticScan)
    ensures r.observedResults != [] && r.observedSelection.Some? && |r.replicates| == RecordLength(ctx, r) - 1
    ensures forall i :: 0 <= i < |r.replicates| ==>
              r.replicates[i].transformToken.state == CircularShiftState(i + 1)
    ensures r.status.Complete? ==>
              r.pValue == Some(div.of(1 + CountExceedances(r.replicates, r.observedSelection.value.decisionStatistic),
                                      RecordLength(ctx, r)))
  {
    AcceptedOutcomes(div, ctx, r);
    var support := r.observedResults[0].supportN;
    forall i | 0 <= i < |r.replicates|
      ensures r.replicates[i].transformToken.state == CircularShiftState(i + 1)
    {
      EnumeratedOutcome(ctx, r, support, i);
    }
    EnumeratedOutcome(ctx, r, support, 0);
  }
}
