/** The result verifier: vectors, replicates, tokens and the terminal state, re-derived from the record alone. */
module Verifier {
  import opened Wrappers
  import opened BlockShuffle
  import opened Contracts
  import opened Selection
  import opened Plans
  import opened NullModels
  import opened Execution

  /** What the sealed resolution tells the verifier; the series are not part of it. */
  datatype Context = Context(plan: Plan, digests: Digests, backendIdentity: string, preprocessingIdentity: string)

  function ContextOf(run: Run): Context {
    Context(run.plan, run.digests, run.adapter.backendIdentity, run.adapter.preprocessingIdentity)
  }

  // ---------------------------------------------------------------- result vectors

  /** The checks every entry passes: candidate, common support and implementation identity. */
  predicate EntryRead(ctx: Context, r: StatisticResult, candidate: int, support: int) {
    && r.candidateId == candidate && r.supportN >= 1 && r.supportN == support
    && r.backendIdentity == ctx.backendIdentity && r.preprocessingIdentity == ctx.preprocessingIdentity
  }

  predicate ScoredEntry(ctx: Context, r: StatisticResult) {
    && r.validity.Valid? && r.estimate.Some?
    && r.selectionScore == Some(Score(ctx.plan.rule, r.estimate.value))
  }

  predicate RawFailureEntry(r: StatisticResult) {
    r.selectionScore.None? && (r.estimate.None? <==> r.validity.AnalyticFailure?)
  }

  predicate VectorRead(ctx: Context, results: seq<StatisticResult>) {
    && |results| == |ctx.plan.candidates| > 0
    && forall i :: 0 <= i < |results| ==>
         EntryRead(ctx, results[i], ctx.plan.candidates[i], results[0].supportN)
  }

  lemma ScoredAreEstimated(ctx: Context, results: seq<StatisticResult>)
    requires forall i :: 0 <= i < |results| ==> ScoredEntry(ctx, results[i])
    ensures AllEstimated(results) && AllScored(results) && ScoresOf(results) == Scores(results, ctx.plan.rule)
  {
    assert forall i :: 0 <= i < |results| ==> ScoredEntry(ctx, results[i]);
  }

  /** A complete vector: read, scored by the plan's rule, and selected by re-selection. */
  predicate CompleteVerified(ctx: Context, results: seq<StatisticResult>, selection: Option<SelectionResult>)
    requires PlanOk(ctx.plan)
  {
    && VectorRead(ctx, results) && (forall i :: 0 <= i < |results| ==> ScoredEntry(ctx, results[i]))
    && AllScored(results)
    && selection == Some(SelectionOf(ctx.plan.candidates, ScoresOf(results), ctx.plan.tieTolerance))
  }

  /** A failure vector: read, unscored, unselected, with at least one analytic failure. */
  predicate FailureVerified(ctx: Context, results: seq<StatisticResult>, selection: Option<SelectionResult>) {
    && VectorRead(ctx, results) && (forall i :: 0 <= i < |results| ==> RawFailureEntry(results[i]))
    && HasFailure(results) && selection.None?
  }

  /** The support of an accepted complete vector; None stands for the integrity error. */
  method VerifyCompleteVector(ctx: Context, results: seq<StatisticResult>, selection: Option<SelectionResult>)
    returns (support: Option<int>)
    requires PlanOk(ctx.plan)
    ensures support.Some? <==> CompleteVerified(ctx, results, selection)
    ensures support.Some? ==> results != [] && support.value == results[0].supportN
  {
    if |results| != |ctx.plan.candidates| { return None; }
    var scores: seq<real> := [];
    var failureCount := 0;
    for i := 0 to |results|
      invariant |scores| + failureCount == i && failureCount >= 0
      invariant forall k :: 0 <= k < i ==> EntryRead(ctx, results[k], ctx.plan.candidates[k], results[0].supportN)
      invariant failureCount > 0 ==> exists k :: 0 <= k < i && !ScoredEntry(ctx, results[k])
      invariant failureCount == 0 ==>
        forall k :: 0 <= k < i ==> ScoredEntry(ctx, results[k]) && Some(scores[k]) == results[k].selectionScore
    {
      var r := results[i];
      if !EntryRead(ctx, r, ctx.plan.candidates[i], results[0].supportN) { return None; }
      if r.validity.AnalyticFailure? {
        failureCount := failureCount + 1;
        assert !ScoredEntry(ctx, results[i]);
        if r.estimate.Some? || r.selectionScore.Some? { return None; }
      } else {
        if r.estimate.None? || r.selectionScore != Some(Score(ctx.plan.rule, r.estimate.value)) {
          assert !ScoredEntry(ctx, results[i]);
          return None;
        }
        scores := scores + [Score(ctx.plan.rule, r.estimate.value)];
      }
    }
    if failureCount > 0 || selection.None? { return None; }
    ScoredAreEstimated(ctx, results);
    assert scores == ScoresOf(results);
    var decision := VerifySelection(selection.value, ctx.plan.candidates, ctx.plan.tieTolerance, scores);
    if decision.None? { return None; }
    support := Some(results[0].supportN);
  }

  method VerifyFailureVector(ctx: Context, results: seq<StatisticResult>, selection: Option<SelectionResult>)
    returns (support: Option<int>)
    requires PlanOk(ctx.plan)
    ensures support.Some? <==> FailureVerified(ctx, results, selection)
    ensures support.Some? ==> results != [] && support.value == results[0].supportN
  {
    if |results| != |ctx.plan.candidates| { return None; }
    var failureCount := 0;
    for i := 0 to |results|
      invariant 0 <= failureCount <= i
      invariant forall k :: 0 <= k < i ==> EntryRead(ctx, results[k], ctx.plan.candidates[k], results[0].supportN)
      invariant forall k :: 0 <= k < i ==> RawFailureEntry(results[k])
      invariant failureCount > 0 <==> exists k :: 0 <= k < i && results[k].validity.AnalyticFailure?
    {
      var r := results[i];
      if !EntryRead(ctx, r, ctx.plan.candidates[i], results[0].supportN) { return None; }
      if r.validity.AnalyticFailure? {
        failureCount := failureCount + 1;
        if r.estimate.Some? || r.selectionScore.Some? { assert !RawFailureEntry(results[i]); return None; }
      } else if r.estimate.None? || r.selectionScore.Some? {
        assert !RawFailureEntry(results[i]);
        return None;
      }
    }
    if failureCount < 1 || selection.Some? { return None; }
    support := Some(results[0].supportN);
  }

  // ---------------------------------------------------------------- tokens

  /** The token a run of this plan and length would own for the state. */
  function OwnedToken(ctx: Context, semantic: string, n: nat, state: NullState): Token {
    var parameter := ctx.digests.parameter(ctx.plan.nullName, ctx.plan.nullParameter);
    var planSha := ctx.digests.plan(ctx.plan);
    Token(ctx.plan.nullName, parameter, semantic, planSha, ctx.digests.owner(semantic, planSha, parameter, n),
          IsIdentityState(state), state)
  }

  /** An accepted token is owned by the plan and its state lies in the bound state universe. */
  predicate TokenVerified(ctx: Context, token: Token, semantic: string, n: nat, replicate: int)
    requires PlanOk(ctx.plan)
  {
    && BindNull(ctx.plan, n).Bound? && InUniverse(ctx.plan, n, token.state)
    && token == OwnedToken(ctx, semantic, n, token.state)
    && (ctx.plan.nullName == CircularShiftExactV1 ==>
          ctx.plan.replicates == n - 1 && token.state == CircularShiftState(replicate + 1))
  }

  /** The label test of the block token verifier: as many labels as blocks, and the same label set. */
  predicate LabelsAreBlocks(order: seq<int>, count: nat) {
    |order| == count && CoversRange(order) && forall i :: 0 <= i < |order| ==> 0 <= order[i] < |order|
  }

  /** The three token verifiers, dispatched on the plan's null. */
  method VerifyToken(ctx: Context, token: Token, semantic: string, n: nat, replicate: int) returns (ok: bool)
    requires PlanOk(ctx.plan)
    ensures ok <==> TokenVerified(ctx, token, semantic, n, replicate)
  {
    var m := ctx.plan.nullParameter;
    if ctx.plan.nullName == CircularShiftV2 {
      if 2 * m > n { return false; }
    } else if ctx.plan.nullName == CircularShiftExactV1 {
      if n < 2 { return false; }
    } else {
      if n % m != 0 || !(2 <= n / m <= MAX_BLOCK_COUNT) { return false; }
    }
    var parameter, planSha := ctx.digests.parameter(ctx.plan.nullName, m), ctx.digests.plan(ctx.plan);
    if token.nullName != ctx.plan.nullName || token.nullParameterSha256 != parameter
       || token.semanticInputSha256 != semantic || token.scientificPlanSha256 != planSha
       || token.boundNullOwnerSha256 != ctx.digests.owner(semantic, planSha, parameter, n) { return false; }
    match token.state
    case CircularShiftState(shift) =>
      if ctx.plan.nullName == BlockShuffleV2 || token.isIdentity != (shift == 0) { return false; }
      if ctx.plan.nullName == CircularShiftV2 {
        ok := shift == 0 || m <= shift <= n - m;
      } else {
        ok := 0 <= shift < n && ctx.plan.replicates == n - 1 && shift == replicate + 1;
      }
    case BlockShuffleState(order) =>
      OrderTestsAgree(order);
      ok := ctx.plan.nullName == BlockShuffleV2 && LabelsAreBlocks(order, n / m)
            && token.isIdentity == (order == Ascending(|order|));
  }

  // ---------------------------------------------------------------- replicates

  /** One retained outcome, checked against its position in the record. */
  predicate ReplicateVerified(ctx: Context, semantic: string, support: int, outcome: ReplicateOutcome, id: nat)
    requires PlanOk(ctx.plan) && support >= 1
  {
    && outcome.replicateId == id
    && outcome.seedDigestSha256 == ctx.digests.seed(ctx.digests.plan(ctx.plan), id, ctx.plan.replicates)
    && (if outcome.status.ReplicateFailed?
        then FailureVerified(ctx, outcome.statisticResults, outcome.selection)
             && outcome.failureStage == Some(StatisticScan)
        else CompleteVerified(ctx, outcome.statisticResults, outcome.selection) && outcome.failureStage.None?)
    && outcome.statisticResults[0].supportN == support
    && TokenVerified(ctx, outcome.transformToken, semantic, support + MaxLag(ctx.plan.candidates), id)
  }

  /** The decision of an accepted complete outcome, Some(None) for a failed one, None for the integrity error. */
  method VerifyReplicate(ctx: Context, semantic: string, support: int, outcome: ReplicateOutcome, id: nat)
    returns (r: Option<Option<real>>)
    requires PlanOk(ctx.plan) && support >= 1
    ensures r.Some? <==> ReplicateVerified(ctx, semantic, support, outcome, id)
    ensures r.Some? ==> (r.value.None? <==> outcome.status.ReplicateFailed?)
    ensures r.Some? && r.value.Some? ==>
      outcome.selection.Some? && r.value.value == outcome.selection.value.decisionStatistic
  {
    if outcome.replicateId != id
       || outcome.seedDigestSha256 != ctx.digests.seed(ctx.digests.plan(ctx.plan), id, ctx.plan.replicates) {
      return None;
    }
    var failed := outcome.status.ReplicateFailed?;
    var evidence: Option<int>;
    if failed {
      evidence := VerifyFailureVector(ctx, outcome.statisticResults, outcome.selection);
    } else {
      evidence := VerifyCompleteVector(ctx, outcome.statisticResults, outcome.selection);
    }
    if evidence != Some(support) { return None; }
    var owned := VerifyToken(
      ctx, outcome.transformToken, semantic, support + MaxLag(ctx.plan.candidates), id);
    if !owned { return None; }
    if failed {
      if outcome.failureStage != Some(StatisticScan) { return None; }
      r := Some(None);
    } else {
      if outcome.failureStage.Some? { return None; }
      r := Some(Some(outcome.selection.value.decisionStatistic));
    }
  }

  // ---------------------------------------------------------------- terminal states

  /** The arithmetic of a complete result, from the counts the verifier derives itself. */
  predicate CompleteTerminal(div: Division, r: CalibrationResult, e: nat, f: nat) {
    var p := div.of(1 + e, r.plannedReplicates + 1);
    && r.failureStage.None? && f == 0 && r.failureCount == 0 && |r.replicates| == r.plannedReplicates
    && r.exceedanceCount == e && r.pValue == Some(p)
    && r.exceedanceBoundLow.None? && r.exceedanceBoundHigh.None? && r.rejectNull == Some(p <= r.alpha)
  }

  predicate ExecutionTerminal(div: Division, r: CalibrationResult, e: nat, f: nat) {
    && r.status.NotEvaluable? && f >= 1 && |r.replicates| == r.plannedReplicates
    && r.exceedanceCount == e && r.failureCount == f && r.pValue.None? && r.rejectNull.None?
    && r.exceedanceBoundLow == Some(div.of(1 + e, r.plannedReplicates + 1))
    && r.exceedanceBoundHigh == Some(div.of(1 + e + f, r.plannedReplicates + 1))
  }

  predicate EmptyTerminal(r: CalibrationResult) {
    && r.status.NotEvaluable? && r.observedSelection.None? && r.replicates == []
    && r.exceedanceCount == 0 && r.failureCount == 0 && NoDecision(r)
  }

  /** The four-way dispatch: status first, then the failure stage. */
  predicate TerminalVerified(div: Division, r: CalibrationResult, e: nat, f: nat) {
    if r.status.Complete? then CompleteTerminal(div, r, e, f)
    else match r.failureStage
      case Some(ReplicateExecution) => ExecutionTerminal(div, r, e, f)
      case Some(NullBind) => EmptyTerminal(r) && r.observedResults == []
      case Some(ObservedStatisticScan) => EmptyTerminal(r)
      case None => false
  }

  /** The scalars of the record repeat the sealed plan. */
  predicate PrefixVerified(ctx: Context, r: CalibrationResult) {
    && IsSha256(r.semanticInputSha256) && IsSha256(r.scientificPlanSha256)
    && r.plannedReplicates == ctx.plan.replicates && r.alpha == ctx.plan.alpha
    && r.scientificPlanSha256 == ctx.digests.plan(ctx.plan)
  }

  /** Exactly B outcomes, each verified at its own position. */
  predicate OutcomesVerified(ctx: Context, r: CalibrationResult, support: int)
    requires PlanOk(ctx.plan) && support >= 1
  {
    && |r.replicates| == r.plannedReplicates
    && forall i :: 0 <= i < |r.replicates| ==>
         ReplicateVerified(ctx, r.semanticInputSha256, support, r.replicates[i], i)
  }

  /** What acceptance by the verifier means. */
  predicate Accepted(div: Division, ctx: Context, r: CalibrationResult)
    requires PlanOk(ctx.plan)
  {
    && PrefixVerified(ctx, r)
    && if r.failureStage == Some(NullBind) then TerminalVerified(div, r, 0, 0)
       else if r.failureStage == Some(ObservedStatisticScan)
       then FailureVerified(ctx, r.observedResults, r.observedSelection) && TerminalVerified(div, r, 0, 0)
       else
         && CompleteVerified(ctx, r.observedResults, r.observedSelection)
         && OutcomesVerified(ctx, r, r.observedResults[0].supportN)
         && var decision := r.observedSelection.value.decisionStatistic;
            TerminalVerified(div, r, CountExceedances(r.replicates, decision), CountFailures(r.replicates))
  }

  /** t says which retained outcomes verify at their own position. */
  ghost predicate IsTable(ctx: Context, r: CalibrationResult, support: int, t: seq<bool>)
    requires PlanOk(ctx.plan) && support >= 1
  {
    |t| == |r.replicates|
    && forall i {:trigger ReplicateVerified(ctx, r.semanticInputSha256, support, r.replicates[i], i)} ::
         0 <= i < |t| ==> t[i] == ReplicateVerified(ctx, r.semanticInputSha256, support, r.replicates[i], i)
  }

  lemma TableMeans(ctx: Context, r: CalibrationResult, support: int) returns (t: seq<bool>)
    requires PlanOk(ctx.plan) && support >= 1
    ensures IsTable(ctx, r, support, t)
    ensures OutcomesVerified(ctx, r, support)
       <==> |r.replicates| == r.plannedReplicates && forall i :: 0 <= i < |t| ==> t[i]
  {
    t := seq(|r.replicates|, i requires 0 <= i < |r.replicates| =>
      ReplicateVerified(ctx, r.semanticInputSha256, support, r.replicates[i], i));
    if OutcomesVerified(ctx, r, support) {
      forall i | 0 <= i < |t| ensures t[i] {
        assert ReplicateVerified(ctx, r.semanticInputSha256, support, r.replicates[i], i);
      }
    }
    if forall i :: 0 <= i < |t| ==> t[i] {
      forall i | 0 <= i < |t|
        ensures ReplicateVerified(ctx, r.semanticInputSha256, support, r.replicates[i], i)
      {
        assert t[i];
      }
    }
  }

  /** The check of one position, told against the table. */
  method VerifyAt(ctx: Context, r: CalibrationResult, support: int, id: nat, ghost t: seq<bool>)
    returns (verified: Option<Option<real>>)
    requires PlanOk(ctx.plan) && support >= 1 && IsTable(ctx, r, support, t) && id < |t|
    ensures verified.Some? == t[id]
    ensures verified.Some? ==> (verified.value.None? <==> r.replicates[id].status.ReplicateFailed?)
    ensures verified.Some? && verified.value.Some? ==>
      r.replicates[id].selection.Some? && verified.value == Some(r.replicates[id].selection.value.decisionStatistic)
  {
    verified := VerifyReplicate(ctx, r.semanticInputSha256, support, r.replicates[id], id);
  }

  /** The loop over the retained outcomes, with its running counts; None stands for the integrity error. */
  method VerifyOutcomes(ctx: Context, r: CalibrationResult, support: int, observed: real, ghost t: seq<bool>)
    returns (counts: Option<(nat, nat)>)
    requires PlanOk(ctx.plan) && support >= 1 && IsTable(ctx, r, support, t)
    ensures counts.Some? <==> |r.replicates| == r.plannedReplicates && forall i :: 0 <= i < |t| ==> t[i]
    ensures counts.Some? ==>
      counts.value == (CountExceedances(r.replicates, observed), CountFailures(r.replicates))
  {
    if |r.replicates| != r.plannedReplicates { return None; }
    var e, f := 0, 0;
    for id := 0 to |r.replicates|
      invariant forall i :: 0 <= i < id ==> t[i]
      invariant e == CountExceedances(r.replicates[..id], observed)
      invariant f == CountFailures(r.replicates[..id])
    {
      var verified := VerifyAt(ctx, r, support, id, t);
      if verified.None? { return None; }
      CountsStep(r.replicates, id, observed);
      if verified.value.None? {
        f := f + 1;
      } else if verified.value.value >= observed {
        e := e + 1;
      }
    }
    assert r.replicates[..|r.replicates|] == r.replicates;
    counts := Some((e, f));
  }

  method VerifyCalibrationResult(div: Division, ctx: Context, r: CalibrationResult) returns (ok: bool)
    requires PlanOk(ctx.plan)
    ensures ok <==> Accepted(div, ctx, r)
  {
    if !PrefixVerified(ctx, r) { return false; }
    var evidence: Option<int> := None;
    var e, f := 0, 0;
    if r.failureStage == Some(ObservedStatisticScan) {
      evidence := VerifyFailureVector(ctx, r.observedResults, r.observedSelection);
      if evidence.None? { return false; }
    } else if r.failureStage != Some(NullBind) {
      evidence := VerifyCompleteVector(ctx, r.observedResults, r.observedSelection);
      if evidence.None? { return false; }
    }
    if r.replicates != [] {
      // Outcomes beside a failed preparation are refused by the terminal check whatever they hold.
      if evidence.None? || r.failureStage == Some(ObservedStatisticScan) { return false; }
      ghost var t := TableMeans(ctx, r, evidence.value);
      var counts := VerifyOutcomes(ctx, r, evidence.value, r.observedSelection.value.decisionStatistic, t);
      if counts.None? { return false; }
      e, f := counts.value.0, counts.value.1;
    }
    ok := TerminalVerified(div, r, e, f);
  }
}
