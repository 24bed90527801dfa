/** The records of a calibration run and the conditions their constructors enforce. */
module Contracts {
  import opened Wrappers
  import opened BlockShuffle

  datatype SelectionRule = MaxUpper | MaxAbsolute
  datatype Validity = Valid | AnalyticFailure
  datatype RunStatus = Complete | NotEvaluable
  datatype RunFailureStage = NullBind | ObservedStatisticScan | ReplicateExecution
  datatype ReplicateStatus = ReplicateComplete | ReplicateFailed
  datatype ReplicateFailureStage = StatisticScan

  datatype StatisticResult = StatisticResult(
    candidateId: int,
    estimate: Option<real>,
    selectionScore: Option<real>,
    supportN: int,
    validity: Validity,
    diagnostics: seq<string>,
    backendIdentity: string,
    preprocessingIdentity: string)

  datatype SelectionResult = SelectionResult(
    selectedCandidate: int,
    selectedIndex: int,
    decisionStatistic: real,
    tiedCandidates: seq<int>)

  datatype NullState = CircularShiftState(shift: int) | BlockShuffleState(blockOrder: seq<int>)

  datatype NullName = CircularShiftV2 | CircularShiftExactV1 | BlockShuffleV2

  datatype Token = Token(
    nullName: NullName,
    nullParameterSha256: string,
    semanticInputSha256: string,
    scientificPlanSha256: string,
    boundNullOwnerSha256: string,
    isIdentity: bool,
    state: NullState)

  datatype ReplicateOutcome = ReplicateOutcome(
    replicateId: int,
    seedDigestSha256: string,
    status: ReplicateStatus,
    failureStage: Option<ReplicateFailureStage>,
    transformToken: Token,
    statisticResults: seq<StatisticResult>,
    selection: Option<SelectionResult>,
    diagnostics: seq<string>)

  datatype CalibrationResult = CalibrationResult(
    status: RunStatus,
    failureStage: Option<RunFailureStage>,
    semanticInputSha256: string,
    scientificPlanSha256: string,
    plannedReplicates: int,
    alpha: real,
    observedResults: seq<StatisticResult>,
    observedSelection: Option<SelectionResult>,
    replicates: seq<ReplicateOutcome>,
    exceedanceCount: int,
    failureCount: int,
    pValue: Option<real>,
    exceedanceBoundLow: Option<real>,
    exceedanceBoundHigh: Option<real>,
    rejectNull: Option<bool>,
    diagnostics: seq<string>)

  /** Division of counts, as the run computes it: monotone in the numerator, and a probability on its range. */
  datatype Division = Division(of: (int, int) -> real) {
    ghost predicate Sound() {
      && (forall a, b, n :: a <= b && n > 0 ==> of(a, n) <= of(b, n))
      && (forall a, n :: 0 < a <= n ==> 0.0 < of(a, n) <= 1.0)
    }
  }

  /** Exact rational division is one such division. */
  lemma ExactDivisionSound(d: Division)
    requires forall a, n :: n > 0 ==> d.of(a, n) == a as real / n as real
    ensures d.Sound()
  {
    forall a, b, n: int | a <= b && n > 0 ensures d.of(a, n) <= d.of(b, n) {
      assert a as real <= b as real;
    }
  }

  const MAX_PLANNED := 1_000_000

  predicate IsHexDigit(c: char) {
    '0' <= c <= '9' || 'a' <= c <= 'f'
  }

  predicate IsSha256(s: string) {
    |s| == 64 && forall i :: 0 <= i < |s| ==> IsHexDigit(s[i])
  }

  /** Strictly increasing positive candidates. */
  predicate Canonical(candidates: seq<int>) {
    && candidates != []
    && (forall i :: 0 <= i < |candidates| ==> candidates[i] > 0)
    && (forall i, j :: 0 <= i < j < |candidates| ==> candidates[i] < candidates[j])
  }

  function CandidateIds(results: seq<StatisticResult>): (ids: seq<int>)
    ensures |ids| == |results|
    ensures forall i :: 0 <= i < |ids| ==> ids[i] == results[i].candidateId
  {
    seq(|results|, i requires 0 <= i < |results| => results[i].candidateId)
  }

  predicate StatisticOk(r: StatisticResult) {
    && r.backendIdentity != "" && r.preprocessingIdentity != ""
    && r.candidateId > 0 && r.supportN >= 1
    && if r.validity.Valid? then r.estimate.Some? else r.estimate.None? && r.selectionScore.None?
  }

  predicate SelectionOk(s: SelectionResult) {
    && s.selectedCandidate > 0 && s.selectedIndex >= 0
    && Canonical(s.tiedCandidates) && s.selectedCandidate in s.tiedCandidates
  }

  predicate StateOk(s: NullState) {
    match s
    case CircularShiftState(shift) => shift >= 0
    case BlockShuffleState(order) => |order| >= 2 && IsOrder(order)
  }

  predicate IsIdentityState(s: NullState) {
    match s
    case CircularShiftState(shift) => shift == 0
    case BlockShuffleState(order) => order == Ascending(|order|)
  }

  predicate TokenOk(t: Token) {
    && IsSha256(t.nullParameterSha256) && IsSha256(t.semanticInputSha256)
    && IsSha256(t.scientificPlanSha256) && IsSha256(t.boundNullOwnerSha256)
    && t.state.CircularShiftState? == (t.nullName != BlockShuffleV2)
    && StateOk(t.state)
    && t.isIdentity == IsIdentityState(t.state)
  }

  predicate VectorOk(results: seq<StatisticResult>, allowEmpty: bool) {
    && (forall i :: 0 <= i < |results| ==> StatisticOk(results[i]))
    && if results == [] then allowEmpty else Canonical(CandidateIds(results))
  }

  predicate IsMaximum(m: real, scores: seq<real>) {
    m in scores && forall i :: 0 <= i < |scores| ==> scores[i] <= m
  }

  predicate AllScored(results: seq<StatisticResult>) {
    forall i :: 0 <= i < |results| ==> results[i].validity.Valid? && results[i].selectionScore.Some?
  }

  function ScoresOf(results: seq<StatisticResult>): (scores: seq<real>)
    requires AllScored(results)
    ensures |scores| == |results|
    ensures forall i :: 0 <= i < |scores| ==> scores[i] == results[i].selectionScore.value
  {
    seq(|results|, i requires 0 <= i < |results| => results[i].selectionScore.value)
  }

  predicate CompleteVectorOk(results: seq<StatisticResult>, selection: Option<SelectionResult>) {
    && VectorOk(results, false) && AllScored(results)
    && selection.Some? && SelectionOk(selection.value)
    && var s := selection.value;
       && s.selectedIndex < |results|
       && results[s.selectedIndex].candidateId == s.selectedCandidate
       && (forall c :: c in s.tiedCandidates ==> c in CandidateIds(results))
       && s.selectedCandidate == s.tiedCandidates[0]
       && IsMaximum(s.decisionStatistic, ScoresOf(results))
  }

  predicate FailureVectorOk(results: seq<StatisticResult>) {
    && VectorOk(results, false)
    && (exists i :: 0 <= i < |results| && results[i].validity.AnalyticFailure?)
    && (forall i :: 0 <= i < |results| ==> results[i].selectionScore.None?)
  }

  predicate OutcomeOk(o: ReplicateOutcome) {
    && o.replicateId >= 0 && IsSha256(o.seedDigestSha256) && TokenOk(o.transformToken)
    && if o.status.ReplicateComplete?
       then o.failureStage.None? && CompleteVectorOk(o.statisticResults, o.selection)
       else o.failureStage == Some(StatisticScan) && o.selection.None? && FailureVectorOk(o.statisticResults)
  }

  predicate Exceeds(o: ReplicateOutcome, observed: real) {
    o.status.ReplicateComplete? && o.selection.Some? && o.selection.value.decisionStatistic >= observed
  }

  /** Complete outcomes whose decision reaches the observed one. */
  function CountExceedances(outcomes: seq<ReplicateOutcome>, observed: real): (n: nat)
    ensures n <= |outcomes|
  {
    if outcomes == [] then 0
    else
      var last := outcomes[|outcomes| - 1];
      CountExceedances(outcomes[..|outcomes| - 1], observed)
      + if Exceeds(last, observed) then 1 else 0
  }

  function CountFailures(outcomes: seq<ReplicateOutcome>): (n: nat)
    ensures n <= |outcomes|
  {
    if outcomes == [] then 0
    else CountFailures(outcomes[..|outcomes| - 1])
         + if outcomes[|outcomes| - 1].status.ReplicateFailed? then 1 else 0
  }

  predicate ProbabilityOk(p: Option<real>) {
    p.Some? ==> 0.0 <= p.value <= 1.0
  }

  predicate ExactBIds(replicates: seq<ReplicateOutcome>, planned: int) {
    |replicates| == planned && forall i :: 0 <= i < |replicates| ==> replicates[i].replicateId == i
  }

  predicate TokensOwned(replicates: seq<ReplicateOutcome>, semantic: string, plan: string) {
    && replicates != []
    && forall i :: 0 <= i < |replicates| ==>
         var t, t0 := replicates[i].transformToken, replicates[0].transformToken;
         && t.semanticInputSha256 == semantic && t.scientificPlanSha256 == plan
         && t.nullName == t0.nullName && t.nullParameterSha256 == t0.nullParameterSha256
         && t.boundNullOwnerSha256 == t0.boundNullOwnerSha256
  }

  predicate CandidatesAgree(expected: seq<StatisticResult>, replicates: seq<ReplicateOutcome>) {
    forall i :: 0 <= i < |replicates| ==> CandidateIds(replicates[i].statisticResults) == CandidateIds(expected)
  }

  predicate NoDecision(r: CalibrationResult) {
    r.pValue.None? && r.exceedanceBoundLow.None? && r.exceedanceBoundHigh.None? && r.rejectNull.None?
  }

  /** Both evaluated terminal states retain the observed scan and exactly B outcomes of one run. */
  predicate RetainsRun(r: CalibrationResult) {
    && CompleteVectorOk(r.observedResults, r.observedSelection)
    && ExactBIds(r.replicates, r.plannedReplicates)
    && TokensOwned(r.replicates, r.semanticInputSha256, r.scientificPlanSha256)
    && CandidatesAgree(r.observedResults, r.replicates)
    && r.exceedanceCount == CountExceedances(r.replicates, r.observedSelection.value.decisionStatistic)
  }

  predicate CompleteOk(div: Division, r: CalibrationResult) {
    && r.failureStage.None? && RetainsRun(r)
    && (forall i :: 0 <= i < |r.replicates| ==> r.replicates[i].status.ReplicateComplete?)
    && r.failureCount == 0
    && r.pValue == Some(div.of(1 + r.exceedanceCount, r.plannedReplicates + 1))
    && r.exceedanceBoundLow.None? && r.exceedanceBoundHigh.None?
    && r.rejectNull == Some(div.of(1 + r.exceedanceCount, r.plannedReplicates + 1) <= r.alpha)
  }

  predicate NullBindOk(r: CalibrationResult) {
    && r.observedResults == [] && r.observedSelection.None? && r.replicates == []
    && r.exceedanceCount == 0 && r.failureCount == 0 && NoDecision(r)
  }

  predicate ObservedFailureOk(r: CalibrationResult) {
    && FailureVectorOk(r.observedResults) && r.observedSelection.None? && r.replicates == []
    && r.exceedanceCount == 0 && r.failureCount == 0 && NoDecision(r)
  }

  predicate ReplicateFailureOk(div: Division, r: CalibrationResult) {
    && RetainsRun(r)
    && r.failureCount == CountFailures(r.replicates) >= 1
    && r.exceedanceCount + r.failureCount <= r.plannedReplicates
    && r.pValue.None? && r.rejectNull.None?
    && r.exceedanceBoundLow == Some(div.of(1 + r.exceedanceCount, r.plannedReplicates + 1))
    && r.exceedanceBoundHigh == Some(div.of(1 + r.exceedanceCount + r.failureCount, r.plannedReplicates + 1))
  }

  /** The invariants the CalibrationResult constructor enforces. */
  predicate ResultOk(div: Division, r: CalibrationResult) {
    && IsSha256(r.semanticInputSha256) && IsSha256(r.scientificPlanSha256)
    && 1 <= r.plannedReplicates <= MAX_PLANNED && 0.0 < r.alpha < 1.0
    && VectorOk(r.observedResults, true)
    && (r.observedSelection.Some? ==> SelectionOk(r.observedSelection.value))
    && (forall i :: 0 <= i < |r.replicates| ==> OutcomeOk(r.replicates[i]))
    && 0 <= r.exceedanceCount <= r.plannedReplicates && 0 <= r.failureCount <= r.plannedReplicates
    && ProbabilityOk(r.pValue) && ProbabilityOk(r.exceedanceBoundLow) && ProbabilityOk(r.exceedanceBoundHigh)
    && if r.status.Complete? then CompleteOk(div, r)
       else match r.failureStage
         case None => false
         case Some(NullBind) => NullBindOk(r)
         case Some(ObservedStatisticScan) => ObservedFailureOk(r)
         case Some(ReplicateExecution) => ReplicateFailureOk(div, r)
  }

  lemma {:induction false} CountsFit(outcomes: seq<ReplicateOutcome>, observed: real)
    ensures CountExceedances(outcomes, observed) + CountFailures(outcomes) <= |outcomes|
  {
    if outcomes != [] { CountsFit(outcomes[..|outcomes| - 1], observed); }
  }

  lemma CountsStep(outcomes: seq<ReplicateOutcome>, i: nat, observed: real)
    requires i < |outcomes|
    ensures CountExceedances(outcomes[..i + 1], observed)
         == CountExceedances(outcomes[..i], observed) + if Exceeds(outcomes[i], observed) then 1 else 0
    ensures CountFailures(outcomes[..i + 1])
         == CountFailures(outcomes[..i]) + if outcomes[i].status.ReplicateFailed? then 1 else 0
  {
    assert outcomes[..i + 1][..i] == outcomes[..i];
  }
}
