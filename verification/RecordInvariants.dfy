/** What the constructors of the records guarantee about a whole record, down to its last entry. */
module RecordInvariants {
  import opened Wrappers
  import opened Contracts

  // ---------------------------------------------------------------- the numbers follow from the evidence

  /** The same scalars, observed scan, outcomes and diagnostics. */
  predicate SameContent(a: CalibrationResult, b: CalibrationResult) {
    && a.semanticInputSha256 == b.semanticInputSha256 && a.scientificPlanSha256 == b.scientificPlanSha256
    && a.plannedReplicates == b.plannedReplicates && a.alpha == b.alpha
    && a.observedResults == b.observedResults && a.observedSelection == b.observedSelection
    && a.replicates == b.replicates && a.diagnostics == b.diagnostics
  }

  predicate SomeUnevaluable(results: seq<StatisticResult>) {
    exists i :: 0 <= i < |results| && results[i].validity.AnalyticFailure?
  }

  predicate SomeFails(outcomes: seq<ReplicateOutcome>) {
    exists i :: 0 <= i < |outcomes| && outcomes[i].status.ReplicateFailed?
  }

  /** The four terminal states, told apart by the evidence alone. */
  lemma StateFollows(div: Division, r: CalibrationResult)
    requires ResultOk(div, r)
    ensures r.failureStage == Some(NullBind) <==> r.observedResults == []
    ensures r.failureStage == Some(ObservedStatisticScan) <==> SomeUnevaluable(r.observedResults)
    ensures r.replicates == [] <==> r.failureStage == Some(NullBind) || r.failureStage == Some(ObservedStatisticScan)
    ensures r.failureStage == Some(ReplicateExecution) <==> SomeFails(r.replicates)
    ensures r.status.Complete? <==> r.failureStage.None?
  {
    hide OutcomeOk, SelectionOk, StatisticOk, Canonical, CandidatesAgree, IsMaximum, IsSha256, ExactBIds;
    hide CountExceedances, CountFailures;
    if r.failureStage == Some(ReplicateExecution) { SomeFailed(r.replicates); }
  }

  lemma {:induction false} SomeFailed(outcomes: seq<ReplicateOutcome>)
    requires CountFailures(outcomes) >= 1
    ensures SomeFails(outcomes)
  {
    var last := |outcomes| - 1;
    if !outcomes[last].status.ReplicateFailed? {
      SomeFailed(outcomes[..last]);
      var i :| 0 <= i < last && outcomes[..last][i].status.ReplicateFailed?;
      assert outcomes[i].status.ReplicateFailed?;
    }
  }

  /** Records that can be constructed are equal as soon as their evidence is: every number in them follows from it. */
  lemma NumbersFollow(div: Division, a: CalibrationResult, b: CalibrationResult)
    requires ResultOk(div, a) && ResultOk(div, b) && SameContent(a, b)
    ensures a == b
  {
    StateFollows(div, a);
    StateFollows(div, b);
    hide ResultOk, SomeUnevaluable, SomeFails;
    TerminalsAgree(div, a, b);
  }

  lemma TerminalsAgree(div: Division, a: CalibrationResult, b: CalibrationResult)
    requires ResultOk(div, a) && ResultOk(div, b) && SameContent(a, b)
    requires a.failureStage == b.failureStage && a.status == b.status
    ensures a == b
  {
    hide CompleteVectorOk, FailureVectorOk, ExactBIds, TokensOwned, CandidatesAgree, OutcomeOk, VectorOk, SelectionOk;
    hide CountExceedances, CountFailures, IsSha256;
  }

  // ---------------------------------------------------------------- every retained entry

  /** One entry of a vector: a positive candidate of positive support, estimated exactly when it is valid. */
  predicate EntryHolds(r: StatisticResult) {
    && r.candidateId > 0 && r.supportN > 0 && r.backendIdentity != "" && r.preprocessingIdentity != ""
    && (r.validity.Valid? <==> r.estimate.Some?) && (r.selectionScore.Some? ==> r.estimate.Some?)
  }

  /** A scan: candidates rise, and it is scored and selected throughout or unscored with a failure. */
  predicate ScanHolds(results: seq<StatisticResult>, selection: Option<SelectionResult>) {
    && results != [] && (forall i :: 0 <= i < |results| ==> EntryHolds(results[i]))
    && (forall i, j :: 0 <= i < j < |results| ==> results[i].candidateId < results[j].candidateId)
    && if selection.Some?
       then (forall i :: 0 <= i < |results| ==> results[i].selectionScore.Some?)
            && SelectionHolds(results, selection.value)
       else (forall i :: 0 <= i < |results| ==> results[i].selectionScore.None?) && SomeUnevaluable(results)
  }

  /** The decision is the greatest score, and the label is the first of the rising ties, all of them candidates. */
  predicate SelectionHolds(results: seq<StatisticResult>, s: SelectionResult) {
    && 0 <= s.selectedIndex < |results| && results[s.selectedIndex].candidateId == s.selectedCandidate
    && s.tiedCandidates != [] && s.tiedCandidates[0] == s.selectedCandidate
    && (forall i, j :: 0 <= i < j < |s.tiedCandidates| ==> s.tiedCandidates[i] < s.tiedCandidates[j])
    && (forall c :: c in s.tiedCandidates ==> exists i :: 0 <= i < |results| && results[i].candidateId == c)
    && (exists i :: 0 <= i < |results| && results[i].selectionScore == Some(s.decisionStatistic))
    && forall i :: 0 <= i < |results| && results[i].selectionScore.Some? ==>
         results[i].selectionScore.value <= s.decisionStatistic
  }

  lemma CompleteScanHolds(results: seq<StatisticResult>, selection: Option<SelectionResult>)
    requires CompleteVectorOk(results, selection)
    ensures selection.Some? && ScanHolds(results, selection)
  {
    var s := selection.value;
    assert CandidateIds(results)[0] == results[0].candidateId;
    var at :| 0 <= at < |results| && ScoresOf(results)[at] == s.decisionStatistic;
    forall i | 0 <= i < |results| ensures results[i].selectionScore.Some?
      && results[i].selectionScore.value <= s.decisionStatistic
    {
      assert ScoresOf(results)[i] <= s.decisionStatistic;
    }
    forall i, j | 0 <= i < j < |results| ensures results[i].candidateId < results[j].candidateId {
      assert CandidateIds(results)[i] < CandidateIds(results)[j];
    }
    forall c | c in s.tiedCandidates ensures exists i :: 0 <= i < |results| && results[i].candidateId == c {
      var i :| 0 <= i < |results| && CandidateIds(results)[i] == c;
      assert results[i].candidateId == c;
    }
  }

  lemma FailureScanHolds(results: seq<StatisticResult>)
    requires FailureVectorOk(results)
    ensures ScanHolds(results, None)
  {
    forall i, j | 0 <= i < j < |results| ensures results[i].candidateId < results[j].candidateId {
      assert CandidateIds(results)[i] < CandidateIds(results)[j];
    }
    forall i | 0 <= i < |results| ensures EntryHolds(results[i]) { assert CandidateIds(results)[i] > 0; }
  }

  /** A token: four digests, a state of its null's kind, and the identity flag of that state. */
  predicate TokenStands(t: Token) {
    && IsSha256(t.nullParameterSha256) && IsSha256(t.boundNullOwnerSha256)
    && match t.state
       case CircularShiftState(shift) =>
         t.nullName != BlockShuffleV2 && shift >= 0 && (t.isIdentity <==> shift == 0)
       case BlockShuffleState(order) =>
         && t.nullName == BlockShuffleV2 && |order| >= 2
         && (forall i :: 0 <= i < |order| ==> 0 <= order[i] < |order|)
         && (forall i, j :: 0 <= i < j < |order| ==> order[i] != order[j])
         && (t.isIdentity <==> forall i :: 0 <= i < |order| ==> order[i] == i)
  }

  lemma TokenOkStands(t: Token)
    requires TokenOk(t)
    ensures TokenStands(t)
  {
  }

  /** The outcome at position id of a record: its number, its token, its scan, and how the two statuses differ. */
  predicate OutcomeStands(r: CalibrationResult, o: ReplicateOutcome, id: nat) {
    && o.replicateId == id && IsSha256(o.seedDigestSha256) && TokenStands(o.transformToken)
    && o.transformToken.semanticInputSha256 == r.semanticInputSha256
    && o.transformToken.scientificPlanSha256 == r.scientificPlanSha256
    && ScanHolds(o.statisticResults, o.selection)
    && (o.status.ReplicateComplete? <==> o.selection.Some?)
    && o.failureStage == (if o.status.ReplicateComplete? then None else Some(StatisticScan))
    && CandidateIds(o.statisticResults) == CandidateIds(r.observedResults)
  }

  /** Two outcomes belong to one bound null. */
  predicate SameNull(x: Token, y: Token) {
    && x.nullName == y.nullName && x.nullParameterSha256 == y.nullParameterSha256
    && x.boundNullOwnerSha256 == y.boundNullOwnerSha256
  }

  lemma OutcomeOkStands(r: CalibrationResult, i: nat)
    requires RetainsRun(r) && i < |r.replicates| && OutcomeOk(r.replicates[i])
    ensures OutcomeStands(r, r.replicates[i], i)
    ensures SameNull(r.replicates[i].transformToken, r.replicates[0].transformToken)
  {
    hide CompleteVectorOk, FailureVectorOk, ScanHolds, TokenStands, IsSha256, StateOk, IsIdentityState;
    var o := r.replicates[i];
    TokenOkStands(o.transformToken);
    if o.status.ReplicateComplete? {
      CompleteScanHolds(o.statisticResults, o.selection);
    } else {
      FailureScanHolds(o.statisticResults);
    }
  }

  /** The scalars every record carries, and its observed scan. */
  predicate ScalarsStand(r: CalibrationResult) {
    && IsSha256(r.semanticInputSha256) && IsSha256(r.scientificPlanSha256)
    && 1 <= r.plannedReplicates <= 1_000_000 && 0.0 < r.alpha < 1.0
    && (r.observedResults == [] || ScanHolds(r.observedResults, r.observedSelection))
  }

  lemma ResultScalars(div: Division, r: CalibrationResult)
    requires ResultOk(div, r)
    ensures ScalarsStand(r)
  {
    hide ScanHolds, OutcomeOk, IsSha256, VectorOk, AllScored, SelectionOk;
    if r.observedSelection.Some? {
      CompleteScanHolds(r.observedResults, r.observedSelection);
    } else if r.observedResults != [] {
      FailureScanHolds(r.observedResults);
    }
  }

  /** Whatever a constructed record retains, down to the last entry of the last outcome, has these shapes. */
  lemma RecordStands(div: Division, r: CalibrationResult)
    requires ResultOk(div, r)
    ensures ScalarsStand(r)
    ensures r.replicates != [] ==> |r.replicates| == r.plannedReplicates
    ensures forall i :: 0 <= i < |r.replicates| ==>
      OutcomeStands(r, r.replicates[i], i)
      && SameNull(r.replicates[i].transformToken, r.replicates[0].transformToken)
  {
    hide OutcomeOk, OutcomeStands, ScalarsStand, CompleteVectorOk, FailureVectorOk, TokensOwned, CandidatesAgree;
    ResultScalars(div, r);
    forall i | 0 <= i < |r.replicates|
      ensures OutcomeStands(r, r.replicates[i], i)
      ensures SameNull(r.replicates[i].transformToken, r.replicates[0].transformToken)
    {
      OutcomeOkStands(r, i);
    }
  }
}
