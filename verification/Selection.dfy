/** Family selection: the v2 rule, the historical v1 rule, and the two independent re-selections. */
module Selection {
  import opened Wrappers
  import opened Contracts

  function Abs(x: real): real { if x < 0.0 then -x else x }

  function Score(rule: SelectionRule, estimate: real): real {
    if rule.MaxUpper? then estimate else Abs(estimate)
  }

  /** The upper rule keeps the estimate; the absolute rule keeps its size and ignores its sign. */
  lemma ScoreMeaning(x: real)
    ensures Score(MaxUpper, x) == x && Score(MaxAbsolute, x) == Score(MaxAbsolute, -x)
    ensures x >= 0.0 ==> Score(MaxAbsolute, x) == x
  {
  }

  // ---------------------------------------------------------------- specification

  function MaxOf(scores: seq<real>): real
    requires scores != []
  {
    if |scores| == 1 then scores[0]
    else
      var m, last := MaxOf(scores[..|scores| - 1]), scores[|scores| - 1];
      if m < last then last else m
  }

  lemma {:induction false} MaxOfIs(scores: seq<real>)
    requires scores != []
    ensures IsMaximum(MaxOf(scores), scores)
  {
    if |scores| > 1 {
      var init := scores[..|scores| - 1];
      MaxOfIs(init);
      assert forall i :: 0 <= i < |init| ==> scores[i] == init[i];
      var i :| 0 <= i < |init| && init[i] == MaxOf(init);
      assert scores[i] == MaxOf(init);
    }
  }

  /** The indices, in order, whose score is within the tolerance of the decision. */
  function TiedIndices(scores: seq<real>, decision: real, tolerance: real): seq<nat> {
    if scores == [] then []
    else
      var n := |scores| - 1;
      TiedIndices(scores[..n], decision, tolerance) + if decision - scores[n] <= tolerance then [n] else []
  }

  lemma {:induction false} TiedIndicesAre(scores: seq<real>, decision: real, tolerance: real)
    ensures var ties := TiedIndices(scores, decision, tolerance);
      && (forall k :: 0 <= k < |ties| ==> ties[k] < |scores| && decision - scores[ties[k]] <= tolerance)
      && (forall j, k :: 0 <= j < k < |ties| ==> ties[j] < ties[k])
      && (forall i: nat :: i < |scores| && decision - scores[i] <= tolerance ==> i in ties)
  {
    if scores != [] {
      var n := |scores| - 1;
      TiedIndicesAre(scores[..n], decision, tolerance);
      var before := TiedIndices(scores[..n], decision, tolerance);
      assert forall i: nat :: i < n ==> scores[i] == scores[..n][i];
      assert decision - scores[n] <= tolerance ==> TiedIndices(scores, decision, tolerance)[|before|] == n;
    }
  }

  /** The scores, candidates and tolerance a selection is defined for. */
  predicate CanSelect(candidates: seq<int>, scores: seq<real>, tolerance: real) {
    |candidates| == |scores| > 0 && tolerance >= 0.0
  }

  lemma MaxIsTied(candidates: seq<int>, scores: seq<real>, tolerance: real)
    requires CanSelect(candidates, scores, tolerance)
    ensures var ties := TiedIndices(scores, MaxOf(scores), tolerance);
      ties != [] && forall k :: 0 <= k < |ties| ==> ties[k] < |candidates|
  {
    MaxOfIs(scores);
    TiedIndicesAre(scores, MaxOf(scores), tolerance);
    var i: nat :| i < |scores| && scores[i] == MaxOf(scores);
    assert i in TiedIndices(scores, MaxOf(scores), tolerance);
  }

  function Pick(candidates: seq<int>, indices: seq<nat>): seq<int>
    requires forall k :: 0 <= k < |indices| ==> indices[k] < |candidates|
  {
    seq(|indices|, k requires 0 <= k < |indices| => candidates[indices[k]])
  }

  function SelectionOf(candidates: seq<int>, scores: seq<real>, tolerance: real): SelectionResult
    requires CanSelect(candidates, scores, tolerance)
  {
    MaxIsTied(candidates, scores, tolerance);
    var decision := MaxOf(scores);
    var ties := TiedIndices(scores, decision, tolerance);
    SelectionResult(candidates[ties[0]], ties[0], decision, Pick(candidates, ties))
  }

  predicate AllEstimated(results: seq<StatisticResult>) {
    forall i :: 0 <= i < |results| ==> results[i].validity.Valid? && results[i].estimate.Some?
  }

  /** The normalised scores of a fully evaluated vector. */
  function Scores(results: seq<StatisticResult>, rule: SelectionRule): (scores: seq<real>)
    requires AllEstimated(results)
    ensures |scores| == |results|
    ensures forall i :: 0 <= i < |scores| ==> scores[i] == Score(rule, results[i].estimate.value)
  {
    seq(|results|, i requires 0 <= i < |results| => Score(rule, results[i].estimate.value))
  }

  function WithScores(results: seq<StatisticResult>, scores: seq<real>): (scored: seq<StatisticResult>)
    requires |results| == |scores|
    ensures |scored| == |results|
    ensures forall i :: 0 <= i < |scored| ==> scored[i] == results[i].(selectionScore := Some(scores[i]))
  {
    seq(|results|, i requires 0 <= i < |results| => results[i].(selectionScore := Some(scores[i])))
  }

  /** One admissible entry of a raw vector: the expected candidate, evaluated and not yet scored. */
  predicate RawEntry(r: StatisticResult, candidate: int) {
    r.candidateId == candidate && r.validity.Valid? && r.estimate.Some? && r.selectionScore.None?
  }

  predicate RawVector(results: seq<StatisticResult>, candidates: seq<int>) {
    |results| == |candidates| && forall i :: 0 <= i < |results| ==> RawEntry(results[i], candidates[i])
  }

  lemma RawVectorEstimated(results: seq<StatisticResult>, candidates: seq<int>)
    requires RawVector(results, candidates)
    ensures AllEstimated(results)
  {
    forall i | 0 <= i < |results| ensures results[i].validity.Valid? && results[i].estimate.Some? {
      assert RawEntry(results[i], candidates[i]);
    }
  }

  /** The raw vectors the v2 selector admits. */
  predicate Selectable(results: seq<StatisticResult>, candidates: seq<int>, tolerance: real) {
    Canonical(candidates) && tolerance >= 0.0 && RawVector(results, candidates)
  }

  function Selected(results: seq<StatisticResult>, candidates: seq<int>, rule: SelectionRule, tolerance: real)
    : (SelectionResult, seq<StatisticResult>)
    requires Selectable(results, candidates, tolerance)
  {
    RawVectorEstimated(results, candidates);
    var scores := Scores(results, rule);
    (SelectionOf(candidates, scores, tolerance), WithScores(results, scores))
  }

  // ---------------------------------------------------------------- the v2 selector

  /** None stands for the integrity error. */
  method SelectFamilyV2(results: seq<StatisticResult>, candidates: seq<int>, rule: SelectionRule, tolerance: real)
    returns (r: Option<(SelectionResult, seq<StatisticResult>)>)
    ensures r.Some? <==> Selectable(results, candidates, tolerance)
    ensures r.Some? ==> r.value == Selected(results, candidates, rule, tolerance)
  {
    if !Canonical(candidates) { return None; }
    if tolerance < 0.0 { return None; }
    if |results| != |candidates| { return None; }
    var scores: seq<real> := [];
    for i := 0 to |results|
      invariant |scores| == i
      invariant forall k :: 0 <= k < i ==> RawEntry(results[k], candidates[k])
      invariant forall k :: 0 <= k < i ==>
                  results[k].estimate.Some? && scores[k] == Score(rule, results[k].estimate.value)
    {
      if !RawEntry(results[i], candidates[i]) { return None; }
      scores := scores + [Score(rule, results[i].estimate.value)];
    }
    RawVectorEstimated(results, candidates);
    assert scores == Scores(results, rule);
    var selection := SelectionOf(candidates, scores, tolerance);
    r := Some((selection, WithScores(results, scores)));
  }

  // ---------------------------------------------------------------- the v1 selector

  predicate SelectableV1(results: seq<StatisticResult>, tolerance: real) {
    && tolerance >= 0.0 && Canonical(CandidateIds(results)) && AllEstimated(results)
  }

  /** The v1 rule scores the same vector but reports the score of its label. */
  method SelectCandidateV1(results: seq<StatisticResult>, rule: SelectionRule, tolerance: real)
    returns (r: Option<SelectionResult>)
    ensures r.Some? <==> SelectableV1(results, tolerance)
    ensures r.Some? ==>
      var scores := Scores(results, rule);
      var v2 := SelectionOf(CandidateIds(results), scores, tolerance);
      0 <= v2.selectedIndex < |scores| && r.value == v2.(decisionStatistic := scores[v2.selectedIndex])
  {
    if tolerance < 0.0 || results == [] || !Canonical(CandidateIds(results)) { return None; }
    var scores: seq<real> := [];
    for i := 0 to |results|
      invariant |scores| == i
      invariant forall k :: 0 <= k < i ==>
        results[k].validity.Valid? && results[k].estimate.Some? && scores[k] == Score(rule, results[k].estimate.value)
    {
      if !results[i].validity.Valid? || results[i].estimate.None? { return None; }
      scores := scores + [Score(rule, results[i].estimate.value)];
    }
    assert scores == Scores(results, rule);
    MaxIsTied(CandidateIds(results), scores, tolerance);
    var ties := TiedIndices(scores, MaxOf(scores), tolerance);
    var ids := CandidateIds(results);
    r := Some(SelectionResult(ids[ties[0]], ties[0], scores[ties[0]], Pick(ids, ties)));
  }

  // ---------------------------------------------------------------- the two re-selections

  /** The executor's check that a selector output is welded to the raw vector it was computed from. */
  method ValidateSelectorOutput(
    raw: seq<StatisticResult>, selection: SelectionResult, scored: seq<StatisticResult>,
    candidates: seq<int>, rule: SelectionRule, tolerance: real)
    returns (ok: bool)
    requires AllEstimated(raw) && tolerance >= 0.0
    ensures ok <==>
      && raw != [] && CandidateIds(raw) == candidates
      && selection == SelectionOf(candidates, Scores(raw, rule), tolerance)
      && scored == WithScores(raw, Scores(raw, rule))
  {
    if |scored| != |raw| { return false; }
    var expected: seq<real> := [];
    for i := 0 to |raw|
      invariant |expected| == i
      invariant forall k :: 0 <= k < i ==>
        expected[k] == Score(rule, raw[k].estimate.value) && scored[k] == raw[k].(selectionScore := Some(expected[k]))
    {
      var score := Score(rule, raw[i].estimate.value);
      expected := expected + [score];
      if scored[i].candidateId != raw[i].candidateId || scored[i].estimate != raw[i].estimate
         || scored[i].supportN != raw[i].supportN || scored[i].validity != raw[i].validity
         || scored[i].diagnostics != raw[i].diagnostics || scored[i].backendIdentity != raw[i].backendIdentity
         || scored[i].preprocessingIdentity != raw[i].preprocessingIdentity
         || scored[i].selectionScore != Some(score) { return false; }
    }
    assert expected == Scores(raw, rule) && scored == WithScores(raw, expected);
    if expected == [] { return false; }
    if |candidates| != |raw| || CandidateIds(raw) != candidates { return false; }
    var decision := expected[0];
    for i := 1 to |expected|
      invariant decision == MaxOf(expected[..i])
    {
      assert expected[..i + 1][..i] == expected[..i];
      if expected[i] > decision { decision := expected[i]; }
    }
    assert expected[..|expected|] == expected;
    var ties := TiedIndices(expected, decision, tolerance);
    MaxIsTied(candidates, expected, tolerance);
    ok := selection == SelectionResult(candidates[ties[0]], ties[0], decision, Pick(candidates, ties));
  }

  /** The verifier's re-selection from stored scores; None stands for the integrity error. */
  method VerifySelection(selection: SelectionResult, candidates: seq<int>, tolerance: real, scores: seq<real>)
    returns (decision: Option<real>)
    requires |scores| == |candidates| > 0 && tolerance >= 0.0
    ensures decision.Some? <==> selection == SelectionOf(candidates, scores, tolerance)
    ensures decision.Some? ==> decision.value == MaxOf(scores)
  {
    var maximum := MaxOf(scores);
    var ties: seq<nat> := [];
    for i := 0 to |scores|
      invariant ties == TiedIndices(scores[..i], maximum, tolerance)
    {
      assert scores[..i + 1][..i] == scores[..i];
      if maximum - scores[i] <= tolerance { ties := ties + [i]; }
    }
    assert scores[..|scores|] == scores;
    MaxIsTied(candidates, scores, tolerance);
    if selection.selectedCandidate != candidates[ties[0]] || selection.selectedIndex != ties[0]
       || selection.decisionStatistic != maximum || selection.tiedCandidates != Pick(candidates, ties) { return None; }
    decision := Some(maximum);
  }

  // ---------------------------------------------------------------- what selection means

  lemma PickedAre(candidates: seq<int>, ties: seq<nat>, i: nat)
    requires Canonical(candidates) && i < |candidates| && forall k :: 0 <= k < |ties| ==> ties[k] < |candidates|
    ensures candidates[i] in Pick(candidates, ties) <==> i in ties
  {
    var picked := Pick(candidates, ties);
    if i in ties {
      var k :| 0 <= k < |ties| && ties[k] == i;
      assert picked[k] == candidates[i];
    }
    if candidates[i] in picked {
      var k :| 0 <= k < |picked| && picked[k] == candidates[i];
      assert ties[k] == i;
    }
  }

  lemma TiedCanonical(candidates: seq<int>, scores: seq<real>, tolerance: real)
    requires |candidates| == |scores| && Canonical(candidates) && tolerance >= 0.0
    ensures Canonical(SelectionOf(candidates, scores, tolerance).tiedCandidates)
  {
    MaxIsTied(candidates, scores, tolerance);
    TiedIndicesAre(scores, MaxOf(scores), tolerance);
  }

  /** Exactly the candidates within the tolerance of the decision are tied, and the label is the least of them. */
  lemma TiedMeaning(candidates: seq<int>, scores: seq<real>, tolerance: real, i: nat)
    requires |candidates| == |scores| && Canonical(candidates) && tolerance >= 0.0 && i < |scores|
    ensures var s := SelectionOf(candidates, scores, tolerance);
      && (candidates[i] in s.tiedCandidates <==> s.decisionStatistic - scores[i] <= tolerance)
      && (candidates[i] in s.tiedCandidates ==> s.selectedCandidate <= candidates[i])
  {
    var s := SelectionOf(candidates, scores, tolerance);
    MaxIsTied(candidates, scores, tolerance);
    TiedIndicesAre(scores, s.decisionStatistic, tolerance);
    TiedCanonical(candidates, scores, tolerance);
    PickedAre(candidates, TiedIndices(scores, s.decisionStatistic, tolerance), i);
    if candidates[i] in s.tiedCandidates {
      var k :| 0 <= k < |s.tiedCandidates| && s.tiedCandidates[k] == candidates[i];
    }
  }

  /** The label lies in the family, within the tolerance of the decision. */
  lemma LabelMeaning(candidates: seq<int>, scores: seq<real>, tolerance: real)
    requires |candidates| == |scores| && Canonical(candidates) && tolerance >= 0.0
    ensures var s := SelectionOf(candidates, scores, tolerance);
      && 0 <= s.selectedIndex < |candidates| && candidates[s.selectedIndex] == s.selectedCandidate
      && s.decisionStatistic - scores[s.selectedIndex] <= tolerance
      && SelectionOk(s) && s.tiedCandidates[0] == s.selectedCandidate
  {
    MaxIsTied(candidates, scores, tolerance);
    TiedIndicesAre(scores, MaxOf(scores), tolerance);
    TiedCanonical(candidates, scores, tolerance);
    var s := SelectionOf(candidates, scores, tolerance);
    assert s.tiedCandidates[0] == s.selectedCandidate;
  }

  /** The decision is the family maximum whatever the tolerance; the label is the least candidate within it. */
  lemma SelectionMeaning(candidates: seq<int>, scores: seq<real>, tolerance: real)
    requires |candidates| == |scores| && Canonical(candidates) && tolerance >= 0.0
    ensures var s := SelectionOf(candidates, scores, tolerance);
      && IsMaximum(s.decisionStatistic, scores)
      && s.decisionStatistic == SelectionOf(candidates, scores, 0.0).decisionStatistic
      && 0 <= s.selectedIndex < |candidates| && candidates[s.selectedIndex] == s.selectedCandidate
      && s.decisionStatistic - scores[s.selectedIndex] <= tolerance
      && (forall i :: 0 <= i < |scores| && s.decisionStatistic - scores[i] <= tolerance ==>
            s.selectedCandidate <= candidates[i])
      && (forall i :: 0 <= i < |scores| ==>
            (candidates[i] in s.tiedCandidates <==> s.decisionStatistic - scores[i] <= tolerance))
      && SelectionOk(s) && s.tiedCandidates[0] == s.selectedCandidate
  {
    var s := SelectionOf(candidates, scores, tolerance);
    MaxOfIs(scores);
    LabelMeaning(candidates, scores, tolerance);
    forall i | 0 <= i < |scores|
      ensures candidates[i] in s.tiedCandidates <==> s.decisionStatistic - scores[i] <= tolerance
      ensures candidates[i] in s.tiedCandidates ==> s.selectedCandidate <= candidates[i]
    {
      TiedMeaning(candidates, scores, tolerance, i);
    }
  }

  /** The v1 rule accepts exactly the vectors that the v2 rule accepts once their stored scores are dropped. */
  lemma V1AcceptsIff(results: seq<StatisticResult>, raw: seq<StatisticResult>, tolerance: real)
    requires |raw| == |results| && forall i :: 0 <= i < |raw| ==> raw[i] == results[i].(selectionScore := None)
    ensures SelectableV1(results, tolerance) <==> Selectable(raw, CandidateIds(results), tolerance)
  {
    if Selectable(raw, CandidateIds(results), tolerance) {
      forall i | 0 <= i < |results| ensures results[i].validity.Valid? && results[i].estimate.Some? {
        assert RawEntry(raw[i], CandidateIds(results)[i]);
      }
    }
  }

  /** The v1 decision never exceeds the v2 one and falls short of it by at most the tolerance. */
  lemma V1DecisionWindow(results: seq<StatisticResult>, rule: SelectionRule, tolerance: real)
    requires SelectableV1(results, tolerance)
    ensures var scores := Scores(results, rule);
      var v2 := SelectionOf(CandidateIds(results), scores, tolerance);
      && 0 <= v2.selectedIndex < |scores|
      && v2.decisionStatistic - tolerance <= scores[v2.selectedIndex] <= v2.decisionStatistic
      && (tolerance == 0.0 ==> scores[v2.selectedIndex] == v2.decisionStatistic)
  {
    SelectionMeaning(CandidateIds(results), Scores(results, rule), tolerance);
  }

  /** What the selector returns always passes the executor's check and the verifier's re-selection. */
  lemma SelectorOutputAccepted(raw: seq<StatisticResult>, candidates: seq<int>, rule: SelectionRule, tolerance: real)
    requires Selectable(raw, candidates, tolerance)
    ensures var (selection, scored) := Selected(raw, candidates, rule, tolerance);
      && AllEstimated(raw) && scored == WithScores(raw, Scores(raw, rule))
      && CandidateIds(raw) == candidates == CandidateIds(scored)
      && AllScored(scored) && ScoresOf(scored) == Scores(raw, rule)
      && selection == SelectionOf(candidates, ScoresOf(scored), tolerance)
  {
    RawVectorEstimated(raw, candidates);
    var (selection, scored) := Selected(raw, candidates, rule, tolerance);
    forall i | 0 <= i < |raw| ensures raw[i].candidateId == candidates[i] {
      assert RawEntry(raw[i], candidates[i]);
    }
    assert CandidateIds(raw) == candidates;
    assert ScoresOf(scored) == Scores(raw, rule);
    assert CandidateIds(scored) == candidates;
  }

  /** A re-selected scored vector of valid entries satisfies the constructor of a complete record. */
  lemma ReselectedVectorOk(results: seq<StatisticResult>, candidates: seq<int>, tolerance: real)
    requires Canonical(candidates) && CandidateIds(results) == candidates && tolerance >= 0.0 && AllScored(results)
    requires forall i :: 0 <= i < |results| ==> StatisticOk(results[i])
    ensures CompleteVectorOk(results, Some(SelectionOf(candidates, ScoresOf(results), tolerance)))
  {
    var scores := ScoresOf(results);
    var s := SelectionOf(candidates, scores, tolerance);
    SelectionMeaning(candidates, scores, tolerance);
    var ties := TiedIndices(scores, s.decisionStatistic, tolerance);
    MaxIsTied(candidates, scores, tolerance);
    forall c | c in s.tiedCandidates ensures c in candidates {
      var k :| 0 <= k < |s.tiedCandidates| && s.tiedCandidates[k] == c;
      assert c == candidates[ties[k]];
    }
  }
}
