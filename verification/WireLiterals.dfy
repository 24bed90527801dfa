/** The stored form of a result key by key: which field stands under which name, told in the names themselves. */
module WireLiterals {
  import opened Wrappers
  import opened Json
  import opened JsonRecords
  import opened Canonical
  import opened Contracts
  import opened ResultWire
  import opened WireRoundTrip
  import opened WireResults
  import opened WireBijection

  // ---------------------------------------------------------------- values

  /** The object holds the value under the key. */
  predicate Holds(j: Json, key: string, value: Json) {
    j.Obj? && Lookup(j.members, key) == Some(value)
  }

  predicate HasKeys(j: Json, keys: seq<string>) {
    j.Obj? && HasExactly(j.members, keys)
  }

  function FloatJson(floats: Floats, x: real): Json {
    Obj(Member("$float64", Str(floats.hex(x)), NoMembers))
  }

  function OptionalFloatJson(floats: Floats, x: Option<real>): Json {
    match x
    case None => Null
    case Some(value) => FloatJson(floats, value)
  }

  /** The elements of an array, in order. */
  function Elements(j: Json): seq<Json> {
    if j.Arr? then SeqOf(j.items) else []
  }

  predicate IsStrings(j: Json, xs: seq<string>) {
    j.Arr? && |Elements(j)| == |xs| && forall i :: 0 <= i < |xs| ==> Elements(j)[i] == Str(xs[i])
  }

  predicate IsInts(j: Json, xs: seq<int>) {
    j.Arr? && |Elements(j)| == |xs| && forall i :: 0 <= i < |xs| ==> Elements(j)[i] == Int(xs[i])
  }

  // ---------------------------------------------------------------- records

  predicate IsStatistic(floats: Floats, j: Json, s: StatisticResult) {
    && HasKeys(j, ["candidate_id", "estimate", "selection_score", "support_n", "validity", "diagnostics",
                   "backend_identity", "preprocessing_identity"])
    && Holds(j, "candidate_id", Int(s.candidateId))
    && Holds(j, "estimate", OptionalFloatJson(floats, s.estimate))
    && Holds(j, "selection_score", OptionalFloatJson(floats, s.selectionScore))
    && Holds(j, "support_n", Int(s.supportN))
    && Holds(j, "validity", Str(if s.validity == Valid then "valid" else "analytic_failure"))
    && IsStrings(Lookup(j.members, "diagnostics").GetOr(Null), s.diagnostics)
    && Holds(j, "backend_identity", Str(s.backendIdentity))
    && Holds(j, "preprocessing_identity", Str(s.preprocessingIdentity))
  }

  predicate IsSelection(floats: Floats, j: Json, s: SelectionResult) {
    && HasKeys(j, ["selected_candidate", "selected_index", "decision_statistic", "tied_candidates"])
    && Holds(j, "selected_candidate", Int(s.selectedCandidate))
    && Holds(j, "selected_index", Int(s.selectedIndex))
    && Holds(j, "decision_statistic", FloatJson(floats, s.decisionStatistic))
    && IsInts(Lookup(j.members, "tied_candidates").GetOr(Null), s.tiedCandidates)
  }

  predicate IsOptionalSelection(floats: Floats, j: Json, s: Option<SelectionResult>) {
    match s
    case None => j == Null
    case Some(selection) => IsSelection(floats, j, selection)
  }

  predicate IsState(j: Json, s: NullState) {
    match s
    case CircularShiftState(shift) =>
      && HasKeys(j, ["schema", "shift"])
      && Holds(j, "schema", Str("selcal.circular-shift-state.v2")) && Holds(j, "shift", Int(shift))
    case BlockShuffleState(order) =>
      && HasKeys(j, ["schema", "block_order"]) && Holds(j, "schema", Str("selcal.block-shuffle-state.v2"))
      && IsInts(Lookup(j.members, "block_order").GetOr(Null), order)
  }

  predicate IsToken(j: Json, t: Token) {
    && HasKeys(j, ["schema", "null_name", "null_parameter_sha256", "semantic_input_sha256", "scientific_plan_sha256",
                   "bound_null_owner_sha256", "is_identity", "state"])
    && Holds(j, "schema", Str("selcal.null-transform-token.v2"))
    && Holds(j, "null_name", Str(if t.nullName == CircularShiftV2 then "circular_shift_v2"
                                 else if t.nullName == BlockShuffleV2 then "block_shuffle_v2"
                                 else "circular_shift_exact_v1"))
    && Holds(j, "null_parameter_sha256", Str(t.nullParameterSha256))
    && Holds(j, "semantic_input_sha256", Str(t.semanticInputSha256))
    && Holds(j, "scientific_plan_sha256", Str(t.scientificPlanSha256))
    && Holds(j, "bound_null_owner_sha256", Str(t.boundNullOwnerSha256))
    && Holds(j, "is_identity", Bool(t.isIdentity))
    && IsState(Lookup(j.members, "state").GetOr(Null), t.state)
  }

  predicate IsStatistics(floats: Floats, j: Json, results: seq<StatisticResult>) {
    j.Arr? && |Elements(j)| == |results|
    && forall i :: 0 <= i < |results| ==> IsStatistic(floats, Elements(j)[i], results[i])
  }

  predicate IsOutcomeHead(j: Json, o: ReplicateOutcome) {
    && Holds(j, "replicate_id", Int(o.replicateId))
    && Holds(j, "seed_digest_sha256", Str(o.seedDigestSha256))
    && Holds(j, "status", Str(if o.status == ReplicateComplete then "complete" else "analytic_failure"))
    && Holds(j, "failure_stage", if o.failureStage.None? then Null else Str("statistic_scan"))
  }

  predicate IsOutcomeBody(floats: Floats, j: Json, o: ReplicateOutcome) {
    && j.Obj?
    && IsToken(Lookup(j.members, "transform_token").GetOr(Null), o.transformToken)
    && IsStatistics(floats, Lookup(j.members, "statistic_results").GetOr(Null), o.statisticResults)
    && IsOptionalSelection(floats, Lookup(j.members, "selection").GetOr(Null), o.selection)
    && IsStrings(Lookup(j.members, "diagnostics").GetOr(Null), o.diagnostics)
  }

  predicate IsOutcome(floats: Floats, j: Json, o: ReplicateOutcome) {
    && HasKeys(j, ["replicate_id", "seed_digest_sha256", "status", "failure_stage", "transform_token",
                   "statistic_results", "selection", "diagnostics"])
    && IsOutcomeHead(j, o) && IsOutcomeBody(floats, j, o)
  }

  predicate IsOutcomes(floats: Floats, j: Json, outcomes: seq<ReplicateOutcome>) {
    j.Arr? && |Elements(j)| == |outcomes|
    && forall i :: 0 <= i < |outcomes| ==> IsOutcome(floats, Elements(j)[i], outcomes[i])
  }

  /** The identity of the run and its plan. */
  predicate IsResultHead(floats: Floats, j: Json, r: CalibrationResult) {
    && Holds(j, "schema", Str("selcal.calibration-result-wire.v1"))
    && Holds(j, "status", Str(if r.status == Complete then "complete" else "not_evaluable"))
    && Holds(j, "failure_stage",
             match r.failureStage
             case None => Null
             case Some(NullBind) => Str("null_bind")
             case Some(ObservedStatisticScan) => Str("observed_statistic_scan")
             case Some(ReplicateExecution) => Str("replicate_execution"))
    && Holds(j, "semantic_input_sha256", Str(r.semanticInputSha256))
    && Holds(j, "scientific_plan_sha256", Str(r.scientificPlanSha256))
    && Holds(j, "planned_replicates", Int(r.plannedReplicates))
    && Holds(j, "alpha", FloatJson(floats, r.alpha))
  }

  /** The retained records. */
  predicate IsResultBody(floats: Floats, j: Json, r: CalibrationResult) {
    && j.Obj?
    && IsStatistics(floats, Lookup(j.members, "observed_results").GetOr(Null), r.observedResults)
    && IsOptionalSelection(floats, Lookup(j.members, "observed_selection").GetOr(Null), r.observedSelection)
    && IsOutcomes(floats, Lookup(j.members, "replicates").GetOr(Null), r.replicates)
  }

  /** The counts and what follows from them. */
  predicate IsResultTail(floats: Floats, j: Json, r: CalibrationResult) {
    && Holds(j, "exceedance_count", Int(r.exceedanceCount))
    && Holds(j, "failure_count", Int(r.failureCount))
    && Holds(j, "p_value", OptionalFloatJson(floats, r.pValue))
    && Holds(j, "exceedance_bound_low", OptionalFloatJson(floats, r.exceedanceBoundLow))
    && Holds(j, "exceedance_bound_high", OptionalFloatJson(floats, r.exceedanceBoundHigh))
    && Holds(j, "reject_null", match r.rejectNull case None => Null case Some(b) => Bool(b))
    && IsStrings(Lookup(j.members, "diagnostics").GetOr(Null), r.diagnostics)
  }

  predicate IsResult(floats: Floats, j: Json, r: CalibrationResult) {
    && HasKeys(j, ["schema", "status", "failure_stage", "semantic_input_sha256", "scientific_plan_sha256",
                   "planned_replicates", "alpha", "observed_results", "observed_selection", "replicates",
                   "exceedance_count", "failure_count", "p_value", "exceedance_bound_low", "exceedance_bound_high",
                   "reject_null", "diagnostics"])
    && IsResultHead(floats, j, r) && IsResultBody(floats, j, r) && IsResultTail(floats, j, r)
  }

  // ---------------------------------------------------------------- projections

  /** Every field of a projected record stands under its key. */
  lemma FieldHolds(floats: Floats, keys: seq<string>, values: seq<Value>)
    requires |keys| == |values| && KeysLegal(keys)
    ensures var j := Normalize(floats, Dict(keys, values));
      HasKeys(j, keys) && forall i :: 0 <= i < |keys| ==> Holds(j, keys[i], Normalize(floats, values[i]))
  {
    DictLookup(floats, keys, values, 0);
  }

  lemma {:induction false} ItemsElements(floats: Floats, items: seq<Value>)
    ensures |SeqOf(NormalizeItems(floats, items))| == |items|
    ensures forall i :: 0 <= i < |items| ==> SeqOf(NormalizeItems(floats, items))[i] == Normalize(floats, items[i])
  {
    if items != [] { ItemsElements(floats, items[1..]); }
  }

  lemma ListElements(floats: Floats, items: seq<Value>)
    ensures var j := Normalize(floats, VList(items));
      j.Arr? && |Elements(j)| == |items|
      && forall i :: 0 <= i < |items| ==> Elements(j)[i] == Normalize(floats, items[i])
  {
    ItemsElements(floats, items);
  }

  lemma StringsHold(floats: Floats, xs: seq<string>)
    ensures IsStrings(Normalize(floats, Strings(xs)), xs)
  {
    ListElements(floats, Strings(xs).items);
  }

  lemma IntsHold(floats: Floats, xs: seq<int>)
    ensures IsInts(Normalize(floats, Ints(xs)), xs)
  {
    ListElements(floats, Ints(xs).items);
  }

  lemma OptionalFloatIs(floats: Floats, x: Option<real>)
    ensures Normalize(floats, OptionalFloat(x)) == OptionalFloatJson(floats, x)
  {
  }

  lemma StatisticHolds(floats: Floats, s: StatisticResult)
    ensures IsStatistic(floats, Normalize(floats, ProjectStatistic(s)), s)
  {
    StatisticKeysLegal();
    FieldHolds(floats, STATISTIC_KEYS, StatisticValues(s));
    StringsHold(floats, s.diagnostics);
    assert STATISTIC_KEYS[0] == "candidate_id" && STATISTIC_KEYS[1] == "estimate";
    assert STATISTIC_KEYS[2] == "selection_score" && STATISTIC_KEYS[3] == "support_n";
    assert STATISTIC_KEYS[4] == "validity" && STATISTIC_KEYS[5] == "diagnostics";
    assert STATISTIC_KEYS[6] == "backend_identity" && STATISTIC_KEYS[7] == "preprocessing_identity";
  }

  lemma SelectionHolds(floats: Floats, s: SelectionResult)
    ensures IsSelection(floats, Normalize(floats, ProjectSelection(s)), s)
  {
    SelectionKeysLegal();
    FieldHolds(floats, SELECTION_KEYS, [VInt(s.selectedCandidate), VInt(s.selectedIndex), VFloat(s.decisionStatistic),
                                        Ints(s.tiedCandidates)]);
    IntsHold(floats, s.tiedCandidates);
    assert SELECTION_KEYS[0] == "selected_candidate" && SELECTION_KEYS[1] == "selected_index";
    assert SELECTION_KEYS[2] == "decision_statistic" && SELECTION_KEYS[3] == "tied_candidates";
  }

  lemma OptionalSelectionHolds(floats: Floats, s: Option<SelectionResult>)
    ensures IsOptionalSelection(floats, Normalize(floats, OptionalSelection(s)), s)
  {
    if s.Some? { SelectionHolds(floats, s.value); }
  }

  lemma StateHolds(floats: Floats, s: NullState)
    ensures IsState(Normalize(floats, ProjectState(s)), s)
  {
    StateKeysLegal();
    match s
    case CircularShiftState(shift) =>
      FieldHolds(floats, CIRCULAR_KEYS, [VStr(CIRCULAR_SCHEMA), VInt(shift)]);
      assert CIRCULAR_KEYS[0] == "schema" && CIRCULAR_KEYS[1] == "shift";
    case BlockShuffleState(order) =>
      FieldHolds(floats, BLOCK_KEYS, [VStr(BLOCK_SCHEMA), Ints(order)]);
      IntsHold(floats, order);
      assert BLOCK_KEYS[0] == "schema" && BLOCK_KEYS[1] == "block_order";
  }

  lemma TokenHolds(floats: Floats, t: Token)
    ensures IsToken(Normalize(floats, ProjectToken(t)), t)
  {
    TokenKeysLegal();
    FieldHolds(floats, TOKEN_KEYS, TokenValues(t));
    StateHolds(floats, t.state);
    assert TOKEN_KEYS[0] == "schema" && TOKEN_KEYS[1] == "null_name" && TOKEN_KEYS[2] == "null_parameter_sha256";
    assert TOKEN_KEYS[3] == "semantic_input_sha256" && TOKEN_KEYS[4] == "scientific_plan_sha256";
    assert TOKEN_KEYS[5] == "bound_null_owner_sha256" && TOKEN_KEYS[6] == "is_identity" && TOKEN_KEYS[7] == "state";
  }

  lemma StatisticsHold(floats: Floats, results: seq<StatisticResult>)
    ensures IsStatistics(floats, Normalize(floats, ProjectStatistics(results)), results)
  {
    ListElements(floats, ProjectStatistics(results).items);
    forall i | 0 <= i < |results|
      ensures IsStatistic(floats, Normalize(floats, ProjectStatistic(results[i])), results[i])
    {
      StatisticHolds(floats, results[i]);
    }
  }

  ghost predicate OutcomeFields(floats: Floats, j: Json, o: ReplicateOutcome) {
    forall i :: 0 <= i < 8 ==> Holds(j, OUTCOME_KEYS[i], Normalize(floats, OutcomeValues(o)[i]))
  }

  lemma OutcomeHeadHolds(floats: Floats, j: Json, o: ReplicateOutcome)
    requires OutcomeFields(floats, j, o)
    ensures IsOutcomeHead(j, o)
  {
    assert OUTCOME_KEYS[0] == "replicate_id" && OUTCOME_KEYS[1] == "seed_digest_sha256";
    assert OUTCOME_KEYS[2] == "status" && OUTCOME_KEYS[3] == "failure_stage";
  }

  lemma OutcomeBodyHolds(floats: Floats, j: Json, o: ReplicateOutcome)
    requires OutcomeFields(floats, j, o)
    ensures IsOutcomeBody(floats, j, o)
  {
    TokenHolds(floats, o.transformToken);
    StatisticsHold(floats, o.statisticResults);
    OptionalSelectionHolds(floats, o.selection);
    StringsHold(floats, o.diagnostics);
    assert OUTCOME_KEYS[4] == "transform_token" && OUTCOME_KEYS[5] == "statistic_results";
    assert OUTCOME_KEYS[6] == "selection" && OUTCOME_KEYS[7] == "diagnostics";
  }

  lemma OutcomeHolds(floats: Floats, o: ReplicateOutcome)
    ensures IsOutcome(floats, Normalize(floats, ProjectOutcome(o)), o)
  {
    var j := Normalize(floats, ProjectOutcome(o));
    OutcomeKeysLegal();
    FieldHolds(floats, OUTCOME_KEYS, OutcomeValues(o));
    OutcomeHeadHolds(floats, j, o);
    OutcomeBodyHolds(floats, j, o);
  }

  lemma OutcomesHold(floats: Floats, outcomes: seq<ReplicateOutcome>)
    ensures IsOutcomes(floats, Normalize(floats, ProjectOutcomes(outcomes)), outcomes)
  {
    ListElements(floats, ProjectOutcomes(outcomes).items);
    forall i | 0 <= i < |outcomes|
      ensures IsOutcome(floats, Normalize(floats, ProjectOutcome(outcomes[i])), outcomes[i])
    {
      OutcomeHolds(floats, outcomes[i]);
    }
  }

  /** Every value of a projected result under the key of its position. */
  ghost predicate ResultFields(floats: Floats, j: Json, r: CalibrationResult) {
    forall i :: 0 <= i < 17 ==> Holds(j, RESULT_KEYS[i], Normalize(floats, ResultValues(r)[i]))
  }

  lemma ResultHeadHolds(floats: Floats, j: Json, r: CalibrationResult)
    requires ResultFields(floats, j, r)
    ensures IsResultHead(floats, j, r)
  {
    assert RESULT_KEYS[0] == "schema" && RESULT_KEYS[1] == "status" && RESULT_KEYS[2] == "failure_stage";
    assert RESULT_KEYS[3] == "semantic_input_sha256" && RESULT_KEYS[4] == "scientific_plan_sha256";
    assert RESULT_KEYS[5] == "planned_replicates" && RESULT_KEYS[6] == "alpha";
  }

  lemma ResultBodyHolds(floats: Floats, j: Json, r: CalibrationResult)
    requires ResultFields(floats, j, r)
    ensures IsResultBody(floats, j, r)
  {
    StatisticsHold(floats, r.observedResults);
    OptionalSelectionHolds(floats, r.observedSelection);
    OutcomesHold(floats, r.replicates);
    assert RESULT_KEYS[7] == "observed_results" && RESULT_KEYS[8] == "observed_selection";
    assert RESULT_KEYS[9] == "replicates";
  }

  lemma ResultTailHolds(floats: Floats, j: Json, r: CalibrationResult)
    requires ResultFields(floats, j, r)
    ensures IsResultTail(floats, j, r)
  {
    StringsHold(floats, r.diagnostics);
    assert RESULT_KEYS[10] == "exceedance_count" && RESULT_KEYS[11] == "failure_count";
    assert RESULT_KEYS[12] == "p_value" && RESULT_KEYS[13] == "exceedance_bound_low";
    assert RESULT_KEYS[14] == "exceedance_bound_high" && RESULT_KEYS[15] == "reject_null";
    assert RESULT_KEYS[16] == "diagnostics";
  }

  lemma ResultHolds(floats: Floats, r: CalibrationResult)
    ensures IsResult(floats, Normalize(floats, ProjectResult(r)), r)
  {
    var j := Normalize(floats, ProjectResult(r));
    ResultKeysLegal();
    FieldHolds(floats, RESULT_KEYS, ResultValues(r));
    ResultHeadHolds(floats, j, r);
    ResultBodyHolds(floats, j, r);
    ResultTailHolds(floats, j, r);
  }

  // ---------------------------------------------------------------- stored bytes

  /** Encoded bytes hold a document with each field of the result under its own name. */
  lemma EncodedFields(floats: Floats, div: Division, r: CalibrationResult, maxBytes: int, data: seq<nat>)
    requires floats.Sound() && Representable(floats, r) && Encode(floats, div, r, maxBytes) == Ok(data)
    ensures ParseRecord(data).Ok? && IsResult(floats, ParseRecord(data).value, r)
  {
    EncodeIff(floats, div, r, maxBytes, data);
    var canonical := RecordParses(floats, div, r);
    ResultHolds(floats, r);
  }

  /** And whatever bytes decode hold the result they decode to under those names. */
  lemma DecodedFields(floats: Floats, div: Division, data: seq<nat>, maxBytes: int, r: CalibrationResult)
    requires floats.Sound() && Decode(floats, div, data, maxBytes) == Ok(r)
    ensures ParseRecord(data).Ok? && IsResult(floats, ParseRecord(data).value, r)
  {
    DecodeIff(floats, div, data, maxBytes, r);
    var canonical := RecordParses(floats, div, r);
    ResultHolds(floats, r);
  }
}
