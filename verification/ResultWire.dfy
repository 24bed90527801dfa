/** The stored form of a calibration result: projection, strict reading, encoding and decoding. */
module ResultWire {
  import opened Wrappers
  import opened Json
  import opened JsonRecords
  import opened Canonical
  import opened Contracts
  import opened DepthScan
  import Utf8

  datatype WireError =
    | InvalidLimit | SizeLimit | Shape | Malformed | RepeatedKey | WrongType | BadValue | Noncanonical

  const RESULT_SCHEMA := "selcal.calibration-result-wire.v1"
  const TOKEN_SCHEMA := "selcal.null-transform-token.v2"
  const CIRCULAR_SCHEMA := "selcal.circular-shift-state.v2"
  const BLOCK_SCHEMA := "selcal.block-shuffle-state.v2"

  const STATISTIC_KEYS := ["candidate_id", "estimate", "selection_score", "support_n", "validity", "diagnostics",
                           "backend_identity", "preprocessing_identity"]
  const SELECTION_KEYS := ["selected_candidate", "selected_index", "decision_statistic", "tied_candidates"]
  const CIRCULAR_KEYS := ["schema", "shift"]
  const BLOCK_KEYS := ["schema", "block_order"]
  const TOKEN_KEYS := ["schema", "null_name", "null_parameter_sha256", "semantic_input_sha256",
                       "scientific_plan_sha256", "bound_null_owner_sha256", "is_identity", "state"]
  const OUTCOME_KEYS := ["replicate_id", "seed_digest_sha256", "status", "failure_stage", "transform_token",
                         "statistic_results", "selection", "diagnostics"]
  const RESULT_KEYS := ["schema", "status", "failure_stage", "semantic_input_sha256", "scientific_plan_sha256",
                        "planned_replicates", "alpha", "observed_results", "observed_selection", "replicates",
                        "exceedance_count", "failure_count", "p_value", "exceedance_bound_low",
                        "exceedance_bound_high", "reject_null", "diagnostics"]

  // ---------------------------------------------------------------- projection

  function OptionalFloat(x: Option<real>): Value {
    match x
    case None => VNone
    case Some(value) => VFloat(value)
  }

  function ValidityText(v: Validity): string {
    if v.Valid? then "valid" else "analytic_failure"
  }

  function ReplicateStatusText(s: ReplicateStatus): string {
    if s.ReplicateComplete? then "complete" else "analytic_failure"
  }

  function RunStatusText(s: RunStatus): string {
    if s.Complete? then "complete" else "not_evaluable"
  }

  function RunStageText(s: RunFailureStage): string {
    match s
    case NullBind => "null_bind"
    case ObservedStatisticScan => "observed_statistic_scan"
    case ReplicateExecution => "replicate_execution"
  }

  function NullNameText(n: NullName): string {
    match n
    case CircularShiftV2 => "circular_shift_v2"
    case CircularShiftExactV1 => "circular_shift_exact_v1"
    case BlockShuffleV2 => "block_shuffle_v2"
  }

  function StatisticValues(s: StatisticResult): (values: seq<Value>)
    ensures |values| == 8
  {
    [VInt(s.candidateId), OptionalFloat(s.estimate), OptionalFloat(s.selectionScore), VInt(s.supportN),
     VStr(ValidityText(s.validity)), Strings(s.diagnostics), VStr(s.backendIdentity), VStr(s.preprocessingIdentity)]
  }

  function ProjectStatistic(s: StatisticResult): Value {
    Dict(STATISTIC_KEYS, StatisticValues(s))
  }

  function ProjectStatistics(results: seq<StatisticResult>): Value {
    VList(seq(|results|, i requires 0 <= i < |results| => ProjectStatistic(results[i])))
  }

  function ProjectSelection(s: SelectionResult): Value {
    Dict(SELECTION_KEYS,
         [VInt(s.selectedCandidate), VInt(s.selectedIndex), VFloat(s.decisionStatistic), Ints(s.tiedCandidates)])
  }

  function OptionalSelection(s: Option<SelectionResult>): Value {
    match s
    case None => VNone
    case Some(selection) => ProjectSelection(selection)
  }

  function ProjectState(s: NullState): Value {
    match s
    case CircularShiftState(shift) => Dict(CIRCULAR_KEYS, [VStr(CIRCULAR_SCHEMA), VInt(shift)])
    case BlockShuffleState(order) => Dict(BLOCK_KEYS, [VStr(BLOCK_SCHEMA), Ints(order)])
  }

  function TokenValues(t: Token): (values: seq<Value>)
    ensures |values| == 8
  {
    [VStr(TOKEN_SCHEMA), VStr(NullNameText(t.nullName)), VStr(t.nullParameterSha256), VStr(t.semanticInputSha256),
     VStr(t.scientificPlanSha256), VStr(t.boundNullOwnerSha256), VBool(t.isIdentity), ProjectState(t.state)]
  }

  function ProjectToken(t: Token): Value {
    Dict(TOKEN_KEYS, TokenValues(t))
  }

  function OptionalScanStage(s: Option<ReplicateFailureStage>): Value {
    if s.None? then VNone else VStr("statistic_scan")
  }

  function OutcomeValues(o: ReplicateOutcome): (values: seq<Value>)
    ensures |values| == 8
  {
    [VInt(o.replicateId), VStr(o.seedDigestSha256), VStr(ReplicateStatusText(o.status)),
     OptionalScanStage(o.failureStage), ProjectToken(o.transformToken), ProjectStatistics(o.statisticResults),
     OptionalSelection(o.selection), Strings(o.diagnostics)]
  }

  function ProjectOutcome(o: ReplicateOutcome): Value {
    Dict(OUTCOME_KEYS, OutcomeValues(o))
  }

  function ProjectOutcomes(outcomes: seq<ReplicateOutcome>): Value {
    VList(seq(|outcomes|, i requires 0 <= i < |outcomes| => ProjectOutcome(outcomes[i])))
  }

  function OptionalRunStage(s: Option<RunFailureStage>): Value {
    match s
    case None => VNone
    case Some(stage) => VStr(RunStageText(stage))
  }

  function OptionalBool(b: Option<bool>): Value {
    match b
    case None => VNone
    case Some(value) => VBool(value)
  }

  function ResultValues(r: CalibrationResult): (values: seq<Value>)
    ensures |values| == 17
  {
    [VStr(RESULT_SCHEMA), VStr(RunStatusText(r.status)), OptionalRunStage(r.failureStage),
     VStr(r.semanticInputSha256), VStr(r.scientificPlanSha256), VInt(r.plannedReplicates), VFloat(r.alpha),
     ProjectStatistics(r.observedResults), OptionalSelection(r.observedSelection), ProjectOutcomes(r.replicates),
     VInt(r.exceedanceCount), VInt(r.failureCount), OptionalFloat(r.pValue), OptionalFloat(r.exceedanceBoundLow),
     OptionalFloat(r.exceedanceBoundHigh), OptionalBool(r.rejectNull), Strings(r.diagnostics)]
  }

  function ProjectResult(r: CalibrationResult): Value {
    Dict(RESULT_KEYS, ResultValues(r))
  }

  /** The canonical bytes of a result and one line feed; None where the encoding is refused. */
  function CanonicalBytes(floats: Floats, r: CalibrationResult): Option<seq<nat>> {
    match CanonicalText(floats, ProjectResult(r))
    case None => None
    case Some(text) => Some(Utf8.Encode(text) + [10])
  }

  // ---------------------------------------------------------------- strict reading

  type Read<T> = Result<T, WireError>

  /** The values of an object whose keys are exactly the given ones, in that order. */
  function Fields(j: Json, keys: seq<string>): (r: Read<seq<Json>>)
    ensures r.Ok? ==> |r.value| == |keys|
  {
    if !j.Obj? then Err(WrongType)
    else if !HasExactly(j.members, keys) then Err(Shape)
    else Ok(seq(|keys|, i requires 0 <= i < |keys| => Lookup(j.members, keys[i]).GetOr(Null)))
  }

  function ReadInt(j: Json): Read<int> {
    if j.Int? then Ok(j.i) else Err(WrongType)
  }

  function ReadString(j: Json): Read<string> {
    if j.Str? then Ok(j.s) else Err(WrongType)
  }

  function ReadBool(j: Json): Read<bool> {
    if j.Bool? then Ok(j.b) else Err(WrongType)
  }

  function ReadFloat(floats: Floats, j: Json): Read<real> {
    var tag :- Fields(j, [FLOAT_TAG]);
    var text :- ReadString(tag[0]);
    if floats.fromHex(text).None? then Err(BadValue) else Ok(floats.fromHex(text).value)
  }

  function ReadOptional<T>(j: Json, read: Json -> Read<T>): Read<Option<T>> {
    if j.Null? then Ok(None)
    else
      match read(j)
      case Err(e) => Err(e)
      case Ok(value) => Ok(Some(value))
  }

  function ReadEach<T>(items: Items, read: Json -> Read<T>): Read<seq<T>> {
    match items
    case NoItems => Ok([])
    case Item(head, tail) =>
      match read(head)
      case Err(e) => Err(e)
      case Ok(first) =>
        match ReadEach(tail, read)
        case Err(e) => Err(e)
        case Ok(rest) => Ok([first] + rest)
  }

  function ReadArray<T>(j: Json, read: Json -> Read<T>): Read<seq<T>> {
    if j.Arr? then ReadEach(j.items, read) else Err(WrongType)
  }

  function IntReader(): Json -> Read<int> {
    (j: Json) => ReadInt(j)
  }

  function StringReader(): Json -> Read<string> {
    (j: Json) => ReadString(j)
  }

  function BoolReader(): Json -> Read<bool> {
    (j: Json) => ReadBool(j)
  }

  function FloatReader(floats: Floats): Json -> Read<real> {
    (j: Json) => ReadFloat(floats, j)
  }

  function ReadValidity(j: Json): Read<Validity> {
    var text :- ReadString(j);
    if text == "valid" then Ok(Valid) else if text == "analytic_failure" then Ok(AnalyticFailure) else Err(BadValue)
  }

  function ReadReplicateStatus(j: Json): Read<ReplicateStatus> {
    var text :- ReadString(j);
    if text == "complete" then Ok(ReplicateComplete)
    else if text == "analytic_failure" then Ok(ReplicateFailed)
    else Err(BadValue)
  }

  function ReadRunStatus(j: Json): Read<RunStatus> {
    var text :- ReadString(j);
    if text == "complete" then Ok(Complete) else if text == "not_evaluable" then Ok(NotEvaluable) else Err(BadValue)
  }

  function ScanStageReader(): Json -> Read<ReplicateFailureStage> {
    (j: Json) =>
      match ReadString(j)
      case Err(e) => Err(e)
      case Ok(text) => if text == "statistic_scan" then Ok(StatisticScan) else Err(BadValue)
  }

  function ReadRunStage(j: Json): Read<RunFailureStage> {
    var text :- ReadString(j);
    if text == "null_bind" then Ok(NullBind)
    else if text == "observed_statistic_scan" then Ok(ObservedStatisticScan)
    else if text == "replicate_execution" then Ok(ReplicateExecution)
    else Err(BadValue)
  }

  function RunStageReader(): Json -> Read<RunFailureStage> {
    (j: Json) => ReadRunStage(j)
  }

  function NullNameOf(text: string): Read<NullName> {
    if text == "circular_shift_v2" then Ok(CircularShiftV2)
    else if text == "circular_shift_exact_v1" then Ok(CircularShiftExactV1)
    else if text == "block_shuffle_v2" then Ok(BlockShuffleV2)
    else Err(BadValue)
  }

  /** A record whose constructor refuses what breaks its invariant; unchecked reading skips the constructors. */
  function Built<T>(checked: bool, ok: bool, record: T): Read<T> {
    if checked && !ok then Err(BadValue) else Ok(record)
  }

  function ReadStatisticFields(floats: Floats, checked: bool, f: seq<Json>): Read<StatisticResult>
    requires |f| == 8
  {
    var candidateId :- ReadInt(f[0]);
    var estimate :- ReadOptional(f[1], FloatReader(floats));
    var selectionScore :- ReadOptional(f[2], FloatReader(floats));
    var supportN :- ReadInt(f[3]);
    var validity :- ReadValidity(f[4]);
    var diagnostics :- ReadArray(f[5], StringReader());
    var backend :- ReadString(f[6]);
    var preprocessing :- ReadString(f[7]);
    var s := StatisticResult(candidateId, estimate, selectionScore, supportN, validity, diagnostics, backend,
                             preprocessing);
    Built(checked, StatisticOk(s), s)
  }

  function ReadStatistic(floats: Floats, checked: bool, j: Json): Read<StatisticResult> {
    var f :- Fields(j, STATISTIC_KEYS);
    ReadStatisticFields(floats, checked, f)
  }

  function StatisticReader(floats: Floats, checked: bool): Json -> Read<StatisticResult> {
    (j: Json) => ReadStatistic(floats, checked, j)
  }

  function InsertInt(x: int, xs: seq<int>): seq<int> {
    if xs == [] || x <= xs[0] then [x] + xs else [xs[0]] + InsertInt(x, xs[1..])
  }

  function SortInts(xs: seq<int>): seq<int> {
    if xs == [] then [] else InsertInt(xs[0], SortInts(xs[1..]))
  }

  /** The constructor of a selection sorts its tied candidates. */
  function MakeSelection(checked: bool, raw: SelectionResult): Read<SelectionResult> {
    if !checked then Ok(raw)
    else
      var s := raw.(tiedCandidates := SortInts(raw.tiedCandidates));
      if SelectionOk(s) then Ok(s) else Err(BadValue)
  }

  function ReadSelection(floats: Floats, checked: bool, j: Json): Read<SelectionResult> {
    var f :- Fields(j, SELECTION_KEYS);
    var candidate :- ReadInt(f[0]);
    var index :- ReadInt(f[1]);
    var decision :- ReadFloat(floats, f[2]);
    var tied :- ReadArray(f[3], IntReader());
    MakeSelection(checked, SelectionResult(candidate, index, decision, tied))
  }

  function SelectionReader(floats: Floats, checked: bool): Json -> Read<SelectionResult> {
    (j: Json) => ReadSelection(floats, checked, j)
  }

  function ReadCircular(checked: bool, j: Json): Read<NullState> {
    var f :- Fields(j, CIRCULAR_KEYS);
    var shift :- ReadInt(f[1]);
    Built(checked, StateOk(CircularShiftState(shift)), CircularShiftState(shift))
  }

  function ReadBlock(checked: bool, j: Json): Read<NullState> {
    var f :- Fields(j, BLOCK_KEYS);
    var order :- ReadArray(f[1], IntReader());
    Built(checked, StateOk(BlockShuffleState(order)), BlockShuffleState(order))
  }

  function SchemaOf(j: Json): Read<string> {
    if !j.Obj? then Err(WrongType)
    else if !HasKey(j.members, "schema") then Err(Shape)
    else ReadString(Lookup(j.members, "schema").GetOr(Null))
  }

  /** The schema decides which of the two states is read. */
  function ReadState(checked: bool, j: Json): Read<NullState> {
    var schema :- SchemaOf(j);
    if schema == CIRCULAR_SCHEMA then ReadCircular(checked, j)
    else if schema == BLOCK_SCHEMA then ReadBlock(checked, j)
    else Err(BadValue)
  }

  function ReadTokenFields(checked: bool, f: seq<Json>): Read<Token>
    requires |f| == 8
  {
    var schema :- ReadString(f[0]);
    var nameText :- ReadString(f[1]);
    var parameters :- ReadString(f[2]);
    var semantic :- ReadString(f[3]);
    var plan :- ReadString(f[4]);
    var owner :- ReadString(f[5]);
    var isIdentity :- ReadBool(f[6]);
    var state :- ReadState(checked, f[7]);
    if schema != TOKEN_SCHEMA then Err(BadValue)
    else
      var name :- NullNameOf(nameText);
      var t := Token(name, parameters, semantic, plan, owner, isIdentity, state);
      Built(checked, TokenOk(t), t)
  }

  function ReadToken(checked: bool, j: Json): Read<Token> {
    var f :- Fields(j, TOKEN_KEYS);
    ReadTokenFields(checked, f)
  }

  function TokenReader(checked: bool): Json -> Read<Token> {
    (j: Json) => ReadToken(checked, j)
  }

  /** How the records inside an outcome are read. */
  datatype Readers = Readers(
    token: Json -> Read<Token>,
    statistic: Json -> Read<StatisticResult>,
    selection: Json -> Read<SelectionResult>)

  function PartReaders(floats: Floats, checked: bool): Readers {
    Readers(TokenReader(checked), StatisticReader(floats, checked), SelectionReader(floats, checked))
  }

  function ReadOutcomeFields(parts: Readers, checked: bool, f: seq<Json>): Read<ReplicateOutcome>
    requires |f| == 8
  {
    var id :- ReadInt(f[0]);
    var seed :- ReadString(f[1]);
    var status :- ReadReplicateStatus(f[2]);
    var stage :- ReadOptional(f[3], ScanStageReader());
    var token :- parts.token(f[4]);
    var statistics :- ReadArray(f[5], parts.statistic);
    var selection :- ReadOptional(f[6], parts.selection);
    var diagnostics :- ReadArray(f[7], StringReader());
    var o := ReplicateOutcome(id, seed, status, stage, token, statistics, selection, diagnostics);
    Built(checked, OutcomeOk(o), o)
  }

  function ReadOutcome(floats: Floats, checked: bool, j: Json): Read<ReplicateOutcome> {
    var f :- Fields(j, OUTCOME_KEYS);
    ReadOutcomeFields(PartReaders(floats, checked), checked, f)
  }

  function OutcomeReader(floats: Floats, checked: bool): Json -> Read<ReplicateOutcome> {
    (j: Json) => ReadOutcome(floats, checked, j)
  }

  /** The fields of a result after its schema. */
  function ReadResultFields(parts: Readers, outcome: Json -> Read<ReplicateOutcome>, float: Json -> Read<real>,
                            f: seq<Json>): Read<CalibrationResult>
    requires |f| == 17
  {
    var status :- ReadRunStatus(f[1]);
    var stage :- ReadOptional(f[2], RunStageReader());
    var semantic :- ReadString(f[3]);
    var plan :- ReadString(f[4]);
    var planned :- ReadInt(f[5]);
    var alpha :- float(f[6]);
    var observed :- ReadArray(f[7], parts.statistic);
    var selection :- ReadOptional(f[8], parts.selection);
    var replicates :- ReadArray(f[9], outcome);
    var exceedances :- ReadInt(f[10]);
    var failures :- ReadInt(f[11]);
    var pValue :- ReadOptional(f[12], float);
    var low :- ReadOptional(f[13], float);
    var high :- ReadOptional(f[14], float);
    var reject :- ReadOptional(f[15], BoolReader());
    var diagnostics :- ReadArray(f[16], StringReader());
    Ok(CalibrationResult(status, stage, semantic, plan, planned, alpha, observed, selection, replicates, exceedances,
                         failures, pValue, low, high, reject, diagnostics))
  }

  function ReadResult(floats: Floats, div: Division, checked: bool, j: Json): Read<CalibrationResult> {
    var f :- Fields(j, RESULT_KEYS);
    var schema :- ReadString(f[0]);
    if schema != RESULT_SCHEMA then Err(BadValue)
    else
      var r :- ReadResultFields(PartReaders(floats, checked), OutcomeReader(floats, checked), FloatReader(floats), f);
      Built(checked, ResultOk(div, r), r)
  }

  // ---------------------------------------------------------------- records

  /** The deepest legal path: result, replicates, outcome, statistic results, statistic, float or diagnostics. */
  const WIRE_DEPTH: nat := 6

  /** The JSON document in a record's bytes, behind the depth guard. */
  function ParseRecord(data: seq<nat>): Read<Json> {
    match ScanBytes(WIRE_DEPTH, Start(), data)
    case Err(TooDeep) => Err(Shape)
    case Err(NegativeDepth) => Err(Malformed)
    case Ok(_) =>
      match Utf8.Decode(data)
      case None => Err(Malformed)
      case Some(text) =>
        match ReadDocument(StrictScalars(), text)
        case Err(Syntax) => Err(Malformed)
        case Err(DuplicateKey) => Err(RepeatedKey)
        case Err(RawNumber) => Err(BadValue)
        case Ok(payload) => Ok(payload)
  }

  function Decode(floats: Floats, div: Division, data: seq<nat>, maxBytes: int): Read<CalibrationResult> {
    if maxBytes <= 0 then Err(InvalidLimit)
    else if |data| > maxBytes then Err(SizeLimit)
    else
      var payload :- ParseRecord(data);
      var restored :- ReadResult(floats, div, true, payload);
      if CanonicalBytes(floats, restored) == Some(data) then Ok(restored) else Err(Noncanonical)
  }

  function Encode(floats: Floats, div: Division, r: CalibrationResult, maxBytes: int): Read<seq<nat>> {
    if maxBytes <= 0 then Err(InvalidLimit)
    else
      match CanonicalBytes(floats, r)
      case None => Err(BadValue)
      case Some(data) =>
        if |data| > maxBytes then Err(SizeLimit)
        else
          var _ :- Decode(floats, div, data, maxBytes);
          Ok(data)
  }
}
