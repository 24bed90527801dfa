/** Encoding and decoding whole results: what is accepted, and that nothing is lost. */
module WireResults {
  import opened Wrappers
  import opened Json
  import opened Canonical
  import opened Contracts
  import opened ResultWire
  import opened WireRoundTrip
  import Utf8

  /** Every number of the result is a finite float. */
  predicate Representable(floats: Floats, r: CalibrationResult) {
    && floats.isFloat(r.alpha)
    && OptionalIsFloat(floats, r.pValue) && OptionalIsFloat(floats, r.exceedanceBoundLow)
    && OptionalIsFloat(floats, r.exceedanceBoundHigh)
    && (forall i :: 0 <= i < |r.observedResults| ==> StatisticFloats(floats, r.observedResults[i]))
    && SelectionFloats(floats, r.observedSelection)
    && (forall i :: 0 <= i < |r.replicates| ==> OutcomeFloats(floats, r.replicates[i]))
  }

  lemma ResultPartsOk(div: Division, r: CalibrationResult)
    requires ResultOk(div, r)
    ensures forall i :: 0 <= i < |r.observedResults| ==> StatisticOk(r.observedResults[i])
    ensures r.observedSelection.Some? ==> SelectionOk(r.observedSelection.value)
    ensures forall i :: 0 <= i < |r.replicates| ==> OutcomeOk(r.replicates[i])
  {
  }

  lemma StatusBack(floats: Floats, s: RunStatus)
    ensures ReadRunStatus(Normalize(floats, VStr(RunStatusText(s)))) == Ok(s)
  {
    assert |"complete"| != |"not_evaluable"|;
  }

  lemma RunStageBack(floats: Floats, s: Option<RunFailureStage>)
    ensures ReadOptional(Normalize(floats, OptionalRunStage(s)), RunStageReader()) == Ok(s)
  {
    assert |"null_bind"| != |"replicate_execution"| && |"observed_statistic_scan"| != |"replicate_execution"|;
  }

  lemma RejectBack(floats: Floats, b: Option<bool>)
    ensures ReadOptional(Normalize(floats, OptionalBool(b)), BoolReader()) == Ok(b)
  {
  }

  /** The scalar fields before the retained records. */
  ghost predicate HeadBack(r: CalibrationResult, float: Json -> Read<real>, f: seq<Json>)
    requires |f| == 17
  {
    && f[0] == Str(RESULT_SCHEMA) && ReadRunStatus(f[1]) == Ok(r.status)
    && ReadOptional(f[2], RunStageReader()) == Ok(r.failureStage)
    && f[3] == Str(r.semanticInputSha256) && f[4] == Str(r.scientificPlanSha256)
    && f[5] == Int(r.plannedReplicates) && float(f[6]) == Ok(r.alpha)
  }

  ghost predicate RecordsBack(r: CalibrationResult, parts: Readers, outcome: Json -> Read<ReplicateOutcome>,
                              f: seq<Json>)
    requires |f| == 17
  {
    && ReadArray(f[7], parts.statistic) == Ok(r.observedResults)
    && ReadOptional(f[8], parts.selection) == Ok(r.observedSelection)
    && ReadArray(f[9], outcome) == Ok(r.replicates)
  }

  /** The counts and the decision after the retained records. */
  ghost predicate TailBack(r: CalibrationResult, float: Json -> Read<real>, f: seq<Json>)
    requires |f| == 17
  {
    && f[10] == Int(r.exceedanceCount) && f[11] == Int(r.failureCount)
    && ReadOptional(f[12], float) == Ok(r.pValue)
    && ReadOptional(f[13], float) == Ok(r.exceedanceBoundLow)
    && ReadOptional(f[14], float) == Ok(r.exceedanceBoundHigh)
    && ReadOptional(f[15], BoolReader()) == Ok(r.rejectNull)
    && ReadArray(f[16], StringReader()) == Ok(r.diagnostics)
  }

  lemma ResultFieldsBack(parts: Readers, outcome: Json -> Read<ReplicateOutcome>, float: Json -> Read<real>,
                         r: CalibrationResult, f: seq<Json>)
    requires |f| == 17 && HeadBack(r, float, f) && RecordsBack(r, parts, outcome, f) && TailBack(r, float, f)
    ensures ReadResultFields(parts, outcome, float, f) == Ok(r)
  {
  }

  /** What is to be known of the readers of a result's parts. */
  ghost predicate PartsBack(floats: Floats, r: CalibrationResult, parts: Readers,
                            outcome: Json -> Read<ReplicateOutcome>, float: Json -> Read<real>) {
    && ReadArray(Normalize(floats, ProjectStatistics(r.observedResults)), parts.statistic) == Ok(r.observedResults)
    && ReadOptional(Normalize(floats, OptionalSelection(r.observedSelection)), parts.selection)
       == Ok(r.observedSelection)
    && ReadArray(Normalize(floats, ProjectOutcomes(r.replicates)), outcome) == Ok(r.replicates)
    && float(Normalize(floats, VFloat(r.alpha))) == Ok(r.alpha)
    && ReadOptional(Normalize(floats, OptionalFloat(r.pValue)), float) == Ok(r.pValue)
    && ReadOptional(Normalize(floats, OptionalFloat(r.exceedanceBoundLow)), float) == Ok(r.exceedanceBoundLow)
    && ReadOptional(Normalize(floats, OptionalFloat(r.exceedanceBoundHigh)), float) == Ok(r.exceedanceBoundHigh)
  }

  lemma ResultPartsBack(floats: Floats, div: Division, checked: bool, r: CalibrationResult)
    requires floats.Sound() && Representable(floats, r) && (checked ==> ResultOk(div, r))
    ensures PartsBack(floats, r, PartReaders(floats, checked), OutcomeReader(floats, checked), FloatReader(floats))
    ensures Fits(floats, ProjectStatistics(r.observedResults), 3) && Fits(floats, ProjectOutcomes(r.replicates), 5)
    ensures Fits(floats, OptionalSelection(r.observedSelection), 2)
  {
    if checked { ResultPartsOk(div, r); }
    StatisticsBack(floats, checked, r.observedResults);
    OptionalSelectionBack(floats, checked, r.observedSelection);
    OutcomesBack(floats, checked, r.replicates);
    ReadTagged(floats, r.alpha);
    ReadOptionalFloat(floats, r.pValue);
    ReadOptionalFloat(floats, r.exceedanceBoundLow);
    ReadOptionalFloat(floats, r.exceedanceBoundHigh);
  }

  lemma HeadFields(floats: Floats, r: CalibrationResult, float: Json -> Read<real>, f: seq<Json>)
    requires |f| == 17 && float(Normalize(floats, VFloat(r.alpha))) == Ok(r.alpha)
    requires forall i :: 0 <= i < 7 ==> f[i] == Normalize(floats, ResultValues(r)[i])
    ensures HeadBack(r, float, f)
  {
    hide RunStatusText, OptionalRunStage, ReadOptional, ReadRunStatus, RunStageReader;
    StatusBack(floats, r.status);
    RunStageBack(floats, r.failureStage);
    var v := ResultValues(r);
    assert v[0] == VStr(RESULT_SCHEMA) && v[1] == VStr(RunStatusText(r.status));
    assert v[2] == OptionalRunStage(r.failureStage);
    assert v[3] == VStr(r.semanticInputSha256) && v[4] == VStr(r.scientificPlanSha256);
    assert v[5] == VInt(r.plannedReplicates) && v[6] == VFloat(r.alpha);
    hide ResultValues;
    assert f[0] == Normalize(floats, v[0]) && f[1] == Normalize(floats, v[1]) && f[2] == Normalize(floats, v[2]);
    assert f[3] == Normalize(floats, v[3]) && f[4] == Normalize(floats, v[4]);
    assert f[5] == Normalize(floats, v[5]) && f[6] == Normalize(floats, v[6]);
  }

  lemma RecordFields(floats: Floats, r: CalibrationResult, parts: Readers,
                     outcome: Json -> Read<ReplicateOutcome>, float: Json -> Read<real>, f: seq<Json>)
    requires |f| == 17 && PartsBack(floats, r, parts, outcome, float)
    requires forall i :: 7 <= i < 10 ==> f[i] == Normalize(floats, ResultValues(r)[i])
    ensures RecordsBack(r, parts, outcome, f)
  {
  }

  lemma TailFields(floats: Floats, r: CalibrationResult, parts: Readers,
                   outcome: Json -> Read<ReplicateOutcome>, float: Json -> Read<real>, f: seq<Json>)
    requires |f| == 17 && PartsBack(floats, r, parts, outcome, float)
    requires forall i :: 10 <= i < 17 ==> f[i] == Normalize(floats, ResultValues(r)[i])
    ensures TailBack(r, float, f)
  {
    RejectBack(floats, r.rejectNull);
    ReadStrings(floats, r.diagnostics);
  }

  lemma ResultDictBack(floats: Floats, r: CalibrationResult, parts: Readers,
                       outcome: Json -> Read<ReplicateOutcome>, float: Json -> Read<real>) returns (f: seq<Json>)
    requires PartsBack(floats, r, parts, outcome, float)
    ensures Fields(Normalize(floats, ProjectResult(r)), RESULT_KEYS) == Ok(f) && |f| == 17
    ensures HeadBack(r, float, f) && RecordsBack(r, parts, outcome, f) && TailBack(r, float, f)
  {
    ResultKeysLegal();
    f := FieldsOfDict(floats, RESULT_KEYS, ResultValues(r));
    HeadFields(floats, r, float, f);
    RecordFields(floats, r, parts, outcome, float, f);
    TailFields(floats, r, parts, outcome, float, f);
  }

  /** A projected result is read back whole; the constructors refuse nothing of a valid one. */
  lemma ResultBack(floats: Floats, div: Division, checked: bool, r: CalibrationResult)
    requires floats.Sound() && Representable(floats, r) && (checked ==> ResultOk(div, r))
    ensures ReadResult(floats, div, checked, Normalize(floats, ProjectResult(r))) == Ok(r)
  {
    var parts, outcome, float := PartReaders(floats, checked), OutcomeReader(floats, checked), FloatReader(floats);
    ResultPartsBack(floats, div, checked, r);
    var f := ResultDictBack(floats, r, parts, outcome, float);
    ResultFieldsBack(parts, outcome, float, r, f);
  }

  lemma ResultValuesFit(floats: Floats, r: CalibrationResult)
    requires floats.Sound() && Representable(floats, r)
    requires Fits(floats, ProjectStatistics(r.observedResults), 3) && Fits(floats, ProjectOutcomes(r.replicates), 5)
    requires Fits(floats, OptionalSelection(r.observedSelection), 2)
    ensures forall i :: 0 <= i < 17 ==> Fits(floats, ResultValues(r)[i], 5)
  {
    FloatFits(floats, r.alpha);
    ReadOptionalFloat(floats, r.pValue);
    ReadOptionalFloat(floats, r.exceedanceBoundLow);
    ReadOptionalFloat(floats, r.exceedanceBoundHigh);
    StringsFit(floats, r.diagnostics);
  }

  /** No projected result nests more than six containers deep. */
  lemma ResultFits(floats: Floats, div: Division, r: CalibrationResult)
    requires floats.Sound() && Representable(floats, r)
    ensures Fits(floats, ProjectResult(r), 6)
  {
    ResultPartsBack(floats, div, false, r);
    ResultValuesFit(floats, r);
    ResultKeysLegal();
    DictFits(floats, RESULT_KEYS, ResultValues(r), 5);
  }
}
