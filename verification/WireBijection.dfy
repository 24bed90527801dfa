/** Stored records and valid results correspond one to one. */
module WireBijection {
  import opened Wrappers
  import opened Json
  import opened JsonRoundTrip
  import opened PrintedDepth
  import opened Canonical
  import opened Contracts
  import opened ResultWire
  import opened WireRoundTrip
  import opened WireResults
  import Utf8

  // ---------------------------------------------------------------- what the readers return

  lemma FloatRead(floats: Floats, j: Json, x: real)
    requires floats.Sound() && ReadFloat(floats, j) == Ok(x)
    ensures floats.isFloat(x)
  {
  }

  lemma OptionalFloatRead(floats: Floats, j: Json, x: Option<real>)
    requires floats.Sound() && ReadOptional(j, FloatReader(floats)) == Ok(x)
    ensures OptionalIsFloat(floats, x)
  {
    if x.Some? { FloatRead(floats, j, x.value); }
  }

  lemma StatisticRead(floats: Floats, checked: bool, j: Json, s: StatisticResult)
    requires floats.Sound() && ReadStatistic(floats, checked, j) == Ok(s)
    ensures StatisticFloats(floats, s)
  {
    var f := Fields(j, STATISTIC_KEYS).value;
    OptionalFloatRead(floats, f[1], s.estimate);
    OptionalFloatRead(floats, f[2], s.selectionScore);
  }

  lemma {:induction false} StatisticsRead(floats: Floats, checked: bool, items: Items, results: seq<StatisticResult>)
    requires floats.Sound() && ReadEach(items, StatisticReader(floats, checked)) == Ok(results)
    ensures forall i :: 0 <= i < |results| ==> StatisticFloats(floats, results[i])
  {
    if items.Item? {
      StatisticRead(floats, checked, items.head, results[0]);
      StatisticsRead(floats, checked, items.tail, results[1..]);
    }
  }

  lemma SelectionRead(floats: Floats, checked: bool, j: Json, s: Option<SelectionResult>)
    requires floats.Sound() && ReadOptional(j, SelectionReader(floats, checked)) == Ok(s)
    ensures SelectionFloats(floats, s)
  {
    if s.Some? {
      var f := Fields(j, SELECTION_KEYS).value;
      FloatRead(floats, f[2], s.value.decisionStatistic);
    }
  }

  lemma OutcomeFieldsRead(parts: Readers, checked: bool, f: seq<Json>, o: ReplicateOutcome)
    requires |f| == 8 && ReadOutcomeFields(parts, checked, f) == Ok(o)
    ensures ReadArray(f[5], parts.statistic) == Ok(o.statisticResults)
    ensures ReadOptional(f[6], parts.selection) == Ok(o.selection)
  {
  }

  lemma OutcomeRead(floats: Floats, checked: bool, j: Json, o: ReplicateOutcome)
    requires floats.Sound() && ReadOutcome(floats, checked, j) == Ok(o)
    ensures OutcomeFloats(floats, o)
  {
    var f := Fields(j, OUTCOME_KEYS).value;
    OutcomeFieldsRead(PartReaders(floats, checked), checked, f, o);
    StatisticsRead(floats, checked, f[5].items, o.statisticResults);
    SelectionRead(floats, checked, f[6], o.selection);
  }

  lemma {:induction false} OutcomesRead(floats: Floats, checked: bool, items: Items, outcomes: seq<ReplicateOutcome>)
    requires floats.Sound() && ReadEach(items, OutcomeReader(floats, checked)) == Ok(outcomes)
    ensures forall i :: 0 <= i < |outcomes| ==> OutcomeFloats(floats, outcomes[i])
  {
    if items.Item? {
      OutcomeRead(floats, checked, items.head, outcomes[0]);
      OutcomesRead(floats, checked, items.tail, outcomes[1..]);
    }
  }

  lemma ResultFieldsRead(parts: Readers, outcome: Json -> Read<ReplicateOutcome>, float: Json -> Read<real>,
                         f: seq<Json>, r: CalibrationResult)
    requires |f| == 17 && ReadResultFields(parts, outcome, float, f) == Ok(r)
    ensures float(f[6]) == Ok(r.alpha) && RecordsBack(r, parts, outcome, f)
    ensures ReadOptional(f[12], float) == Ok(r.pValue) && ReadOptional(f[13], float) == Ok(r.exceedanceBoundLow)
    ensures ReadOptional(f[14], float) == Ok(r.exceedanceBoundHigh)
  {
  }

  /** Whatever is read has finite floats for its numbers. */
  lemma ResultRead(floats: Floats, div: Division, checked: bool, j: Json, r: CalibrationResult)
    requires floats.Sound() && ReadResult(floats, div, checked, j) == Ok(r)
    ensures Representable(floats, r) && (checked ==> ResultOk(div, r))
  {
    var f := Fields(j, RESULT_KEYS).value;
    ResultFieldsRead(PartReaders(floats, checked), OutcomeReader(floats, checked), FloatReader(floats), f, r);
    FloatRead(floats, f[6], r.alpha);
    OptionalFloatRead(floats, f[12], r.pValue);
    OptionalFloatRead(floats, f[13], r.exceedanceBoundLow);
    OptionalFloatRead(floats, f[14], r.exceedanceBoundHigh);
    StatisticsRead(floats, checked, f[7].items, r.observedResults);
    SelectionRead(floats, checked, f[8], r.observedSelection);
    OutcomesRead(floats, checked, f[9].items, r.replicates);
  }

  // ---------------------------------------------------------------- records

  /** Any readable document is parsed back from its bytes, unless it nests deeper than six. */
  lemma DocumentParses(j: Json)
    requires Readable(j)
    ensures ParseRecord(Utf8.Encode(Print(j) + "\n")) == if Depth(j) > 6 then Err(Shape) else Ok(j)
  {
    var text := Print(j) + "\n";
    ScanDocument(WIRE_DEPTH, j);
    Utf8.DecodeEncoded(text);
    StrictReadsScalars();
    ReadDocumentPrinted(StrictScalars(), j);
  }

  /** The canonical bytes of a result pass the depth guard and parse to its projection. */
  lemma RecordParses(floats: Floats, div: Division, r: CalibrationResult) returns (data: seq<nat>)
    requires floats.Sound() && Representable(floats, r)
    ensures CanonicalBytes(floats, r) == Some(data)
    ensures ParseRecord(data) == Ok(Normalize(floats, ProjectResult(r)))
  {
    var j := Normalize(floats, ProjectResult(r));
    var text := Print(j) + "\n";
    data := Utf8.Encode(Print(j)) + [10];
    ResultFits(floats, div, r);
    Utf8.EncodeConcat(Print(j), "\n");
    EncodeOne('\n');
    assert data == Utf8.Encode(text);
    NormalizedReadable(floats, ProjectResult(r));
    DocumentParses(j);
  }

  /** Different results never share their bytes, valid or not. */
  lemma BytesInjective(floats: Floats, div: Division, a: CalibrationResult, b: CalibrationResult)
    requires floats.Sound() && Representable(floats, a) && Representable(floats, b)
    requires CanonicalBytes(floats, a) == CanonicalBytes(floats, b)
    ensures a == b
  {
    var dataA := RecordParses(floats, div, a);
    var dataB := RecordParses(floats, div, b);
    ResultBack(floats, div, false, a);
    ResultBack(floats, div, false, b);
  }

  /** Decoding returns r exactly on the canonical bytes of a valid r within the limit. */
  lemma DecodeIff(floats: Floats, div: Division, data: seq<nat>, maxBytes: int, r: CalibrationResult)
    requires floats.Sound()
    ensures Decode(floats, div, data, maxBytes) == Ok(r)
       <==> 0 < maxBytes && |data| <= maxBytes
            && ResultOk(div, r) && Representable(floats, r) && CanonicalBytes(floats, r) == Some(data)
  {
    if Decode(floats, div, data, maxBytes) == Ok(r) {
      ResultRead(floats, div, true, ParseRecord(data).value, r);
    } else if 0 < maxBytes && |data| <= maxBytes && ResultOk(div, r) && Representable(floats, r)
              && CanonicalBytes(floats, r) == Some(data) {
      var canonical := RecordParses(floats, div, r);
      ResultBack(floats, div, true, r);
    }
  }

  /** Encoding succeeds exactly on valid results whose canonical bytes fit, and returns those bytes. */
  lemma EncodeIff(floats: Floats, div: Division, r: CalibrationResult, maxBytes: int, data: seq<nat>)
    requires floats.Sound() && Representable(floats, r)
    ensures Encode(floats, div, r, maxBytes) == Ok(data)
       <==> 0 < maxBytes && |data| <= maxBytes && ResultOk(div, r) && CanonicalBytes(floats, r) == Some(data)
  {
    DecodeIff(floats, div, data, maxBytes, r);
    if Encode(floats, div, r, maxBytes) == Ok(data) {
      var restored := Decode(floats, div, data, maxBytes).value;
      DecodeIff(floats, div, data, maxBytes, restored);
      BytesInjective(floats, div, r, restored);
    }
  }

  /** Decoding undoes encoding, and encoding undoes decoding. */
  lemma EncodeDecode(floats: Floats, div: Division, r: CalibrationResult, maxBytes: int, data: seq<nat>)
    requires floats.Sound() && Representable(floats, r)
    ensures Encode(floats, div, r, maxBytes) == Ok(data) <==> Decode(floats, div, data, maxBytes) == Ok(r)
  {
    EncodeIff(floats, div, r, maxBytes, data);
    DecodeIff(floats, div, data, maxBytes, r);
  }
}
