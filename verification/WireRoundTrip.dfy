/** A stored result decodes to exactly the result that was encoded, and to nothing else. */
module WireRoundTrip {
  import opened Wrappers
  import opened Json
  import opened PrintedDepth
  import opened JsonRecords
  import opened Canonical
  import opened Contracts
  import opened ResultWire
  import Utf8

  // ---------------------------------------------------------------- dictionaries

  lemma {:induction false} DictLookup(floats: Floats, keys: seq<string>, values: seq<Value>, k: nat)
    requires |keys| == |values| && k <= |keys| && KeysLegal(keys)
    ensures KeysAmong(NormalizeEntries(floats, DictFrom(keys, values, k)), keys)
    ensures forall i :: k <= i < |keys| ==>
              HasKey(NormalizeEntries(floats, DictFrom(keys, values, k)), keys[i])
              && Lookup(NormalizeEntries(floats, DictFrom(keys, values, k)), keys[i])
                 == Some(Normalize(floats, values[i]))
    decreases |keys| - k
  {
    if k < |keys| {
      var rest := NormalizeEntries(floats, DictFrom(keys, values, k + 1));
      DictLookup(floats, keys, values, k + 1);
      KeysAmongInserted(keys[k], Normalize(floats, values[k]), rest, keys);
      forall i | k <= i < |keys|
        ensures HasKey(NormalizeEntries(floats, DictFrom(keys, values, k)), keys[i])
        ensures Lookup(NormalizeEntries(floats, DictFrom(keys, values, k)), keys[i])
             == Some(Normalize(floats, values[i]))
      {
        LookupInserted(keys[k], Normalize(floats, values[k]), rest, keys[i]);
      }
    }
  }

  /** A projected record is read back field by field. */
  lemma FieldsOfDict(floats: Floats, keys: seq<string>, values: seq<Value>) returns (f: seq<Json>)
    requires |keys| == |values| && KeysLegal(keys)
    ensures Fields(Normalize(floats, Dict(keys, values)), keys) == Ok(f) && |f| == |keys|
    ensures forall i :: 0 <= i < |keys| ==> f[i] == Normalize(floats, values[i])
  {
    DictLookup(floats, keys, values, 0);
    f := Fields(Normalize(floats, Dict(keys, values)), keys).value;
  }

  /** A value that can be encoded, and whose encoding nests at most d deep. */
  predicate Fits(floats: Floats, v: Value, d: nat) {
    WellFormed(floats, v) && Encodable(v) && Depth(Normalize(floats, v)) <= d
  }

  lemma {:induction false} EntriesFit(floats: Floats, keys: seq<string>, values: seq<Value>, d: nat, k: nat)
    requires |keys| == |values| && k <= |keys| && KeysLegal(keys)
    requires forall i :: 0 <= i < |values| ==> Fits(floats, values[i], d)
    ensures WellFormedEntries(floats, DictFrom(keys, values, k)) && EncodableEntries(DictFrom(keys, values, k))
    ensures MembersDepth(NormalizeEntries(floats, DictFrom(keys, values, k))) <= d
    ensures forall i :: 0 <= i < k ==> !HasEntry(DictFrom(keys, values, k), keys[i])
    decreases |keys| - k
  {
    if k < |keys| {
      EntriesFit(floats, keys, values, d, k + 1);
      DepthInserted(keys[k], Normalize(floats, values[k]), NormalizeEntries(floats, DictFrom(keys, values, k + 1)));
    }
  }

  lemma DictFits(floats: Floats, keys: seq<string>, values: seq<Value>, d: nat)
    requires |keys| == |values| && KeysLegal(keys)
    requires forall i :: 0 <= i < |values| ==> Fits(floats, values[i], d)
    ensures Fits(floats, Dict(keys, values), d + 1)
  {
    EntriesFit(floats, keys, values, d, 0);
  }

  lemma {:induction false} ItemsFit(floats: Floats, items: seq<Value>, d: nat)
    requires forall i :: 0 <= i < |items| ==> Fits(floats, items[i], d)
    ensures ItemsDepth(NormalizeItems(floats, items)) <= d
    decreases |items|
  {
    if items != [] { ItemsFit(floats, items[1..], d); }
  }

  lemma ListFits(floats: Floats, items: seq<Value>, d: nat)
    requires forall i :: 0 <= i < |items| ==> Fits(floats, items[i], d)
    ensures Fits(floats, VList(items), d + 1)
  {
    ItemsFit(floats, items, d);
  }

  lemma FloatFits(floats: Floats, x: real)
    requires floats.isFloat(x)
    ensures Fits(floats, VFloat(x), 1)
  {
    assert MembersDepth(Tagged(floats.hex(x)).members) == 0;
  }

  // ---------------------------------------------------------------- arrays and floats

  lemma {:induction false} ReadEachBack<T>(floats: Floats, values: seq<Value>, read: Json -> Read<T>, xs: seq<T>)
    requires |values| == |xs| && forall i :: 0 <= i < |xs| ==> read(Normalize(floats, values[i])) == Ok(xs[i])
    ensures ReadEach(NormalizeItems(floats, values), read) == Ok(xs)
    decreases |xs|
  {
    if xs != [] {
      ReadEachBack(floats, values[1..], read, xs[1..]);
      assert xs == [xs[0]] + xs[1..];
    }
  }

  lemma ReadStrings(floats: Floats, xs: seq<string>)
    ensures ReadArray(Normalize(floats, Strings(xs)), StringReader()) == Ok(xs)
  {
    ReadEachBack(floats, Strings(xs).items, StringReader(), xs);
  }

  lemma ReadInts(floats: Floats, xs: seq<int>)
    ensures ReadArray(Normalize(floats, Ints(xs)), IntReader()) == Ok(xs)
  {
    ReadEachBack(floats, Ints(xs).items, IntReader(), xs);
  }

  lemma ReadTagged(floats: Floats, x: real)
    requires floats.Sound() && floats.isFloat(x)
    ensures ReadFloat(floats, Normalize(floats, VFloat(x))) == Ok(x)
  {
    var j := Tagged(floats.hex(x));
    assert KeysAmong(j.members, [FLOAT_TAG]);
    assert Lookup(j.members, FLOAT_TAG) == Some(Str(floats.hex(x)));
  }

  predicate OptionalIsFloat(floats: Floats, x: Option<real>) {
    x.Some? ==> floats.isFloat(x.value)
  }

  lemma ReadOptionalFloat(floats: Floats, x: Option<real>)
    requires floats.Sound() && OptionalIsFloat(floats, x)
    ensures ReadOptional(Normalize(floats, OptionalFloat(x)), FloatReader(floats)) == Ok(x)
    ensures Fits(floats, OptionalFloat(x), 1)
  {
    if x.Some? {
      ReadTagged(floats, x.value);
      FloatFits(floats, x.value);
    }
  }

  lemma StringsFit(floats: Floats, xs: seq<string>)
    ensures Fits(floats, Strings(xs), 1)
  {
    ListFits(floats, Strings(xs).items, 0);
  }

  lemma IntsFit(floats: Floats, xs: seq<int>)
    ensures Fits(floats, Ints(xs), 1)
  {
    ListFits(floats, Ints(xs).items, 0);
  }

  // ---------------------------------------------------------------- keys

  lemma StatisticKeysLegal()
    ensures KeysLegal(STATISTIC_KEYS)
  {
    assert "estimate"[0] != "validity"[0] && FLOAT_TAG[0] == '$';
  }

  lemma SelectionKeysLegal()
    ensures KeysLegal(SELECTION_KEYS)
  {
    assert FLOAT_TAG[0] == '$';
  }

  lemma StateKeysLegal()
    ensures KeysLegal(CIRCULAR_KEYS) && KeysLegal(BLOCK_KEYS)
  {
    assert FLOAT_TAG[0] == '$';
  }

  lemma TokenKeysLegal()
    ensures KeysLegal(TOKEN_KEYS)
  {
    assert "null_parameter_sha256"[0] != "semantic_input_sha256"[0] && FLOAT_TAG[0] == '$';
  }

  lemma OutcomeKeysLegal()
    ensures KeysLegal(OUTCOME_KEYS)
  {
    assert FLOAT_TAG[0] == '$';
  }

  lemma ResultKeysLegal()
    ensures KeysLegal(RESULT_KEYS)
  {
    assert "schema"[1] != "status"[1] && "failure_stage"[8] != "failure_count"[8];
    assert "semantic_input_sha256"[0] != "exceedance_bound_high"[0];
    assert "planned_replicates"[0] != "observed_selection"[0];
    assert "observed_results"[0] != "exceedance_count"[0] && "reject_null"[0] != "diagnostics"[0];
    assert FLOAT_TAG[0] == '$';
  }

  // ---------------------------------------------------------------- statistics and selections

  predicate StatisticFloats(floats: Floats, s: StatisticResult) {
    OptionalIsFloat(floats, s.estimate) && OptionalIsFloat(floats, s.selectionScore)
  }

  lemma StatisticFieldsBack(floats: Floats, checked: bool, s: StatisticResult, f: seq<Json>)
    requires floats.Sound() && StatisticFloats(floats, s) && (checked ==> StatisticOk(s))
    requires |f| == 8 && forall i :: 0 <= i < 8 ==> f[i] == Normalize(floats, StatisticValues(s)[i])
    ensures ReadStatisticFields(floats, checked, f) == Ok(s)
  {
    ReadOptionalFloat(floats, s.estimate);
    ReadOptionalFloat(floats, s.selectionScore);
    ReadStrings(floats, s.diagnostics);
  }

  lemma StatisticValuesFit(floats: Floats, s: StatisticResult)
    requires floats.Sound() && StatisticFloats(floats, s)
    ensures forall i :: 0 <= i < 8 ==> Fits(floats, StatisticValues(s)[i], 1)
  {
    ReadOptionalFloat(floats, s.estimate);
    ReadOptionalFloat(floats, s.selectionScore);
    StringsFit(floats, s.diagnostics);
  }

  lemma StatisticBack(floats: Floats, checked: bool, s: StatisticResult)
    requires floats.Sound() && StatisticFloats(floats, s) && (checked ==> StatisticOk(s))
    ensures ReadStatistic(floats, checked, Normalize(floats, ProjectStatistic(s))) == Ok(s)
    ensures Fits(floats, ProjectStatistic(s), 2)
  {
    StatisticKeysLegal();
    StatisticValuesFit(floats, s);
    DictFits(floats, STATISTIC_KEYS, StatisticValues(s), 1);
    var f := FieldsOfDict(floats, STATISTIC_KEYS, StatisticValues(s));
    StatisticFieldsBack(floats, checked, s, f);
  }

  lemma StatisticsBack(floats: Floats, checked: bool, results: seq<StatisticResult>)
    requires floats.Sound() && forall i :: 0 <= i < |results| ==> StatisticFloats(floats, results[i])
    requires checked ==> forall i :: 0 <= i < |results| ==> StatisticOk(results[i])
    ensures ReadArray(Normalize(floats, ProjectStatistics(results)), StatisticReader(floats, checked)) == Ok(results)
    ensures Fits(floats, ProjectStatistics(results), 3)
  {
    var items := ProjectStatistics(results).items;
    forall i | 0 <= i < |results|
      ensures StatisticReader(floats, checked)(Normalize(floats, items[i])) == Ok(results[i])
      ensures Fits(floats, items[i], 2)
    {
      StatisticBack(floats, checked, results[i]);
    }
    ReadEachBack(floats, items, StatisticReader(floats, checked), results);
    ListFits(floats, items, 2);
  }

  lemma {:induction false} SortedStays(xs: seq<int>)
    requires forall i, j :: 0 <= i < j < |xs| ==> xs[i] < xs[j]
    ensures SortInts(xs) == xs
  {
    if xs != [] {
      SortedStays(xs[1..]);
      assert xs == [xs[0]] + xs[1..];
    }
  }

  lemma SelectionBack(floats: Floats, checked: bool, s: SelectionResult)
    requires floats.Sound() && floats.isFloat(s.decisionStatistic) && (checked ==> SelectionOk(s))
    ensures ReadSelection(floats, checked, Normalize(floats, ProjectSelection(s))) == Ok(s)
    ensures Fits(floats, ProjectSelection(s), 2)
  {
    var values := [VInt(s.selectedCandidate), VInt(s.selectedIndex), VFloat(s.decisionStatistic),
                   Ints(s.tiedCandidates)];
    SelectionKeysLegal();
    ReadTagged(floats, s.decisionStatistic);
    FloatFits(floats, s.decisionStatistic);
    ReadInts(floats, s.tiedCandidates);
    IntsFit(floats, s.tiedCandidates);
    if checked { SortedStays(s.tiedCandidates); }
    DictFits(floats, SELECTION_KEYS, values, 1);
    var f := FieldsOfDict(floats, SELECTION_KEYS, values);
  }

  predicate SelectionFloats(floats: Floats, s: Option<SelectionResult>) {
    s.Some? ==> floats.isFloat(s.value.decisionStatistic)
  }

  lemma OptionalSelectionBack(floats: Floats, checked: bool, s: Option<SelectionResult>)
    requires floats.Sound() && SelectionFloats(floats, s) && (checked && s.Some? ==> SelectionOk(s.value))
    ensures ReadOptional(Normalize(floats, OptionalSelection(s)), SelectionReader(floats, checked)) == Ok(s)
    ensures Fits(floats, OptionalSelection(s), 2)
  {
    if s.Some? { SelectionBack(floats, checked, s.value); }
  }

  // ---------------------------------------------------------------- tokens and outcomes

  lemma SchemaBack(floats: Floats, keys: seq<string>, values: seq<Value>, schema: string)
    requires |keys| == |values| > 0 && KeysLegal(keys) && keys[0] == "schema" && values[0] == VStr(schema)
    ensures SchemaOf(Normalize(floats, Dict(keys, values))) == Ok(schema)
  {
    DictLookup(floats, keys, values, 0);
  }

  lemma CircularBack(floats: Floats, checked: bool, shift: int)
    requires checked ==> shift >= 0
    ensures ReadState(checked, Normalize(floats, ProjectState(CircularShiftState(shift))))
         == Ok(CircularShiftState(shift))
    ensures Fits(floats, ProjectState(CircularShiftState(shift)), 1)
  {
    var values := [VStr(CIRCULAR_SCHEMA), VInt(shift)];
    StateKeysLegal();
    SchemaBack(floats, CIRCULAR_KEYS, values, CIRCULAR_SCHEMA);
    DictFits(floats, CIRCULAR_KEYS, values, 0);
    var f := FieldsOfDict(floats, CIRCULAR_KEYS, values);
  }

  lemma ReadBlockBack(floats: Floats, checked: bool, order: seq<int>)
    requires checked ==> StateOk(BlockShuffleState(order))
    ensures ReadBlock(checked, Normalize(floats, ProjectState(BlockShuffleState(order))))
         == Ok(BlockShuffleState(order))
    ensures Fits(floats, ProjectState(BlockShuffleState(order)), 2)
  {
    var values := [VStr(BLOCK_SCHEMA), Ints(order)];
    StateKeysLegal();
    ReadInts(floats, order);
    IntsFit(floats, order);
    DictFits(floats, BLOCK_KEYS, values, 1);
    var f := FieldsOfDict(floats, BLOCK_KEYS, values);
  }

  lemma BlockBack(floats: Floats, checked: bool, order: seq<int>)
    requires checked ==> StateOk(BlockShuffleState(order))
    ensures ReadState(checked, Normalize(floats, ProjectState(BlockShuffleState(order))))
         == Ok(BlockShuffleState(order))
    ensures Fits(floats, ProjectState(BlockShuffleState(order)), 2)
  {
    StateKeysLegal();
    SchemaBack(floats, BLOCK_KEYS, [VStr(BLOCK_SCHEMA), Ints(order)], BLOCK_SCHEMA);
    assert BLOCK_SCHEMA[7] != CIRCULAR_SCHEMA[7];
    ReadBlockBack(floats, checked, order);
  }

  lemma NullNameBack(n: NullName)
    ensures NullNameOf(NullNameText(n)) == Ok(n)
  {
    assert |"circular_shift_v2"| != |"circular_shift_exact_v1"| && |"circular_shift_v2"| != |"block_shuffle_v2"|;
  }

  lemma StateBack(floats: Floats, checked: bool, s: NullState)
    requires checked ==> StateOk(s)
    ensures ReadState(checked, Normalize(floats, ProjectState(s))) == Ok(s)
    ensures Fits(floats, ProjectState(s), 2)
  {
    match s
    case CircularShiftState(shift) => CircularBack(floats, checked, shift);
    case BlockShuffleState(order) => BlockBack(floats, checked, order);
  }

  lemma TokenFieldsBack(floats: Floats, checked: bool, t: Token, f: seq<Json>)
    requires checked ==> TokenOk(t)
    requires |f| == 8 && forall i :: 0 <= i < 8 ==> f[i] == Normalize(floats, TokenValues(t)[i])
    requires ReadState(checked, Normalize(floats, ProjectState(t.state))) == Ok(t.state)
    ensures ReadTokenFields(checked, f) == Ok(t)
  {
    NullNameBack(t.nullName);
  }

  lemma TokenBack(floats: Floats, checked: bool, t: Token)
    requires checked ==> TokenOk(t)
    ensures ReadToken(checked, Normalize(floats, ProjectToken(t))) == Ok(t)
    ensures Fits(floats, ProjectToken(t), 3)
  {
    TokenKeysLegal();
    StateBack(floats, checked, t.state);
    assert forall i :: 0 <= i < 8 ==> Fits(floats, TokenValues(t)[i], 2);
    DictFits(floats, TOKEN_KEYS, TokenValues(t), 2);
    var f := FieldsOfDict(floats, TOKEN_KEYS, TokenValues(t));
    TokenFieldsBack(floats, checked, t, f);
  }

  predicate OutcomeFloats(floats: Floats, o: ReplicateOutcome) {
    && (forall i :: 0 <= i < |o.statisticResults| ==> StatisticFloats(floats, o.statisticResults[i]))
    && SelectionFloats(floats, o.selection)
  }

  lemma OutcomeFieldsBack(parts: Readers, checked: bool, o: ReplicateOutcome, f: seq<Json>)
    requires checked ==> OutcomeOk(o)
    requires |f| == 8 && f[0] == Int(o.replicateId) && f[1] == Str(o.seedDigestSha256)
    requires ReadReplicateStatus(f[2]) == Ok(o.status)
    requires ReadOptional(f[3], ScanStageReader()) == Ok(o.failureStage)
    requires parts.token(f[4]) == Ok(o.transformToken)
    requires ReadArray(f[5], parts.statistic) == Ok(o.statisticResults)
    requires ReadOptional(f[6], parts.selection) == Ok(o.selection)
    requires ReadArray(f[7], StringReader()) == Ok(o.diagnostics)
    ensures ReadOutcomeFields(parts, checked, f) == Ok(o)
  {
  }

  lemma OutcomeEnumsBack(floats: Floats, o: ReplicateOutcome)
    ensures ReadReplicateStatus(Normalize(floats, VStr(ReplicateStatusText(o.status)))) == Ok(o.status)
    ensures ReadOptional(Normalize(floats, OptionalScanStage(o.failureStage)), ScanStageReader()) == Ok(o.failureStage)
  {
    if o.failureStage.Some? { assert o.failureStage.value == StatisticScan; }
  }

  lemma OutcomePartsOk(o: ReplicateOutcome)
    requires OutcomeOk(o)
    ensures TokenOk(o.transformToken) && (o.selection.Some? ==> SelectionOk(o.selection.value))
    ensures forall i :: 0 <= i < |o.statisticResults| ==> StatisticOk(o.statisticResults[i])
  {
  }

  lemma OutcomeValuesFit(floats: Floats, o: ReplicateOutcome)
    requires Fits(floats, ProjectToken(o.transformToken), 3) && Fits(floats, ProjectStatistics(o.statisticResults), 3)
    requires Fits(floats, OptionalSelection(o.selection), 2)
    ensures forall i :: 0 <= i < 8 ==> Fits(floats, OutcomeValues(o)[i], 3)
  {
    StringsFit(floats, o.diagnostics);
  }

  lemma OutcomeFits(floats: Floats, o: ReplicateOutcome)
    requires Fits(floats, ProjectToken(o.transformToken), 3) && Fits(floats, ProjectStatistics(o.statisticResults), 3)
    requires Fits(floats, OptionalSelection(o.selection), 2)
    ensures Fits(floats, ProjectOutcome(o), 4)
  {
    OutcomeKeysLegal();
    OutcomeValuesFit(floats, o);
    DictFits(floats, OUTCOME_KEYS, OutcomeValues(o), 3);
  }

  /** The fields of a projected outcome, each read back by its reader. */
  lemma OutcomePartsBack(floats: Floats, checked: bool, o: ReplicateOutcome, parts: Readers)
    requires floats.Sound() && OutcomeFloats(floats, o) && (checked ==> OutcomeOk(o))
    requires parts == PartReaders(floats, checked)
    ensures parts.token(Normalize(floats, ProjectToken(o.transformToken))) == Ok(o.transformToken)
    ensures ReadArray(Normalize(floats, ProjectStatistics(o.statisticResults)), parts.statistic)
         == Ok(o.statisticResults)
    ensures ReadOptional(Normalize(floats, OptionalSelection(o.selection)), parts.selection) == Ok(o.selection)
    ensures Fits(floats, ProjectOutcome(o), 4)
  {
    if checked { OutcomePartsOk(o); }
    TokenBack(floats, checked, o.transformToken);
    StatisticsBack(floats, checked, o.statisticResults);
    OptionalSelectionBack(floats, checked, o.selection);
    OutcomeFits(floats, o);
  }

  lemma OutcomeDictBack(floats: Floats, checked: bool, o: ReplicateOutcome, parts: Readers)
      returns (f: seq<Json>)
    requires checked ==> OutcomeOk(o)
    requires parts.token(Normalize(floats, ProjectToken(o.transformToken))) == Ok(o.transformToken)
    requires ReadArray(Normalize(floats, ProjectStatistics(o.statisticResults)), parts.statistic)
          == Ok(o.statisticResults)
    requires ReadOptional(Normalize(floats, OptionalSelection(o.selection)), parts.selection) == Ok(o.selection)
    ensures Fields(Normalize(floats, ProjectOutcome(o)), OUTCOME_KEYS) == Ok(f) && |f| == 8
    ensures ReadOutcomeFields(parts, checked, f) == Ok(o)
  {
    OutcomeEnumsBack(floats, o);
    ReadStrings(floats, o.diagnostics);
    OutcomeKeysLegal();
    f := FieldsOfDict(floats, OUTCOME_KEYS, OutcomeValues(o));
    OutcomeFieldsBack(parts, checked, o, f);
  }

  lemma OutcomeBack(floats: Floats, checked: bool, o: ReplicateOutcome)
    requires floats.Sound() && OutcomeFloats(floats, o) && (checked ==> OutcomeOk(o))
    ensures ReadOutcome(floats, checked, Normalize(floats, ProjectOutcome(o))) == Ok(o)
    ensures Fits(floats, ProjectOutcome(o), 4)
  {
    var parts := PartReaders(floats, checked);
    OutcomePartsBack(floats, checked, o, parts);
    var f := OutcomeDictBack(floats, checked, o, parts);
  }

  lemma OutcomesBack(floats: Floats, checked: bool, outcomes: seq<ReplicateOutcome>)
    requires floats.Sound() && forall i :: 0 <= i < |outcomes| ==> OutcomeFloats(floats, outcomes[i])
    requires checked ==> forall i :: 0 <= i < |outcomes| ==> OutcomeOk(outcomes[i])
    ensures ReadArray(Normalize(floats, ProjectOutcomes(outcomes)), OutcomeReader(floats, checked)) == Ok(outcomes)
    ensures Fits(floats, ProjectOutcomes(outcomes), 5)
  {
    var items := ProjectOutcomes(outcomes).items;
    forall i | 0 <= i < |outcomes|
      ensures OutcomeReader(floats, checked)(Normalize(floats, items[i])) == Ok(outcomes[i])
      ensures Fits(floats, items[i], 4)
    {
      OutcomeBack(floats, checked, outcomes[i]);
    }
    ReadEachBack(floats, items, OutcomeReader(floats, checked), outcomes);
    ListFits(floats, items, 4);
  }
}
