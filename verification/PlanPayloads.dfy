/** The plan payloads a migration flattens, and the status of every field of its ledger. */
module PlanPayloads {
  import opened Wrappers
  import opened JsonRecords
  import opened Canonical
  import opened Dictionaries
  import opened FlatPayload
  import opened Requests
  import opened Migration

  // ---------------------------------------------------------------- records in key order

  predicate Increasing(keys: seq<string>) {
    forall i :: 0 <= i < |keys| - 1 ==> Before(keys[i], keys[i + 1])
  }

  /** Keys of the payloads: nonempty words of lower-case letters and underscores. */
  predicate Word(key: string) {
    key != "" && forall i :: 0 <= i < |key| ==> 'a' <= key[i] <= 'z' || key[i] == '_'
  }

  predicate Words(keys: seq<string>) {
    forall i :: 0 <= i < |keys| ==> Word(keys[i])
  }

  predicate PlainKeys(keys: seq<string>) {
    Increasing(keys) && Words(keys)
  }

  lemma {:induction false} IncreasingBefore(keys: seq<string>, i: nat, j: nat)
    requires Increasing(keys) && i < j < |keys|
    ensures Before(keys[i], keys[j])
    decreases j
  {
    if i < j - 1 {
      IncreasingBefore(keys, i, j - 1);
      BeforeTransitive(keys[i], keys[j - 1], keys[j]);
    }
  }

  lemma PlainIsLegal(keys: seq<string>)
    requires PlainKeys(keys)
    ensures KeysLegal(keys)
  {
    forall i, j | 0 <= i < j < |keys| ensures keys[i] != keys[j] {
      IncreasingBefore(keys, i, j);
      BeforeIrreflexive(keys[i]);
    }
    if i :| 0 <= i < |keys| && keys[i] == FLOAT_TAG {
      assert FLOAT_TAG[0] == '$';
    }
  }

  lemma {:induction false} DictSorted(keys: seq<string>, values: seq<Value>, k: nat)
    requires |keys| == |values| && k <= |keys| && Increasing(keys)
    ensures Sorted(DictFrom(keys, values, k))
    decreases |keys| - k
  {
    if k < |keys| { DictSorted(keys, values, k + 1); }
  }

  lemma {:induction false} DictMisses(keys: seq<string>, values: seq<Value>, k: nat, q: string)
    requires |keys| == |values| && k <= |keys| && q !in keys
    ensures Find(DictFrom(keys, values, k), q).None?
    decreases |keys| - k
  {
    if k < |keys| { DictMisses(keys, values, k + 1, q); }
  }

  /** Every key of the value and of the values in it is a word, and its dictionaries are in key order. */
  predicate Plain(v: Value)
    decreases v
  {
    v.VDict? ==> Sorted(v.entries) && PlainEntries(v.entries)
  }

  predicate PlainEntries(entries: Entries)
    decreases entries
  {
    match entries
    case NoEntries => true
    case Entry(key, value, rest) => Word(key) && Plain(value) && PlainEntries(rest)
  }

  lemma {:induction false} DictPlainFrom(keys: seq<string>, values: seq<Value>, k: nat)
    requires |keys| == |values| && k <= |keys| && PlainKeys(keys)
    requires forall i :: 0 <= i < |values| ==> Plain(values[i])
    ensures PlainEntries(DictFrom(keys, values, k))
    decreases |keys| - k
  {
    if k < |keys| { DictPlainFrom(keys, values, k + 1); }
  }

  lemma DictPlain(keys: seq<string>, values: seq<Value>)
    requires |keys| == |values| && PlainKeys(keys) && forall i :: 0 <= i < |values| ==> Plain(values[i])
    ensures Plain(Dict(keys, values))
  {
    DictSorted(keys, values, 0);
    DictPlainFrom(keys, values, 0);
  }

  lemma {:induction false} PlainIsSafe(v: Value)
    requires Plain(v)
    ensures PathSafe(v)
    decreases v, 1
  {
    if v.VDict? { PlainEntriesSafe(v.entries); }
  }

  lemma {:induction false} PlainEntriesSafe(entries: Entries)
    requires PlainEntries(entries)
    ensures PathSafeEntries(entries) && Find(entries, "").None?
    decreases entries, 0
  {
    if entries.Entry? {
      PlainIsSafe(entries.value);
      PlainEntriesSafe(entries.rest);
    }
  }

  /** A nonempty plain object flattens without loss. */
  lemma PlainPayloadSafe(v: Value)
    requires Plain(v) && IsBranch(v)
    ensures PayloadSafe(v)
  {
    PlainIsSafe(v);
    PlainEntriesSafe(v.entries);
  }

  // ---------------------------------------------------------------- the payloads

  /** The parameters the registered statistics and v1 null models accept. */
  predicate Registered(r: PlanRequest) {
    && ((r.statisticName == "lagged_pearson_v1" && r.statisticParams == VDict(NoEntries))
        || (r.statisticName == "equal_width_binned_nette_v1" && IsSetting(r.statisticParams, "bins", 2)))
    && ((r.nullName == "circular_shift_v1" && IsSetting(r.nullParams, "min_shift", 1))
        || (r.nullName == "block_shuffle_v1" && IsSetting(r.nullParams, "block_length", 1)))
  }

  /** An object with one integer setting. */
  predicate IsSetting(v: Value, key: string, least: int) {
    v.VDict? && v.entries.Entry? && v.entries.rest.NoEntries? && v.entries.key == key
    && v.entries.value.VInt? && v.entries.value.i >= least
  }

  const NAMED_KEYS := ["name", "params"]
  const SELECTION_KEYS := ["rule", "tie_tolerance"]
  const SELECTION_KEYS_V2 := ["decision_contract", "rule", "tie_tolerance"]
  const PLAN_KEYS := [
    "alpha", "candidates", "common_support", "failure_policy", "null", "replicates", "rng_contract", "root_seed",
    "schema", "selection", "statistic"]
  const PLAN_KEYS_V2 := [
    "alpha", "calibration_contract", "candidates", "common_support", "failure_contract", "null", "replicates",
    "rng_contract", "root_seed", "schema", "selection", "statistic"]

  const COMMON_SUPPORT := "max_candidate_lag_v1"
  const SCHEMA := "selcal.scientific-plan.v1"
  const SCHEMA_V2 := "selcal.scientific-plan.v2"
  const RNG_CONTRACT := "sha256-to-pcg64-v1"
  const RNG_CONTRACT_V2 := "sha256_framed_plan_rid_stream_to_pcg64_raw64_v1"
  const CALIBRATION_CONTRACT := "full_reselection_global_mc_plus_one_v2"
  const FAILURE_CONTRACT := "exact_b_fail_closed_v2"
  const DECISION_CONTRACT := "family_max_with_canonical_tie_label_v2"

  function Named(name: string, params: Value): Value {
    Dict(NAMED_KEYS, [VStr(name), params])
  }

  function PlanValues(r: PlanRequest): (values: seq<Value>)
    ensures |values| == 11
  {
    [VFloat(r.alpha), Ints(r.candidates), VStr(COMMON_SUPPORT), VStr(r.failurePolicy), Named(r.nullName, r.nullParams),
     VInt(r.replicates), VStr(RNG_CONTRACT), VInt(r.rootSeed), VStr(SCHEMA),
     Dict(SELECTION_KEYS, [VStr(r.selectionRule), VFloat(r.tieTolerance)]), Named(r.statisticName, r.statisticParams)]
  }

  function PlanPayload(r: PlanRequest): Value {
    Dict(PLAN_KEYS, PlanValues(r))
  }

  function PlanValuesV2(r: PlanRequestV2): (values: seq<Value>)
    ensures |values| == 12
  {
    [VFloat(r.alpha), VStr(CALIBRATION_CONTRACT), Ints(r.candidates), VStr(COMMON_SUPPORT), VStr(FAILURE_CONTRACT),
     Named(r.nullName, r.nullParams), VInt(r.replicates), VStr(RNG_CONTRACT_V2), VInt(r.rootSeed), VStr(SCHEMA_V2),
     Dict(SELECTION_KEYS_V2, [VStr(DECISION_CONTRACT), VStr(r.selectionRule), VFloat(r.tieTolerance)]),
     Named(r.statisticName, r.statisticParams)]
  }

  function PlanPayloadV2(r: PlanRequestV2): Value {
    Dict(PLAN_KEYS_V2, PlanValuesV2(r))
  }

  // ---------------------------------------------------------------- their keys

  /** Strings that first differ at position k. */
  lemma {:induction false} BeforeAt(a: string, b: string, k: nat)
    requires k < |a| && k < |b| && a[..k] == b[..k] && a[k] < b[k]
    ensures Before(a, b)
  {
    if k > 0 {
      assert a[0] == a[..k][0] == b[..k][0] == b[0];
      assert a[1..][..k - 1] == a[..k][1..] == b[..k][1..] == b[1..][..k - 1];
      BeforeAt(a[1..], b[1..], k - 1);
    }
  }

  lemma NamedKeysPlain()
    ensures PlainKeys(NAMED_KEYS)
  {
    BeforeAt("name", "params", 0);
  }

  lemma SelectionKeysPlain()
    ensures PlainKeys(SELECTION_KEYS)
  {
    BeforeAt("rule", "tie_tolerance", 0);
  }

  lemma SelectionKeysV2Plain()
    ensures PlainKeys(SELECTION_KEYS_V2)
  {
    SelectionKeysPlain();
    assert Word("decision_contract");
    BeforeAt("decision_contract", "rule", 0);
  }

  lemma InnerKeysPlain()
    ensures PlainKeys(NAMED_KEYS) && PlainKeys(SELECTION_KEYS) && PlainKeys(SELECTION_KEYS_V2)
  {
    NamedKeysPlain();
    SelectionKeysPlain();
    SelectionKeysV2Plain();
  }

  lemma SharedWords()
    ensures Word("alpha") && Word("candidates") && Word("common_support") && Word("null") && Word("replicates")
  {
  }

  lemma MoreSharedWords()
    ensures Word("rng_contract") && Word("root_seed") && Word("schema") && Word("selection") && Word("statistic")
  {
  }

  lemma PlanKeysAreWords()
    ensures Words(PLAN_KEYS)
  {
    SharedWords();
    MoreSharedWords();
    assert Word("failure_policy");
  }

  lemma PlanKeysV2AreWords()
    ensures Words(PLAN_KEYS_V2)
  {
    SharedWords();
    MoreSharedWords();
    assert Word("calibration_contract");
    assert Word("failure_contract");
  }

  lemma PlanKeysIncrease()
    ensures Increasing(PLAN_KEYS)
  {
    BeforeAt("alpha", "candidates", 0);
    BeforeAt("candidates", "common_support", 1);
    BeforeAt("common_support", "failure_policy", 0);
    BeforeAt("failure_policy", "null", 0);
    BeforeAt("null", "replicates", 0);
    BeforeAt("replicates", "rng_contract", 1);
    BeforeAt("rng_contract", "root_seed", 1);
    BeforeAt("root_seed", "schema", 0);
    BeforeAt("schema", "selection", 1);
    BeforeAt("selection", "statistic", 1);
  }

  lemma PlanKeysV2Increase()
    ensures Increasing(PLAN_KEYS_V2)
  {
    BeforeAt("alpha", "calibration_contract", 0);
    BeforeAt("calibration_contract", "candidates", 2);
    BeforeAt("candidates", "common_support", 1);
    BeforeAt("common_support", "failure_contract", 0);
    BeforeAt("failure_contract", "null", 0);
    BeforeAt("null", "replicates", 0);
    BeforeAt("replicates", "rng_contract", 1);
    BeforeAt("rng_contract", "root_seed", 1);
    BeforeAt("root_seed", "schema", 0);
    BeforeAt("schema", "selection", 1);
    BeforeAt("selection", "statistic", 1);
  }

  lemma NamedPlain(name: string, params: Value)
    requires Plain(params)
    ensures Plain(Named(name, params))
  {
    InnerKeysPlain();
    DictPlain(NAMED_KEYS, [VStr(name), params]);
  }

  lemma ParamsPlain(r: PlanRequest)
    requires Registered(r)
    ensures Plain(r.statisticParams) && Plain(r.nullParams)
  {
    assert Word("bins") && Word("min_shift") && Word("block_length");
  }

  predicate AllPlain(values: seq<Value>) {
    forall i :: 0 <= i < |values| ==> Plain(values[i])
  }

  lemma PlanValuesPlain(r: PlanRequest)
    requires Plain(r.statisticParams) && Plain(r.nullParams)
    ensures AllPlain(PlanValues(r))
  {
    InnerKeysPlain();
    NamedPlain(r.nullName, r.nullParams);
    NamedPlain(r.statisticName, r.statisticParams);
    DictPlain(SELECTION_KEYS, [VStr(r.selectionRule), VFloat(r.tieTolerance)]);
  }

  lemma PlanValuesV2Plain(r: PlanRequestV2)
    requires Plain(r.statisticParams) && Plain(r.nullParams)
    ensures AllPlain(PlanValuesV2(r))
  {
    InnerKeysPlain();
    NamedPlain(r.nullName, r.nullParams);
    NamedPlain(r.statisticName, r.statisticParams);
    DictPlain(SELECTION_KEYS_V2, [VStr(DECISION_CONTRACT), VStr(r.selectionRule), VFloat(r.tieTolerance)]);
  }

  lemma PayloadPlain(keys: seq<string>, values: seq<Value>)
    requires |keys| == |values| > 0 && PlainKeys(keys) && AllPlain(values)
    ensures Plain(Dict(keys, values)) && PayloadSafe(Dict(keys, values))
  {
    DictPlain(keys, values);
    PlainPayloadSafe(Dict(keys, values));
  }

  lemma PlanSafe(r: PlanRequest)
    requires Plain(r.statisticParams) && Plain(r.nullParams)
    ensures PayloadSafe(PlanPayload(r)) && Plain(PlanPayload(r))
  {
    PlanKeysAreWords();
    PlanKeysIncrease();
    PlanValuesPlain(r);
    PayloadPlain(PLAN_KEYS, PlanValues(r));
  }

  lemma PlanSafeV2(r: PlanRequestV2)
    requires Plain(r.statisticParams) && Plain(r.nullParams)
    ensures PayloadSafe(PlanPayloadV2(r)) && Plain(PlanPayloadV2(r))
  {
    PlanKeysV2AreWords();
    PlanKeysV2Increase();
    PlanValuesV2Plain(r);
    PayloadPlain(PLAN_KEYS_V2, PlanValuesV2(r));
  }

  /** Both payloads of a registered request flatten without loss. */
  lemma PayloadsSafe(r: PlanRequest, v2: PlanRequestV2)
    requires Registered(r) && Migrate(r) == Ok(v2)
    ensures PayloadSafe(PlanPayload(r)) && PayloadSafe(PlanPayloadV2(v2))
    ensures Plain(PlanPayload(r)) && Plain(PlanPayloadV2(v2))
  {
    ParamsPlain(r);
    PlanSafe(r);
    PlanSafeV2(v2);
  }

  // ---------------------------------------------------------------- their leaves

  lemma DictLeaf(keys: seq<string>, values: seq<Value>, t: seq<string>, i: nat)
    requires |keys| == |values| && PlainKeys(keys) && i < |keys| && t != [] && t[0] == keys[i]
    ensures LeafAt(Dict(keys, values), t) == LeafAt(values[i], t[1..])
  {
    PlainIsLegal(keys);
    FindInDict(keys, values, 0, i);
    LeafBelowKey(DictFrom(keys, values, 0), t);
  }

  lemma DictNoLeaf(keys: seq<string>, values: seq<Value>, t: seq<string>)
    requires |keys| == |values| > 0 && (t == [] || t[0] !in keys)
    ensures LeafAt(Dict(keys, values), t).None?
  {
    if t != [] { DictMisses(keys, values, 0, t[0]); }
    NoLeafElsewhere(DictFrom(keys, values, 0), t);
  }

  lemma PlanLeaf(r: PlanRequest, t: seq<string>, i: nat)
    requires i < 11 && t != [] && t[0] == PLAN_KEYS[i]
    ensures LeafAt(PlanPayload(r), t) == LeafAt(PlanValues(r)[i], t[1..])
  {
    PlanKeysAreWords();
    PlanKeysIncrease();
    DictLeaf(PLAN_KEYS, PlanValues(r), t, i);
  }

  lemma PlanLeafV2(r: PlanRequestV2, t: seq<string>, i: nat)
    requires i < 12 && t != [] && t[0] == PLAN_KEYS_V2[i]
    ensures LeafAt(PlanPayloadV2(r), t) == LeafAt(PlanValuesV2(r)[i], t[1..])
  {
    PlanKeysV2AreWords();
    PlanKeysV2Increase();
    DictLeaf(PLAN_KEYS_V2, PlanValuesV2(r), t, i);
  }

  /** The segments of every path a migration changes, adds or removes. */
  const MOVED := [
    ["calibration_contract"], ["failure_contract"], ["failure_policy"], ["null", "name"], ["rng_contract"], ["schema"],
    ["selection", "decision_contract"]]

  /** Both payloads have the same leaf there, or none. */
  predicate SameLeaf(r: PlanRequest, v2: PlanRequestV2, t: seq<string>) {
    LeafAt(PlanPayload(r), t) == LeafAt(PlanPayloadV2(v2), t)
  }

  /** Fields with a string on one side or both have no leaf below it. */
  lemma StringLeaf(s: string, t: seq<string>)
    ensures LeafAt(VStr(s), t) == if t == [] then Some(VStr(s)) else None
  {
  }

  lemma NamedLeaf(name: string, params: Value, t: seq<string>)
    ensures LeafAt(Named(name, params), t)
         == if t == ["name"] then Some(VStr(name))
            else if t != [] && t[0] == "params" then LeafAt(params, t[1..]) else None
  {
    InnerKeysPlain();
    if t != [] && t[0] == "name" {
      DictLeaf(NAMED_KEYS, [VStr(name), params], t, 0);
      StringLeaf(name, t[1..]);
      assert t == ["name"] + t[1..];
    } else if t != [] && t[0] == "params" {
      DictLeaf(NAMED_KEYS, [VStr(name), params], t, 1);
    } else {
      DictNoLeaf(NAMED_KEYS, [VStr(name), params], t);
    }
  }

  lemma NamedKept(a: string, b: string, params: Value, t: seq<string>)
    requires t != ["name"]
    ensures LeafAt(Named(a, params), t) == LeafAt(Named(b, params), t)
  {
    NamedLeaf(a, params, t);
    NamedLeaf(b, params, t);
  }

  lemma NullLeaf(r: PlanRequest, v2: PlanRequestV2, t: seq<string>)
    requires Migrate(r) == Ok(v2) && t != [] && t[0] == "null" && t != ["null", "name"]
    ensures SameLeaf(r, v2, t)
  {
    var below := t[1..];
    assert t == ["null"] + below;
    PlanLeaf(r, t, 4);
    PlanLeafV2(v2, t, 5);
    NamedKept(r.nullName, v2.nullName, r.nullParams, below);
  }

  lemma SelectionLeaf(rule: Value, tolerance: Value, t: seq<string>)
    requires t == [] || t[0] != "decision_contract"
    ensures LeafAt(Dict(SELECTION_KEYS, [rule, tolerance]), t)
         == LeafAt(Dict(SELECTION_KEYS_V2, [VStr(DECISION_CONTRACT), rule, tolerance]), t)
  {
    InnerKeysPlain();
    var v1, v2 := [rule, tolerance], [VStr(DECISION_CONTRACT), rule, tolerance];
    if t != [] && t[0] == "rule" {
      DictLeaf(SELECTION_KEYS, v1, t, 0);
      DictLeaf(SELECTION_KEYS_V2, v2, t, 1);
    } else if t != [] && t[0] == "tie_tolerance" {
      DictLeaf(SELECTION_KEYS, v1, t, 1);
      DictLeaf(SELECTION_KEYS_V2, v2, t, 2);
    } else {
      DictNoLeaf(SELECTION_KEYS, v1, t);
      DictNoLeaf(SELECTION_KEYS_V2, v2, t);
    }
  }

  lemma ContractLeaf(rule: Value, tolerance: Value, t: seq<string>)
    requires t != [] && t[0] == "decision_contract"
    ensures LeafAt(Dict(SELECTION_KEYS, [rule, tolerance]), t).None?
    ensures LeafAt(Dict(SELECTION_KEYS_V2, [VStr(DECISION_CONTRACT), rule, tolerance]), t)
         == if t == ["decision_contract"] then Some(VStr(DECISION_CONTRACT)) else None
  {
    InnerKeysPlain();
    DictNoLeaf(SELECTION_KEYS, [rule, tolerance], t);
    DictLeaf(SELECTION_KEYS_V2, [VStr(DECISION_CONTRACT), rule, tolerance], t, 0);
    assert t == ["decision_contract"] + t[1..];
  }

  lemma SelectionKept(r: PlanRequest, v2: PlanRequestV2, t: seq<string>)
    requires Migrate(r) == Ok(v2) && t != [] && t[0] == "selection" && t != ["selection", "decision_contract"]
    ensures SameLeaf(r, v2, t)
  {
    PlanLeaf(r, t, 9);
    PlanLeafV2(v2, t, 10);
    var rule, tolerance, below := VStr(r.selectionRule), VFloat(r.tieTolerance), t[1..];
    assert t == ["selection"] + below;
    if below != [] && below[0] == "decision_contract" {
      ContractLeaf(rule, tolerance, below);
    } else {
      SelectionLeaf(rule, tolerance, below);
    }
  }

  /** The top-level fields both payloads copy from the request. */
  predicate IsCopied(key: string) {
    key in ["alpha", "candidates", "common_support", "replicates", "root_seed", "statistic"]
  }

  /** Both payloads list a copied field at positions that differ by one at most. */
  lemma CopiedPosition(r: PlanRequest, v2: PlanRequestV2, key: string) returns (i: nat, j: nat)
    requires Migrate(r) == Ok(v2) && IsCopied(key)
    ensures i < 11 && j < 12 && PLAN_KEYS[i] == key == PLAN_KEYS_V2[j]
    ensures i in [0, 1, 2, 5, 7, 10] && j == if i == 0 then 0 else i + 1
  {
    i := if key == "alpha" then 0 else if key == "candidates" then 1 else if key == "common_support" then 2
         else if key == "replicates" then 5 else if key == "root_seed" then 7 else 10;
    j := if i == 0 then 0 else i + 1;
  }

  lemma CopiedValue(r: PlanRequest, v2: PlanRequestV2, i: nat)
    requires Migrate(r) == Ok(v2) && i in [0, 1, 2, 5, 7, 10]
    ensures PlanValues(r)[i] == PlanValuesV2(v2)[if i == 0 then 0 else i + 1]
  {
  }

  lemma CopiedKept(r: PlanRequest, v2: PlanRequestV2, t: seq<string>)
    requires Migrate(r) == Ok(v2) && t != [] && IsCopied(t[0])
    ensures SameLeaf(r, v2, t)
  {
    var i, j := CopiedPosition(r, v2, t[0]);
    CopiedValue(r, v2, i);
    PlanLeaf(r, t, i);
    PlanLeafV2(v2, t, j);
  }

  /** The top-level strings that one of the payloads lacks or that differ. */
  predicate IsContract(key: string) {
    key in ["calibration_contract", "failure_contract", "failure_policy", "rng_contract", "schema"]
  }

  function ContractOf(r: PlanRequest, key: string): Option<string> {
    if key == "failure_policy" then Some(r.failurePolicy)
    else if key == "rng_contract" then Some(RNG_CONTRACT)
    else if key == "schema" then Some(SCHEMA)
    else None
  }

  function ContractOfV2(key: string): Option<string> {
    if key == "calibration_contract" then Some(CALIBRATION_CONTRACT)
    else if key == "failure_contract" then Some(FAILURE_CONTRACT)
    else if key == "rng_contract" then Some(RNG_CONTRACT_V2)
    else if key == "schema" then Some(SCHEMA_V2)
    else None
  }

  function LeafOf(s: Option<string>, t: seq<string>): Option<Value> {
    if s.Some? && |t| == 1 then Some(VStr(s.value)) else None
  }

  lemma AbsentContract(key: string)
    requires IsContract(key)
    ensures key == "calibration_contract" || key == "failure_contract" ==> key !in PLAN_KEYS
    ensures key == "failure_policy" ==> key !in PLAN_KEYS_V2
  {
  }

  lemma ContractPosition(r: PlanRequest, key: string) returns (i: nat)
    requires ContractOf(r, key).Some?
    ensures i < 11 && PLAN_KEYS[i] == key && PlanValues(r)[i] == VStr(ContractOf(r, key).value)
  {
    i := if key == "failure_policy" then 3 else if key == "rng_contract" then 6 else 8;
  }

  lemma ContractPositionV2(r: PlanRequestV2, key: string) returns (i: nat)
    requires ContractOfV2(key).Some?
    ensures i < 12 && PLAN_KEYS_V2[i] == key && PlanValuesV2(r)[i] == VStr(ContractOfV2(key).value)
  {
    i := if key == "calibration_contract" then 1 else if key == "failure_contract" then 4
         else if key == "rng_contract" then 7 else 9;
  }

  lemma ContractLeafV1(r: PlanRequest, t: seq<string>)
    requires t != [] && IsContract(t[0])
    ensures LeafAt(PlanPayload(r), t) == LeafOf(ContractOf(r, t[0]), t)
  {
    if ContractOf(r, t[0]).Some? {
      var i := ContractPosition(r, t[0]);
      PlanLeaf(r, t, i);
    } else {
      AbsentContract(t[0]);
      DictNoLeaf(PLAN_KEYS, PlanValues(r), t);
    }
  }

  lemma ContractLeafV2(r: PlanRequestV2, t: seq<string>)
    requires t != [] && IsContract(t[0])
    ensures LeafAt(PlanPayloadV2(r), t) == LeafOf(ContractOfV2(t[0]), t)
  {
    if ContractOfV2(t[0]).Some? {
      var i := ContractPositionV2(r, t[0]);
      PlanLeafV2(r, t, i);
    } else {
      AbsentContract(t[0]);
      DictNoLeaf(PLAN_KEYS_V2, PlanValuesV2(r), t);
    }
  }

  lemma SingleContract(t: seq<string>)
    requires t != [] && IsContract(t[0])
    ensures |t| == 1 ==> t in MOVED
  {
    if |t| == 1 { assert t == [t[0]]; }
  }

  lemma OtherKeys(key: string)
    requires !IsCopied(key) && !IsContract(key) && key != "null" && key != "selection"
    ensures key !in PLAN_KEYS && key !in PLAN_KEYS_V2
  {
  }

  /** Every other leaf is the same on both sides. */
  lemma OthersKept(r: PlanRequest, v2: PlanRequestV2, t: seq<string>)
    requires Migrate(r) == Ok(v2) && t != [] && t !in MOVED
    ensures SameLeaf(r, v2, t)
  {
    if IsCopied(t[0]) {
      CopiedKept(r, v2, t);
    } else if IsContract(t[0]) {
      ContractLeafV1(r, t);
      ContractLeafV2(v2, t);
      SingleContract(t);
    } else if t[0] == "null" {
      NullLeaf(r, v2, t);
    } else if t[0] == "selection" {
      SelectionKept(r, v2, t);
    } else {
      OtherKeys(t[0]);
      DictNoLeaf(PLAN_KEYS, PlanValues(r), t);
      DictNoLeaf(PLAN_KEYS_V2, PlanValuesV2(v2), t);
    }
  }

  // ---------------------------------------------------------------- the ledger of a migration

  const MOVED_PATHS := [
    "calibration_contract", "failure_contract", "failure_policy", "null.name", "rng_contract", "schema",
    "selection.decision_contract"]

  /** The status of every field: seven are changed, added or removed, and all others are preserved. */
  function ExpectedStatus(path: string): Status {
    if path in ["null.name", "rng_contract", "schema"] then Changed
    else if path in ["calibration_contract", "failure_contract", "selection.decision_contract"] then Added
    else if path == "failure_policy" then Removed
    else Preserved
  }

  lemma MovedJoined(m: nat)
    requires m < 7
    ensures Join(MOVED[m]) == MOVED_PATHS[m] && Split(MOVED_PATHS[m]) == MOVED[m]
  {
    PlanKeysAreWords();
    PlanKeysV2AreWords();
    InnerKeysPlain();
    assert "null" + "." + "name" == "null.name";
    assert "selection" + "." + "decision_contract" == "selection.decision_contract";
    assert MOVED[3][..1] == ["null"] && MOVED[6][..1] == ["selection"];
    SplitJoin(MOVED[m]);
  }

  lemma MovedIff(q: string)
    ensures Split(q) in MOVED <==> q in MOVED_PATHS
  {
    JoinSplit(q);
    if m: nat :| m < 7 && Split(q) == MOVED[m] { MovedJoined(m); }
    if m: nat :| m < 7 && q == MOVED_PATHS[m] { MovedJoined(m); }
  }

  /** The two sides of a moved field. */
  function MovedSides(r: PlanRequest, v2: PlanRequestV2, m: nat): (Option<Value>, Option<Value>)
    requires m < 7
  {
    if m == 3 then (Some(VStr(r.nullName)), Some(VStr(v2.nullName)))
    else if m == 6 then (None, Some(VStr(DECISION_CONTRACT)))
    else (LeafOf(ContractOf(r, MOVED[m][0]), [""]), LeafOf(ContractOfV2(MOVED[m][0]), [""]))
  }

  lemma NullMoved(r: PlanRequest, v2: PlanRequestV2)
    ensures LeafAt(PlanPayload(r), ["null", "name"]) == Some(VStr(r.nullName))
    ensures LeafAt(PlanPayloadV2(v2), ["null", "name"]) == Some(VStr(v2.nullName))
  {
    var t := ["null", "name"];
    assert t[1..] == ["name"];
    PlanLeaf(r, t, 4);
    PlanLeafV2(v2, t, 5);
    NamedLeaf(r.nullName, r.nullParams, ["name"]);
    NamedLeaf(v2.nullName, v2.nullParams, ["name"]);
  }

  lemma DecisionContractAdded(r: PlanRequest, v2: PlanRequestV2)
    ensures LeafAt(PlanPayload(r), ["selection", "decision_contract"]).None?
    ensures LeafAt(PlanPayloadV2(v2), ["selection", "decision_contract"]) == Some(VStr(DECISION_CONTRACT))
  {
    var t := ["selection", "decision_contract"];
    assert t[1..] == ["decision_contract"];
    PlanLeaf(r, t, 9);
    PlanLeafV2(v2, t, 10);
    ContractLeaf(VStr(r.selectionRule), VFloat(r.tieTolerance), ["decision_contract"]);
    ContractLeaf(VStr(v2.selectionRule), VFloat(v2.tieTolerance), ["decision_contract"]);
  }

  lemma MovedLeaves(r: PlanRequest, v2: PlanRequestV2, m: nat)
    requires m < 7
    ensures (LeafAt(PlanPayload(r), MOVED[m]), LeafAt(PlanPayloadV2(v2), MOVED[m])) == MovedSides(r, v2, m)
  {
    if m == 3 {
      NullMoved(r, v2);
    } else if m == 6 {
      DecisionContractAdded(r, v2);
    } else {
      ContractLeafV1(r, MOVED[m]);
      ContractLeafV2(v2, MOVED[m]);
    }
  }

  lemma StringsDiffer(floats: Floats, a: string, b: string)
    requires floats.Sound() && a != b
    ensures DerivedStatus(floats, Some(VStr(a)), Some(VStr(b))) == Changed
  {
    if CanonicalText(floats, VStr(a)) == CanonicalText(floats, VStr(b)) {
      CanonicalInjective(floats, VStr(a), VStr(b));
    }
  }

  lemma NamesDiffer(r: PlanRequest, v2: PlanRequestV2)
    requires Migrate(r) == Ok(v2)
    ensures r.nullName != v2.nullName && SCHEMA != SCHEMA_V2 && RNG_CONTRACT != RNG_CONTRACT_V2
  {
    assert "circular_shift_v1"[16] != "circular_shift_v2"[16] && "block_shuffle_v1"[15] != "block_shuffle_v2"[15];
    assert SCHEMA[24] == '1' && SCHEMA_V2[24] == '2';
    assert RNG_CONTRACT[6] == '-' && RNG_CONTRACT_V2[6] == '_';
  }

  lemma NullNameChanged(floats: Floats, r: PlanRequest, v2: PlanRequestV2)
    requires floats.Sound() && Migrate(r) == Ok(v2)
    ensures DerivedStatus(floats, Some(VStr(r.nullName)), Some(VStr(v2.nullName))) == Changed
  {
    NamesDiffer(r, v2);
    StringsDiffer(floats, r.nullName, v2.nullName);
  }

  lemma ContractStatus(floats: Floats, r: PlanRequest, key: string)
    requires floats.Sound() && IsContract(key) && SCHEMA != SCHEMA_V2 && RNG_CONTRACT != RNG_CONTRACT_V2
    ensures var before, after := LeafOf(ContractOf(r, key), [""]), LeafOf(ContractOfV2(key), [""]);
      (before.Some? || after.Some?) && DerivedStatus(floats, before, after) == ExpectedStatus(key)
  {
    StringsDiffer(floats, SCHEMA, SCHEMA_V2);
    StringsDiffer(floats, RNG_CONTRACT, RNG_CONTRACT_V2);
  }

  lemma MovedStatus(floats: Floats, r: PlanRequest, v2: PlanRequestV2, m: nat)
    requires floats.Sound() && Migrate(r) == Ok(v2) && m < 7
    ensures var (before, after) := MovedSides(r, v2, m);
      (before.Some? || after.Some?) && DerivedStatus(floats, before, after) == ExpectedStatus(MOVED_PATHS[m])
  {
    if m == 3 {
      NullNameChanged(floats, r, v2);
    } else if m != 6 {
      NamesDiffer(r, v2);
      assert IsContract(MOVED_PATHS[m]) && MOVED[m][0] == MOVED_PATHS[m];
      ContractStatus(floats, r, MOVED_PATHS[m]);
    }
  }

  lemma SidesOfPath(r: PlanRequest, v2: PlanRequestV2, q: string)
    requires Registered(r) && Migrate(r) == Ok(v2)
    ensures Flatten(PlanPayload(r)).Some? && Flatten(PlanPayloadV2(v2)).Some?
    ensures Find(Flatten(PlanPayload(r)).value, q) == LeafAt(PlanPayload(r), Split(q))
    ensures Find(Flatten(PlanPayloadV2(v2)).value, q) == LeafAt(PlanPayloadV2(v2), Split(q))
  {
    PayloadsSafe(r, v2);
    FlattenKeepsLeaves(PlanPayload(r), q);
    FlattenKeepsLeaves(PlanPayloadV2(v2), q);
  }

  lemma MovedEntry(floats: Floats, r: PlanRequest, v2: PlanRequestV2, m: nat)
    requires floats.Sound() && Registered(r) && Migrate(r) == Ok(v2) && m < 7
    ensures Flatten(PlanPayload(r)).Some? && Flatten(PlanPayloadV2(v2)).Some?
    ensures var s, t := Flatten(PlanPayload(r)).value, Flatten(PlanPayloadV2(v2)).value;
      var q := MOVED_PATHS[m];
      (Find(s, q).Some? || Find(t, q).Some?) && ChangeAt(floats, s, t, q).status == ExpectedStatus(q)
  {
    SidesOfPath(r, v2, MOVED_PATHS[m]);
    MovedJoined(m);
    MovedLeaves(r, v2, m);
    MovedStatus(floats, r, v2, m);
  }

  lemma NotMoved(path: string)
    requires path !in MOVED_PATHS
    ensures ExpectedStatus(path) == Preserved
  {
  }

  lemma KeptEntry(floats: Floats, r: PlanRequest, v2: PlanRequestV2, q: string)
    requires Registered(r) && Migrate(r) == Ok(v2) && q !in MOVED_PATHS
    ensures Flatten(PlanPayload(r)).Some? && Flatten(PlanPayloadV2(v2)).Some?
    ensures var s, t := Flatten(PlanPayload(r)).value, Flatten(PlanPayloadV2(v2)).value;
      Find(s, q) == Find(t, q) && (Find(s, q).Some? ==> ChangeAt(floats, s, t, q).status == ExpectedStatus(q))
  {
    SidesOfPath(r, v2, q);
    MovedIff(q);
    OthersKept(r, v2, Split(q));
    NotMoved(q);
  }

  /** The ledger entry of every path, for every registered request that migrates. */
  lemma MigrationStatuses(floats: Floats, r: PlanRequest, v2: PlanRequestV2, q: string)
    requires floats.Sound() && Registered(r) && Migrate(r) == Ok(v2)
    ensures Flatten(PlanPayload(r)).Some? && Flatten(PlanPayloadV2(v2)).Some?
    ensures var s, t := Flatten(PlanPayload(r)).value, Flatten(PlanPayloadV2(v2)).value;
      && (q in MOVED_PATHS ==> q in Paths(s, t))
      && (q in Paths(s, t) ==> ChangeAt(floats, s, t, q).status == ExpectedStatus(q))
  {
    SidesOfPath(r, v2, q);
    FlattenSorted(NoEntries, PlanPayload(r), "");
    PathKnown(Flatten(PlanPayload(r)).value, Flatten(PlanPayloadV2(v2)).value, q);
    if m: nat :| m < 7 && q == MOVED_PATHS[m] {
      MovedEntry(floats, r, v2, m);
    } else {
      KeptEntry(floats, r, v2, q);
    }
  }

  // ---------------------------------------------------------------- the ledger is always built

  lemma {:induction false} LeafKeysAreWords(v: Value, t: seq<string>)
    requires Plain(v) && LeafAt(v, t).Some?
    ensures Words(t)
    decreases v, 1
  {
    if IsBranch(v) { LeafKeysBelow(v.entries, t); }
  }

  lemma {:induction false} LeafKeysBelow(entries: Entries, t: seq<string>)
    requires PlainEntries(entries) && LeafBelow(entries, t).Some?
    ensures Words(t)
    decreases entries, 0
  {
    if t != [] && t[0] == entries.key {
      LeafKeysAreWords(entries.value, t[1..]);
      assert t == [t[0]] + t[1..];
    } else {
      LeafKeysBelow(entries.rest, t);
    }
  }

  /** A joined path starts as its first segment and ends as its last. */
  lemma {:induction false} JoinEnds(t: seq<string>)
    requires t != [] && Words(t)
    ensures Join(t) != "" && Join(t)[0] == t[0][0]
    ensures Join(t)[|Join(t)| - 1] == t[|t| - 1][|t[|t| - 1]| - 1]
  {
    if |t| > 1 { JoinEnds(t[..|t| - 1]); }
  }

  /** No letter and no underscore is white space. */
  predicate SpacesApart(space: char -> bool) {
    forall c :: ('a' <= c <= 'z' || c == '_') ==> !space(c)
  }

  lemma PathsStripped(space: char -> bool, r: PlanRequest, v2: PlanRequestV2, q: string)
    requires SpacesApart(space) && Registered(r) && Migrate(r) == Ok(v2)
    ensures Flatten(PlanPayload(r)).Some? && Flatten(PlanPayloadV2(v2)).Some?
    ensures q in Paths(Flatten(PlanPayload(r)).value, Flatten(PlanPayloadV2(v2)).value) ==> Stripped(space, q)
  {
    SidesOfPath(r, v2, q);
    PayloadsSafe(r, v2);
    FlattenSorted(NoEntries, PlanPayload(r), "");
    PathKnown(Flatten(PlanPayload(r)).value, Flatten(PlanPayloadV2(v2)).value, q);
    if LeafAt(PlanPayload(r), Split(q)).Some? {
      LeafKeysAreWords(PlanPayload(r), Split(q));
    }
    if LeafAt(PlanPayloadV2(v2), Split(q)).Some? {
      LeafKeysAreWords(PlanPayloadV2(v2), Split(q));
    }
    JoinSplit(q);
    if Words(Split(q)) { JoinEnds(Split(q)); }
  }

  /** The ledger of a migration: every registered request that migrates has one, and it patches v1 into v2. */
  method MigrationLedger(floats: Floats, space: char -> bool, r: PlanRequest, v2: PlanRequestV2)
    returns (ledger: seq<Change>)
    requires SpacesApart(space) && Registered(r) && Migrate(r) == Ok(v2)
    ensures Flatten(PlanPayload(r)).Some? && Flatten(PlanPayloadV2(v2)).Some?
    ensures var s, t := Flatten(PlanPayload(r)).value, Flatten(PlanPayloadV2(v2)).value;
      ledger == Ledger(floats, s, t) && ApplyFrom(ledger, 0, s) == t
  {
    var built := CompleteChangeLedger(floats, space, PlanPayload(r), PlanPayloadV2(v2));
    SidesOfPath(r, v2, "");
    if built.None? {
      ghost var q :| q in Paths(Flatten(PlanPayload(r)).value, Flatten(PlanPayloadV2(v2)).value) && !Stripped(space, q);
      PathsStripped(space, r, v2, q);
      assert false;
    }
    LedgerIsPatch(floats, PlanPayload(r), PlanPayloadV2(v2));
    ledger := built.value;
  }

  // ---------------------------------------------------------------- requests are determined

  lemma {:induction false} DictDetermines(keys: seq<string>, a: seq<Value>, b: seq<Value>, k: nat, i: nat)
    requires |keys| == |a| == |b| && k <= i < |keys| && DictFrom(keys, a, k) == DictFrom(keys, b, k)
    ensures a[i] == b[i]
    decreases i - k
  {
    if k < i { DictDetermines(keys, a, b, k + 1, i); }
  }

  lemma IntsDetermine(a: seq<int>, b: seq<int>)
    requires Ints(a) == Ints(b)
    ensures a == b
  {
    assert |Ints(a).items| == |Ints(b).items|;
    forall i | 0 <= i < |a| ensures a[i] == b[i] {
      assert Ints(a).items[i] == Ints(b).items[i];
    }
  }

  lemma NamedDetermines(a: string, p: Value, b: string, q: Value)
    requires Named(a, p) == Named(b, q)
    ensures a == b && p == q
  {
    DictDetermines(NAMED_KEYS, [VStr(a), p], [VStr(b), q], 0, 0);
    DictDetermines(NAMED_KEYS, [VStr(a), p], [VStr(b), q], 0, 1);
  }

  lemma SelectionDetermines(a: string, x: real, b: string, y: real)
    requires Dict(SELECTION_KEYS, [VStr(a), VFloat(x)]) == Dict(SELECTION_KEYS, [VStr(b), VFloat(y)])
    ensures a == b && x == y
  {
    DictDetermines(SELECTION_KEYS, [VStr(a), VFloat(x)], [VStr(b), VFloat(y)], 0, 0);
    DictDetermines(SELECTION_KEYS, [VStr(a), VFloat(x)], [VStr(b), VFloat(y)], 0, 1);
  }

  lemma ValuesDetermine(a: PlanRequest, b: PlanRequest)
    requires forall i :: 0 <= i < 11 ==> PlanValues(a)[i] == PlanValues(b)[i]
    ensures a == b
  {
    assert PlanValues(a)[0] == PlanValues(b)[0] && PlanValues(a)[3] == PlanValues(b)[3];
    assert PlanValues(a)[5] == PlanValues(b)[5] && PlanValues(a)[7] == PlanValues(b)[7];
    assert PlanValues(a)[1] == PlanValues(b)[1] && PlanValues(a)[4] == PlanValues(b)[4];
    assert PlanValues(a)[9] == PlanValues(b)[9] && PlanValues(a)[10] == PlanValues(b)[10];
    IntsDetermine(a.candidates, b.candidates);
    NamedDetermines(a.nullName, a.nullParams, b.nullName, b.nullParams);
    NamedDetermines(a.statisticName, a.statisticParams, b.statisticName, b.statisticParams);
    SelectionDetermines(a.selectionRule, a.tieTolerance, b.selectionRule, b.tieTolerance);
  }

  /** Different registered requests never have the same flattened payload. */
  lemma FlattenedPlansDiffer(a: PlanRequest, b: PlanRequest)
    requires Registered(a) && Registered(b) && Flatten(PlanPayload(a)) == Flatten(PlanPayload(b))
    ensures a == b
  {
    ParamsPlain(a);
    ParamsPlain(b);
    PlanSafe(a);
    PlanSafe(b);
    FlattenInjective(PlanPayload(a), PlanPayload(b));
    forall i: nat | i < 11 ensures PlanValues(a)[i] == PlanValues(b)[i] {
      DictDetermines(PLAN_KEYS, PlanValues(a), PlanValues(b), 0, i);
    }
    ValuesDetermine(a, b);
  }
}
