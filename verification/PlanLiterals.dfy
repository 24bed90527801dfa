/** Which field of a plan, and of a change in a ledger, stands under which name. */
module PlanLiterals {
  import opened Wrappers
  import opened Canonical
  import opened Requests
  import opened Migration
  import opened PlanPayloads

  /** A value that is an object with these two entries. */
  predicate HoldsNamed(v: Option<Value>, name: string, params: Value) {
    && v.Some? && v.value.VDict?
    && Find(v.value.entries, "name") == Some(VStr(name)) && Find(v.value.entries, "params") == Some(params)
  }

  predicate HoldsSelection(v: Option<Value>, rule: string, tolerance: real) {
    && v.Some? && v.value.VDict?
    && Find(v.value.entries, "rule") == Some(VStr(rule))
    && Find(v.value.entries, "tie_tolerance") == Some(VFloat(tolerance))
  }

  lemma NamedHolds(name: string, params: Value)
    ensures HoldsNamed(Some(Named(name, params)), name, params)
  {
    NamedKeysPlain();
    PlainIsLegal(NAMED_KEYS);
    FindInDict(NAMED_KEYS, [VStr(name), params], 0, 0);
    FindInDict(NAMED_KEYS, [VStr(name), params], 0, 1);
  }

  lemma SelectionHolds(rule: string, tolerance: real)
    ensures HoldsSelection(Some(Dict(SELECTION_KEYS, [VStr(rule), VFloat(tolerance)])), rule, tolerance)
  {
    SelectionKeysPlain();
    PlainIsLegal(SELECTION_KEYS);
    FindInDict(SELECTION_KEYS, [VStr(rule), VFloat(tolerance)], 0, 0);
    FindInDict(SELECTION_KEYS, [VStr(rule), VFloat(tolerance)], 0, 1);
  }

  lemma SelectionV2Holds(rule: string, tolerance: real)
    ensures var v := Dict(SELECTION_KEYS_V2, [VStr(DECISION_CONTRACT), VStr(rule), VFloat(tolerance)]);
      HoldsSelection(Some(v), rule, tolerance)
      && Find(v.entries, "decision_contract") == Some(VStr("family_max_with_canonical_tie_label_v2"))
  {
    SelectionKeysV2Plain();
    PlainIsLegal(SELECTION_KEYS_V2);
    var values := [VStr(DECISION_CONTRACT), VStr(rule), VFloat(tolerance)];
    FindInDict(SELECTION_KEYS_V2, values, 0, 0);
    FindInDict(SELECTION_KEYS_V2, values, 0, 1);
    FindInDict(SELECTION_KEYS_V2, values, 0, 2);
  }

  /** What both versions of a plan hold: its fields, and the contract on common support. */
  predicate HoldsShared(
    p: Entries, alpha: real, candidates: seq<int>, nullName: string, nullParams: Value, replicates: int, rootSeed: int,
    rule: string, tolerance: real, statisticName: string, statisticParams: Value)
  {
    && Find(p, "alpha") == Some(VFloat(alpha)) && Find(p, "candidates") == Some(Ints(candidates))
    && HoldsNamed(Find(p, "null"), nullName, nullParams) && Find(p, "replicates") == Some(VInt(replicates))
    && Find(p, "root_seed") == Some(VInt(rootSeed)) && HoldsSelection(Find(p, "selection"), rule, tolerance)
    && HoldsNamed(Find(p, "statistic"), statisticName, statisticParams)
    && Find(p, "common_support") == Some(VStr("max_candidate_lag_v1"))
  }

  lemma ValuesHeld(keys: seq<string>, values: seq<Value>)
    requires |keys| == |values| && KeysLegal(keys)
    ensures forall i :: 0 <= i < |keys| ==> Find(DictFrom(keys, values, 0), keys[i]) == Some(values[i])
  {
    forall i: nat | i < |keys| ensures Find(DictFrom(keys, values, 0), keys[i]) == Some(values[i]) {
      FindInDict(keys, values, 0, i);
    }
  }

  lemma V1Places()
    ensures PLAN_KEYS[0] == "alpha" && PLAN_KEYS[1] == "candidates" && PLAN_KEYS[2] == "common_support"
    ensures PLAN_KEYS[3] == "failure_policy" && PLAN_KEYS[4] == "null" && PLAN_KEYS[5] == "replicates"
    ensures PLAN_KEYS[6] == "rng_contract" && PLAN_KEYS[7] == "root_seed" && PLAN_KEYS[8] == "schema"
    ensures PLAN_KEYS[9] == "selection" && PLAN_KEYS[10] == "statistic"
  {
  }

  lemma V2Places()
    ensures PLAN_KEYS_V2[0] == "alpha" && PLAN_KEYS_V2[1] == "calibration_contract" && PLAN_KEYS_V2[2] == "candidates"
    ensures PLAN_KEYS_V2[3] == "common_support" && PLAN_KEYS_V2[4] == "failure_contract" && PLAN_KEYS_V2[5] == "null"
    ensures PLAN_KEYS_V2[6] == "replicates" && PLAN_KEYS_V2[7] == "rng_contract" && PLAN_KEYS_V2[8] == "root_seed"
    ensures PLAN_KEYS_V2[9] == "schema" && PLAN_KEYS_V2[10] == "selection" && PLAN_KEYS_V2[11] == "statistic"
  {
  }

  /** The v1 payload of a plan. */
  lemma PayloadHolds(r: PlanRequest)
    ensures var p := PlanPayload(r).entries;
      && HoldsShared(p, r.alpha, r.candidates, r.nullName, r.nullParams, r.replicates, r.rootSeed, r.selectionRule,
                     r.tieTolerance, r.statisticName, r.statisticParams)
      && Find(p, "failure_policy") == Some(VStr(r.failurePolicy))
      && Find(p, "rng_contract") == Some(VStr("sha256-to-pcg64-v1"))
      && Find(p, "schema") == Some(VStr("selcal.scientific-plan.v1"))
  {
    PlanKeysIncrease();
    PlanKeysAreWords();
    PlainIsLegal(PLAN_KEYS);
    ValuesHeld(PLAN_KEYS, PlanValues(r));
    NamedHolds(r.nullName, r.nullParams);
    NamedHolds(r.statisticName, r.statisticParams);
    SelectionHolds(r.selectionRule, r.tieTolerance);
    hide Find, DictFrom, HoldsNamed, HoldsSelection, Named;
    V1Places();
  }

  /** The v2 payload of a plan. */
  lemma PayloadV2Holds(r: PlanRequestV2)
    ensures var p := PlanPayloadV2(r).entries;
      && HoldsShared(p, r.alpha, r.candidates, r.nullName, r.nullParams, r.replicates, r.rootSeed, r.selectionRule,
                     r.tieTolerance, r.statisticName, r.statisticParams)
      && Find(p, "calibration_contract") == Some(VStr("full_reselection_global_mc_plus_one_v2"))
      && Find(p, "failure_contract") == Some(VStr("exact_b_fail_closed_v2"))
      && Find(p, "rng_contract") == Some(VStr("sha256_framed_plan_rid_stream_to_pcg64_raw64_v1"))
      && Find(p, "schema") == Some(VStr("selcal.scientific-plan.v2"))
      && Find(p, "selection").Some? && Find(p, "selection").value.VDict?
      && Find(Find(p, "selection").value.entries, "decision_contract")
         == Some(VStr("family_max_with_canonical_tie_label_v2"))
  {
    PlanKeysV2Increase();
    PlanKeysV2AreWords();
    PlainIsLegal(PLAN_KEYS_V2);
    ValuesHeld(PLAN_KEYS_V2, PlanValuesV2(r));
    NamedHolds(r.nullName, r.nullParams);
    NamedHolds(r.statisticName, r.statisticParams);
    SelectionV2Holds(r.selectionRule, r.tieTolerance);
    hide Find, DictFrom, HoldsNamed, HoldsSelection, Named;
    V2Places();
  }

  // ---------------------------------------------------------------- changes

  /** The encoded form of one change. */
  lemma ChangeHolds(c: Change)
    ensures var e := ChangePayload(c).entries;
      && Find(e, "path") == Some(VStr(c.path))
      && Find(e, "source_present") == Some(VBool(c.source.Some?))
      && Find(e, "source_value") == Some(if c.source.Some? then c.source.value else VNone)
      && Find(e, "target_present") == Some(VBool(c.target.Some?))
      && Find(e, "target_value") == Some(if c.target.Some? then c.target.value else VNone)
      && Find(e, "status") == Some(VStr(
           match c.status
           case Preserved => "preserved"
           case Changed => "changed"
           case Added => "added"
           case Removed => "removed"
           case Refused => "refused"))
  {
    ChangeKeysLegal();
    ValuesHeld(CHANGE_KEYS, ChangeValues(c));
    hide Find, DictFrom;
    assert CHANGE_KEYS[0] == "path" && CHANGE_KEYS[1] == "source_present" && CHANGE_KEYS[2] == "source_value";
    assert CHANGE_KEYS[3] == "target_present" && CHANGE_KEYS[4] == "target_value" && CHANGE_KEYS[5] == "status";
  }

  /** The text without the white space at its two ends. */
  function Trimmed(space: char -> bool, text: string): string {
    if text == "" then ""
    else if space(text[0]) then Trimmed(space, text[1..])
    else if space(text[|text| - 1]) then Trimmed(space, text[..|text| - 1])
    else text
  }

  lemma {:induction false} TrimmedShorter(space: char -> bool, text: string)
    ensures |Trimmed(space, text)| <= |text|
  {
    if text != "" && space(text[0]) {
      TrimmedShorter(space, text[1..]);
    } else if text != "" && space(text[|text| - 1]) {
      TrimmedShorter(space, text[..|text| - 1]);
    }
  }

  /** A path is accepted exactly when it is not empty and trimming leaves it as it is. */
  lemma StrippedIff(space: char -> bool, path: string)
    ensures Stripped(space, path) <==> path != "" && Trimmed(space, path) == path
  {
    if path != "" && space(path[0]) {
      TrimmedShorter(space, path[1..]);
    } else if path != "" && space(path[|path| - 1]) {
      TrimmedShorter(space, path[..|path| - 1]);
    }
  }

  // ---------------------------------------------------------------- registered requests

  function Setting(key: string, n: int): Value {
    VDict(Entry(key, VInt(n), NoEntries))
  }

  /** With these names and settings, a request is registered exactly when each number is large enough. */
  lemma RegisteredIff(r: PlanRequest, n: int, bins: int)
    requires (r.nullName == "circular_shift_v1" && r.nullParams == Setting("min_shift", n))
          || (r.nullName == "block_shuffle_v1" && r.nullParams == Setting("block_length", n))
    requires (r.statisticName == "lagged_pearson_v1" && r.statisticParams == VDict(NoEntries) && bins == 2)
          || (r.statisticName == "equal_width_binned_nette_v1" && r.statisticParams == Setting("bins", bins))
    ensures Registered(r) <==> n >= 1 && bins >= 2
  {
  }

  /** A request migrates exactly with one of two nulls and numbers within the v2 limits; its null only gets a 2. */
  lemma MigrateIff(r: PlanRequest)
    ensures Migrate(r).Ok?
       <==> (r.nullName == "circular_shift_v1" || r.nullName == "block_shuffle_v1")
            && r.rootSeed <= 0xFFFF_FFFF_FFFF_FFFF && r.replicates <= 1_000_000
    ensures Migrate(r).Ok? ==>
      r.nullName != "" && Migrate(r).value.nullName == r.nullName[..|r.nullName| - 1] + "2"
  {
    assert "circular_shift_v1"[..16] == "circular_shift_v" && "block_shuffle_v1"[..15] == "block_shuffle_v";
    assert "circular_shift_v" + "2" == "circular_shift_v2" && "block_shuffle_v" + "2" == "block_shuffle_v2";
  }
}
