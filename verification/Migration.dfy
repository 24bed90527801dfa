/** Migrating a v1 plan to v2, and the ledger of every field that is kept, changed, added or removed. */
module Migration {
  import opened Wrappers
  import opened JsonRecords
  import opened Canonical
  import opened Dictionaries
  import opened FlatPayload
  import opened Requests

  // ---------------------------------------------------------------- values

  /** Dictionaries are listed in key order throughout. */
  predicate Listed(v: Value)
    decreases v
  {
    match v
    case VList(items) => forall i :: 0 <= i < |items| ==> Listed(items[i])
    case VDict(entries) => Sorted(entries) && ListedEntries(entries)
    case _ => true
  }

  predicate ListedEntries(entries: Entries)
    decreases entries
  {
    match entries
    case NoEntries => true
    case Entry(_, value, rest) => Listed(value) && ListedEntries(rest)
  }

  lemma {:induction false} ListedIsOrdered(v: Value)
    requires Listed(v)
    ensures Ordered(v) == v
    decreases v
  {
    match v
    case VList(items) => ListedItems(items);
    case VDict(entries) => ListedEntriesOrdered(entries);
    case _ =>
  }

  lemma {:induction false} ListedItems(items: seq<Value>)
    requires forall i :: 0 <= i < |items| ==> Listed(items[i])
    ensures OrderedItems(items) == items
    decreases items
  {
    if items != [] {
      ListedIsOrdered(items[0]);
      ListedItems(items[1..]);
      assert items == [items[0]] + items[1..];
    }
  }

  lemma {:induction false} ListedEntriesOrdered(entries: Entries)
    requires Sorted(entries) && ListedEntries(entries)
    ensures OrderedEntries(entries) == entries
    decreases entries
  {
    if entries.Entry? {
      ListedIsOrdered(entries.value);
      ListedEntriesOrdered(entries.rest);
      if entries.rest.Entry? && Before(entries.rest.key, entries.key) {
        BeforeTransitive(entries.key, entries.rest.key, entries.key);
        BeforeIrreflexive(entries.key);
      }
    }
  }

  /** A value that has canonical bytes, in its listed form. */
  predicate ValueOk(floats: Floats, v: Value) {
    WellFormed(floats, v) && Encodable(v) && Listed(v)
  }

  predicate FieldsOk(floats: Floats, fields: Entries) {
    match fields
    case NoEntries => true
    case Entry(_, value, rest) => ValueOk(floats, value) && FieldsOk(floats, rest)
  }

  lemma {:induction false} FieldOk(floats: Floats, fields: Entries, key: string)
    requires FieldsOk(floats, fields) && Find(fields, key).Some?
    ensures ValueOk(floats, Find(fields, key).value)
  {
    if fields.key != key { FieldOk(floats, fields.rest, key); }
  }

  lemma {:induction false} PutOk(floats: Floats, fields: Entries, key: string, v: Value)
    requires FieldsOk(floats, fields) && ValueOk(floats, v)
    ensures FieldsOk(floats, Put(fields, key, v))
  {
    if fields.Entry? && fields.key != key && Before(fields.key, key) { PutOk(floats, fields.rest, key, v); }
  }

  lemma {:induction false} FlattenOk(floats: Floats, fields: Entries, v: Value, path: string)
    requires FieldsOk(floats, fields) && ValueOk(floats, v)
    ensures FlattenInto(fields, v, path).Some? ==> FieldsOk(floats, FlattenInto(fields, v, path).value)
    decreases v
  {
    if IsBranch(v) {
      FlattenEntriesOk(floats, fields, v.entries, path);
    } else {
      PutOk(floats, fields, path, v);
    }
  }

  lemma {:induction false} FlattenEntriesOk(floats: Floats, fields: Entries, entries: Entries, path: string)
    requires FieldsOk(floats, fields)
    requires WellFormedEntries(floats, entries) && EncodableEntries(entries) && ListedEntries(entries)
    ensures FlattenEntries(fields, entries, path).Some? ==>
              FieldsOk(floats, FlattenEntries(fields, entries, path).value)
    decreases entries
  {
    if entries.Entry? {
      FlattenOk(floats, fields, entries.value, Child(path, entries.key));
      var next := FlattenInto(fields, entries.value, Child(path, entries.key));
      if next.Some? { FlattenEntriesOk(floats, next.value, entries.rest, path); }
    }
  }

  // ---------------------------------------------------------------- the ledger

  datatype Status = Preserved | Changed | Added | Removed | Refused

  /** One field's record; an absent side has no value. */
  datatype Change = Change(path: string, source: Option<Value>, target: Option<Value>, status: Status)

  function DerivedStatus(floats: Floats, source: Option<Value>, target: Option<Value>): Status {
    if source.None? then Added
    else if target.None? then Removed
    else if CanonicalText(floats, source.value) == CanonicalText(floats, target.value) then Preserved
    else Changed
  }

  function ChangeAt(floats: Floats, source: Entries, target: Entries, path: string): Change {
    Change(path, Find(source, path), Find(target, path),
           DerivedStatus(floats, Find(source, path), Find(target, path)))
  }

  function Union(a: Entries, b: Entries): Entries
    decreases b
  {
    match b
    case NoEntries => a
    case Entry(key, value, rest) => Union(Put(a, key, value), rest)
  }

  /** The paths of both sides in order. */
  function Paths(source: Entries, target: Entries): seq<string> {
    Keys(Union(source, target))
  }

  function Ledger(floats: Floats, source: Entries, target: Entries): (ledger: seq<Change>)
    ensures |ledger| == |Paths(source, target)|
  {
    seq(|Paths(source, target)|, i requires 0 <= i < |Paths(source, target)| =>
      ChangeAt(floats, source, target, Paths(source, target)[i]))
  }

  lemma {:induction false} UnionFinds(a: Entries, b: Entries, q: string)
    requires Sorted(a)
    ensures Sorted(Union(a, b))
    ensures Find(Union(a, b), q).Some? <==> Find(a, q).Some? || Find(b, q).Some?
    decreases b
  {
    if b.Entry? {
      SortedPut(a, b.key, b.value);
      FindPut(a, b.key, b.value, q);
      UnionFinds(Put(a, b.key, b.value), b.rest, q);
    }
  }

  /** The ledger's paths increase strictly and are exactly the paths of either side. */
  lemma PathsExact(source: Entries, target: Entries, q: string, i: nat, j: nat)
    requires Sorted(source) && i < j < |Paths(source, target)|
    ensures Before(Paths(source, target)[i], Paths(source, target)[j])
    ensures q in Paths(source, target) <==> Find(source, q).Some? || Find(target, q).Some?
  {
    UnionFinds(source, target, q);
    KeysAreFound(Union(source, target), q);
    KeysIncrease(Union(source, target), i, j);
  }

  lemma PathKnown(source: Entries, target: Entries, q: string)
    requires Sorted(source)
    ensures q in Paths(source, target) <==> Find(source, q).Some? || Find(target, q).Some?
  {
    UnionFinds(source, target, q);
    KeysAreFound(Union(source, target), q);
  }

  // ---------------------------------------------------------------- the ledger as a patch

  /** The fields after the changes from the k-th on: each path gets its target value or is removed. */
  function ApplyFrom(changes: seq<Change>, k: nat, fields: Entries): Entries
    requires k <= |changes|
    decreases |changes| - k
  {
    if k == |changes| then fields
    else
      var c := changes[k];
      ApplyFrom(changes, k + 1,
                if c.target.Some? then Put(fields, c.path, c.target.value) else Remove(fields, c.path))
  }

  lemma {:induction false} ApplyFinds(floats: Floats, source: Entries, target: Entries, k: nat, fields: Entries,
                                      q: string)
    requires Sorted(fields) && k <= |Paths(source, target)|
    ensures var after := ApplyFrom(Ledger(floats, source, target), k, fields);
      Sorted(after) && Find(after, q) == if q in Paths(source, target)[k..] then Find(target, q) else Find(fields, q)
    decreases |Paths(source, target)| - k
  {
    var paths := Paths(source, target);
    if k < |paths| {
      var c := Ledger(floats, source, target)[k];
      assert paths[k..] == [c.path] + paths[k + 1..];
      if c.target.Some? {
        SortedPut(fields, c.path, c.target.value);
        FindPut(fields, c.path, c.target.value, q);
        ApplyFinds(floats, source, target, k + 1, Put(fields, c.path, c.target.value), q);
      } else {
        SortedRemove(fields, c.path);
        FindRemove(fields, c.path, q);
        ApplyFinds(floats, source, target, k + 1, Remove(fields, c.path), q);
      }
    }
  }

  /** Applied to the flattened v1 payload the ledger yields the flattened v2 payload. */
  lemma LedgerIsPatch(floats: Floats, source: Value, target: Value)
    requires Flatten(source).Some? && Flatten(target).Some?
    ensures var s, t := Flatten(source).value, Flatten(target).value;
      ApplyFrom(Ledger(floats, s, t), 0, s) == t
  {
    var s, t := Flatten(source).value, Flatten(target).value;
    FlattenSorted(NoEntries, source, "");
    FlattenSorted(NoEntries, target, "");
    forall q ensures Find(ApplyFrom(Ledger(floats, s, t), 0, s), q) == Find(t, q) {
      ApplyFinds(floats, s, t, 0, s, q);
      PathKnown(s, t, q);
      assert Paths(s, t)[0..] == Paths(s, t);
    }
    ApplyFinds(floats, s, t, 0, s, "");
    SortedEqual(ApplyFrom(Ledger(floats, s, t), 0, s), t);
  }

  /** A field is recorded as preserved exactly when its two values are the same. */
  lemma PreservedIff(floats: Floats, source: Entries, target: Entries, path: string)
    requires floats.Sound() && FieldsOk(floats, source) && FieldsOk(floats, target)
    requires Find(source, path).Some?
    ensures ChangeAt(floats, source, target, path).status == Preserved <==> Find(source, path) == Find(target, path)
  {
    if Find(target, path).Some? {
      FieldOk(floats, source, path);
      FieldOk(floats, target, path);
      var a, b := Find(source, path).value, Find(target, path).value;
      ListedIsOrdered(a);
      ListedIsOrdered(b);
      if CanonicalText(floats, a) == CanonicalText(floats, b) { CanonicalInjective(floats, a, b); }
    }
  }

  // ---------------------------------------------------------------- building and validating

  /** A record's path is not empty and has no white space around it. */
  predicate Stripped(space: char -> bool, path: string) {
    path != "" && !space(path[0]) && !space(path[|path| - 1])
  }

  /** The loop over the sorted union of the paths. */
  method CompleteChangeLedger(floats: Floats, space: char -> bool, source: Value, target: Value)
      returns (r: Option<seq<Change>>)
    ensures r.Some? ==> Flatten(source).Some? && Flatten(target).Some?
                        && r.value == Ledger(floats, Flatten(source).value, Flatten(target).value)
    ensures r.None? ==> Flatten(source).None? || Flatten(target).None?
                        || exists path :: path in Paths(Flatten(source).value, Flatten(target).value)
                                          && !Stripped(space, path)
  {
    var sourceFields, targetFields := Flatten(source), Flatten(target);
    if sourceFields.None? || targetFields.None? { return None; }
    var s, t := sourceFields.value, targetFields.value;
    var paths := Paths(s, t);
    var entries: seq<Change> := [];
    for i := 0 to |paths|
      invariant entries == Ledger(floats, s, t)[..i]
    {
      var path := paths[i];
      if !Stripped(space, path) { return None; }
      var change := Change(path, Find(s, path), Find(t, path), DerivedStatus(floats, Find(s, path), Find(t, path)));
      entries := entries + [change];
    }
    r := Some(entries);
  }

  function StatusText(s: Status): string {
    match s
    case Preserved => "preserved"
    case Changed => "changed"
    case Added => "added"
    case Removed => "removed"
    case Refused => "refused"
  }

  const CHANGE_KEYS := ["path", "source_present", "source_value", "target_present", "target_value", "status"]

  function ChangeValues(c: Change): (values: seq<Value>)
    ensures |values| == 6
  {
    [VStr(c.path), VBool(c.source.Some?), c.source.GetOr(VNone), VBool(c.target.Some?), c.target.GetOr(VNone),
     VStr(StatusText(c.status))]
  }

  /** The encoded form of one change. */
  function ChangePayload(c: Change): Value {
    Dict(CHANGE_KEYS, ChangeValues(c))
  }

  lemma ChangeKeysLegal()
    ensures KeysLegal(CHANGE_KEYS)
  {
    assert "source_present"[0] != "target_present"[0] && "source_value"[0] != "target_value"[0];
    assert FLOAT_TAG[0] == '$';
  }

  predicate SideOk(floats: Floats, side: Option<Value>) {
    side.Some? ==> WellFormed(floats, side.value) && Listed(side.value)
  }

  predicate ChangeOk(floats: Floats, c: Change) {
    SideOk(floats, c.source) && SideOk(floats, c.target)
  }

  lemma StatusTextInjective(a: Status, b: Status)
    requires StatusText(a) == StatusText(b)
    ensures a == b
  {
    assert |"preserved"| == 9 && |"changed"| == |"removed"| == |"refused"| == 7 && |"added"| == 5;
    assert "changed"[0] == 'c' && "removed"[2] == 'm' && "refused"[2] == 'f' && "removed"[0] == "refused"[0] == 'r';
  }

  /** Equal encodings have equal fields. */
  lemma SameField(c: Change, d: Change, i: nat)
    requires i < 6 && Ordered(ChangePayload(c)) == Ordered(ChangePayload(d))
    ensures Ordered(ChangeValues(c)[i]) == Ordered(ChangeValues(d)[i])
  {
    ChangeKeysLegal();
    FindInDict(CHANGE_KEYS, ChangeValues(c), 0, i);
    FindInDict(CHANGE_KEYS, ChangeValues(d), 0, i);
    OrderedFinds(ChangePayload(c).entries, CHANGE_KEYS[i]);
    OrderedFinds(ChangePayload(d).entries, CHANGE_KEYS[i]);
  }

  lemma ChangePayloadWellFormed(floats: Floats, c: Change)
    requires ChangeOk(floats, c)
    ensures WellFormed(floats, ChangePayload(c))
  {
    ChangeKeysLegal();
    DictWellFormed(floats, CHANGE_KEYS, ChangeValues(c), 0);
  }

  lemma SideListed(side: Option<Value>)
    requires side.Some? ==> Listed(side.value)
    ensures Ordered(side.GetOr(VNone)) == side.GetOr(VNone)
  {
    if side.Some? { ListedIsOrdered(side.value); }
  }

  /** Changes with the same encoding are the same. */
  lemma ChangeEncodingInjective(floats: Floats, c: Change, d: Change)
    requires floats.Sound() && ChangeOk(floats, c) && ChangeOk(floats, d)
    requires CanonicalText(floats, ChangePayload(c)).Some?
    requires CanonicalText(floats, ChangePayload(c)) == CanonicalText(floats, ChangePayload(d))
    ensures c == d
  {
    ChangePayloadWellFormed(floats, c);
    ChangePayloadWellFormed(floats, d);
    CanonicalInjective(floats, ChangePayload(c), ChangePayload(d));
    forall i: nat | i < 6 ensures Ordered(ChangeValues(c)[i]) == Ordered(ChangeValues(d)[i]) {
      SameField(c, d, i);
    }
    SideListed(c.source);
    SideListed(c.target);
    SideListed(d.source);
    SideListed(d.target);
    StatusTextInjective(c.status, d.status);
  }

  lemma LedgerEntryOk(floats: Floats, s: Entries, t: Entries, path: string)
    requires FieldsOk(floats, s) && FieldsOk(floats, t)
    ensures ChangeOk(floats, ChangeAt(floats, s, t, path))
    ensures CanonicalText(floats, ChangePayload(ChangeAt(floats, s, t, path))).Some?
  {
    var c := ChangeAt(floats, s, t, path);
    if c.source.Some? { FieldOk(floats, s, path); }
    if c.target.Some? { FieldOk(floats, t, path); }
    ChangeKeysLegal();
    DictEncodable(CHANGE_KEYS, ChangeValues(c), 0);
  }

  lemma {:induction false} DictEncodable(keys: seq<string>, values: seq<Value>, k: nat)
    requires |keys| == |values| && k <= |keys| && KeysLegal(keys)
    requires forall i :: 0 <= i < |values| ==> Encodable(values[i])
    ensures EncodableEntries(DictFrom(keys, values, k))
    decreases |keys| - k
  {
    if k < |keys| { DictEncodable(keys, values, k + 1); }
  }

  function EntryPaths(entries: seq<Change>): (paths: seq<string>)
    ensures |paths| == |entries| && forall i :: 0 <= i < |paths| ==> paths[i] == entries[i].path
  {
    seq(|entries|, i requires 0 <= i < |entries| => entries[i].path)
  }

  /** The validator accepts the ledger of the two payloads and no other. */
  method ValidateCompleteSuccessLedger(floats: Floats, entries: seq<Change>, source: Value, target: Value)
      returns (ok: bool)
    requires floats.Sound() && ValueOk(floats, source) && ValueOk(floats, target)
    requires Flatten(source).Some? && Flatten(target).Some?
    requires forall i :: 0 <= i < |entries| ==> ChangeOk(floats, entries[i])
    ensures ok <==> entries == Ledger(floats, Flatten(source).value, Flatten(target).value)
  {
    var s, t := Flatten(source).value, Flatten(target).value;
    FlattenOk(floats, NoEntries, source, "");
    FlattenOk(floats, NoEntries, target, "");
    var paths := Paths(s, t);
    ghost var ledger := Ledger(floats, s, t);
    if EntryPaths(entries) != paths {
      assert entries == ledger ==> EntryPaths(entries) == paths;
      return false;
    }
    for i := 0 to |entries|
      invariant forall j :: 0 <= j < i ==> entries[j] == ledger[j]
    {
      var entry := entries[i];
      assert EntryPaths(entries)[i] == paths[i];
      var expected := ChangeAt(floats, s, t, entry.path);
      LedgerEntryOk(floats, s, t, entry.path);
      if CanonicalText(floats, ChangePayload(entry)) != CanonicalText(floats, ChangePayload(expected)) {
        return false;
      }
      ChangeEncodingInjective(floats, entry, expected);
    }
    assert |entries| == |EntryPaths(entries)|;
    ok := true;
  }

  // ---------------------------------------------------------------- requests

  const MAX_ROOT_SEED: int := 0xFFFF_FFFF_FFFF_FFFF
  const MAX_REPLICATES: int := 1_000_000
  const FAIL_CLOSED := "fail_closed_v1"

  function NullSuccessor(name: string): Option<string> {
    if name == "circular_shift_v1" then Some("circular_shift_v2")
    else if name == "block_shuffle_v1" then Some("block_shuffle_v2")
    else None
  }

  function NullSource(name: string): Option<string> {
    if name == "circular_shift_v2" then Some("circular_shift_v1")
    else if name == "block_shuffle_v2" then Some("block_shuffle_v1")
    else None
  }

  /** The one entry of a refused migration's ledger. */
  function RefusalEntry(path: string, value: Value): Change {
    Change(path, Some(value), None, Refused)
  }

  /** What may be recorded as refused. */
  predicate RefusalValueOk(path: string, value: Value) {
    if path == "root_seed" then value.VInt? && value.i > MAX_ROOT_SEED
    else if path == "replicates" then value.VInt? && value.i > MAX_REPLICATES
    else path == "null.name" && value.VStr? && NullSuccessor(value.s).None?
  }

  /** The v2 request, or the first field that cannot enter v2. */
  function Migrate(r: PlanRequest): Result<PlanRequestV2, Change> {
    if NullSuccessor(r.nullName).None? then Err(RefusalEntry("null.name", VStr(r.nullName)))
    else if r.rootSeed > MAX_ROOT_SEED then Err(RefusalEntry("root_seed", VInt(r.rootSeed)))
    else if r.replicates > MAX_REPLICATES then Err(RefusalEntry("replicates", VInt(r.replicates)))
    else
      Ok(PlanRequestV2(r.candidates, r.statisticName, r.statisticParams, r.selectionRule,
                       NullSuccessor(r.nullName).value, r.nullParams, r.replicates, r.alpha, r.tieTolerance,
                       r.rootSeed))
  }

  /** The v1 request a migrated v2 request is checked against. */
  function SourceOf(r: PlanRequestV2): Option<PlanRequest> {
    match NullSource(r.nullName)
    case None => None
    case Some(name) =>
      Some(PlanRequest(r.candidates, r.statisticName, r.statisticParams, r.selectionRule, name, r.nullParams,
                       r.replicates, r.alpha, r.tieTolerance, r.rootSeed, FAIL_CLOSED))
  }

  /** The two names of each null model correspond one to one. */
  lemma NullNamesCorrespond(v1: string, v2: string)
    ensures NullSuccessor(v1) == Some(v2) <==> NullSource(v2) == Some(v1)
  {
    assert |"circular_shift_v1"| == |"circular_shift_v2"| == 17 && |"block_shuffle_v1"| == |"block_shuffle_v2"| == 16;
    assert "circular_shift_v1"[16] == '1' && "circular_shift_v2"[16] == '2';
    assert "block_shuffle_v1"[15] == '1' && "block_shuffle_v2"[15] == '2';
  }

  /** The rebuilt source of a migrated request is the request that was migrated. */
  lemma MigrationRebuildsSource(r: PlanRequest, v2: PlanRequestV2)
    requires r.failurePolicy == "fail_closed_v1"
    ensures Migrate(r) == Ok(v2)
       <==> SourceOf(v2) == Some(r) && v2.rootSeed <= 0xFFFF_FFFF_FFFF_FFFF && v2.replicates <= 1_000_000
  {
    NullNamesCorrespond(r.nullName, v2.nullName);
  }

  /** A refused request carries a value that may be refused, and no migratable request does. */
  lemma RefusalIsJustified(r: PlanRequest)
    ensures Migrate(r).Err? ==> Migrate(r).error.source.Some?
                                && RefusalValueOk(Migrate(r).error.path, Migrate(r).error.source.value)
    ensures Migrate(r).Ok? ==> !RefusalValueOk("null.name", VStr(r.nullName))
                               && !RefusalValueOk("root_seed", VInt(r.rootSeed))
                               && !RefusalValueOk("replicates", VInt(r.replicates))
  {
    assert |"null.name"| == |"root_seed"| == 9 && "null.name"[0] != "root_seed"[0] && |"replicates"| == 10;
  }
}
