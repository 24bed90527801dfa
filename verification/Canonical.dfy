/** Canonical byte encoding: floats become tagged hexadecimal objects and keys are sorted. */
module Canonical {
  import opened Wrappers
  import opened Json
  import opened JsonRoundTrip
  import opened JsonRecords

  /** A Python value of the kinds that can be encoded; dictionaries list their entries in insertion order. */
  datatype Value =
    | VNone
    | VBool(b: bool)
    | VInt(i: int)
    | VStr(s: string)
    | VFloat(x: real)
    | VList(items: seq<Value>)
    | VDict(entries: Entries)

  datatype Entries = NoEntries | Entry(key: string, value: Value, rest: Entries)

  const FLOAT_TAG := "$float64"

  /** The exact hexadecimal spelling of finite floats and its reader. */
  datatype Floats = Floats(isFloat: real -> bool, hex: real -> string, fromHex: string -> Option<real>) {
    ghost predicate Sound() {
      && (forall x :: isFloat(x) ==> fromHex(hex(x)) == Some(x))
      && (forall s :: fromHex(s).Some? ==> isFloat(fromHex(s).value))
    }
  }

  function HasEntry(entries: Entries, key: string): bool {
    match entries
    case NoEntries => false
    case Entry(k, _, rest) => k == key || HasEntry(rest, key)
  }

  /** A value Python can hold: its floats are floats and no dictionary repeats a key. */
  predicate WellFormed(floats: Floats, v: Value)
    decreases v
  {
    match v
    case VFloat(x) => floats.isFloat(x)
    case VList(items) => forall i :: 0 <= i < |items| ==> WellFormed(floats, items[i])
    case VDict(entries) => WellFormedEntries(floats, entries)
    case _ => true
  }

  predicate WellFormedEntries(floats: Floats, entries: Entries)
    decreases entries
  {
    match entries
    case NoEntries => true
    case Entry(key, value, rest) =>
      !HasEntry(rest, key) && WellFormed(floats, value) && WellFormedEntries(floats, rest)
  }

  /** No dictionary uses the key that is reserved for tagged floats. */
  predicate Encodable(v: Value)
    decreases v
  {
    match v
    case VList(items) => forall i :: 0 <= i < |items| ==> Encodable(items[i])
    case VDict(entries) => EncodableEntries(entries)
    case _ => true
  }

  predicate EncodableEntries(entries: Entries)
    decreases entries
  {
    match entries
    case NoEntries => true
    case Entry(key, value, rest) => key != FLOAT_TAG && Encodable(value) && EncodableEntries(rest)
  }

  function Tagged(text: string): Json {
    Obj(Member(FLOAT_TAG, Str(text), NoMembers))
  }

  function Normalize(floats: Floats, v: Value): Json
    decreases v
  {
    match v
    case VNone => Null
    case VBool(b) => Bool(b)
    case VInt(i) => Int(i)
    case VStr(s) => Str(s)
    case VFloat(x) => Tagged(floats.hex(x))
    case VList(items) => Arr(NormalizeItems(floats, items))
    case VDict(entries) => Obj(NormalizeEntries(floats, entries))
  }

  function NormalizeItems(floats: Floats, items: seq<Value>): Items
    decreases items
  {
    if items == [] then NoItems else Item(Normalize(floats, items[0]), NormalizeItems(floats, items[1..]))
  }

  function NormalizeEntries(floats: Floats, entries: Entries): Members
    decreases entries
  {
    match entries
    case NoEntries => NoMembers
    case Entry(key, value, rest) => Insert(key, Normalize(floats, value), NormalizeEntries(floats, rest))
  }

  /** The canonical text of a value, or None where the reserved key is refused. */
  function CanonicalText(floats: Floats, v: Value): Option<string> {
    if Encodable(v) then Some(Print(Normalize(floats, v))) else None
  }

  // ---------------------------------------------------------------- records

  /** The dictionary of the keys from the k-th on with their values. */
  function DictFrom(keys: seq<string>, values: seq<Value>, k: nat): Entries
    requires |keys| == |values| && k <= |keys|
    decreases |keys| - k
  {
    if k == |keys| then NoEntries else Entry(keys[k], values[k], DictFrom(keys, values, k + 1))
  }

  function Dict(keys: seq<string>, values: seq<Value>): Value
    requires |keys| == |values|
  {
    VDict(DictFrom(keys, values, 0))
  }

  function Strings(xs: seq<string>): Value {
    VList(seq(|xs|, i requires 0 <= i < |xs| => VStr(xs[i])))
  }

  function Ints(xs: seq<int>): Value {
    VList(seq(|xs|, i requires 0 <= i < |xs| => VInt(xs[i])))
  }

  /** Keys of a record: all different, none reserved. */
  predicate KeysLegal(keys: seq<string>) {
    (forall i, j :: 0 <= i < j < |keys| ==> keys[i] != keys[j]) && FLOAT_TAG !in keys
  }

  lemma {:induction false} FindInDict(keys: seq<string>, values: seq<Value>, k: nat, i: nat)
    requires |keys| == |values| && KeysLegal(keys) && k <= i < |keys|
    ensures Find(DictFrom(keys, values, k), keys[i]) == Some(values[i])
    decreases i - k
  {
    if k < i { FindInDict(keys, values, k + 1, i); }
  }

  lemma {:induction false} DictWellFormed(floats: Floats, keys: seq<string>, values: seq<Value>, k: nat)
    requires |keys| == |values| && k <= |keys| && KeysLegal(keys)
    requires forall i :: 0 <= i < |values| ==> WellFormed(floats, values[i])
    ensures WellFormedEntries(floats, DictFrom(keys, values, k))
    ensures forall i :: 0 <= i < k ==> !HasEntry(DictFrom(keys, values, k), keys[i])
    decreases |keys| - k
  {
    if k < |keys| { DictWellFormed(floats, keys, values, k + 1); }
  }

  // ---------------------------------------------------------------- what is kept

  lemma {:induction false} NormalizedItem(floats: Floats, items: seq<Value>)
    ensures |SeqOf(NormalizeItems(floats, items))| == |items|
    ensures forall i {:trigger items[i]} :: 0 <= i < |items| ==>
              SeqOf(NormalizeItems(floats, items))[i] == Normalize(floats, items[i])
    decreases |items|
  {
    if items != [] {
      NormalizedItem(floats, items[1..]);
      forall i | 0 <= i < |items|
        ensures SeqOf(NormalizeItems(floats, items))[i] == Normalize(floats, items[i])
      {
        if i > 0 { assert items[i] == items[1..][i - 1]; }
      }
    }
  }

  lemma {:induction false} NormalizedKeys(floats: Floats, entries: Entries, key: string)
    ensures HasKey(NormalizeEntries(floats, entries), key) <==> HasEntry(entries, key)
  {
    if entries.Entry? {
      NormalizedKeys(floats, entries.rest, key);
      LookupInserted(entries.key, Normalize(floats, entries.value), NormalizeEntries(floats, entries.rest), key);
    }
  }

  /** Canonical objects have distinct keys throughout, so the strict reader accepts them. */
  lemma {:induction false} NormalizedReadable(floats: Floats, v: Value)
    requires WellFormed(floats, v)
    ensures Readable(Normalize(floats, v))
    decreases v
  {
    match v
    case VList(items) => ItemsReadable(floats, items);
    case VDict(entries) => EntriesReadable(floats, entries);
    case VFloat(x) => assert KeysDistinct(Tagged(floats.hex(x)).members);
    case _ =>
  }

  lemma {:induction false} ItemsReadable(floats: Floats, items: seq<Value>)
    requires forall i :: 0 <= i < |items| ==> WellFormed(floats, items[i])
    ensures ReadableItems(NormalizeItems(floats, items))
    decreases items
  {
    if items != [] {
      NormalizedReadable(floats, items[0]);
      ItemsReadable(floats, items[1..]);
    }
  }

  lemma {:induction false} EntriesReadable(floats: Floats, entries: Entries)
    requires WellFormedEntries(floats, entries)
    ensures KeysDistinct(NormalizeEntries(floats, entries)) && ReadableMembers(NormalizeEntries(floats, entries))
    ensures KeysSorted(NormalizeEntries(floats, entries))
    decreases entries
  {
    if entries.Entry? {
      var value, rest := Normalize(floats, entries.value), NormalizeEntries(floats, entries.rest);
      NormalizedReadable(floats, entries.value);
      EntriesReadable(floats, entries.rest);
      NormalizedKeys(floats, entries.rest, entries.key);
      DistinctInserted(entries.key, value, rest);
      SortedInserted(entries.key, value, rest);
      ReadableInserted(entries.key, value, rest);
    }
  }

  // ---------------------------------------------------------------- injectivity

  function InsertEntry(key: string, value: Value, entries: Entries): Entries {
    match entries
    case NoEntries => Entry(key, value, NoEntries)
    case Entry(k, v, rest) =>
      if Before(k, key) then Entry(k, v, InsertEntry(key, value, rest)) else Entry(key, value, entries)
  }

  /** The same value with every dictionary listed in the order of its keys. */
  function Ordered(v: Value): Value
    decreases v
  {
    match v
    case VList(items) => VList(OrderedItems(items))
    case VDict(entries) => VDict(OrderedEntries(entries))
    case _ => v
  }

  function OrderedItems(items: seq<Value>): seq<Value>
    decreases items
  {
    if items == [] then [] else [Ordered(items[0])] + OrderedItems(items[1..])
  }

  function OrderedEntries(entries: Entries): Entries
    decreases entries
  {
    match entries
    case NoEntries => NoEntries
    case Entry(key, value, rest) => InsertEntry(key, Ordered(value), OrderedEntries(rest))
  }

  function Find(entries: Entries, key: string): Option<Value> {
    match entries
    case NoEntries => None
    case Entry(k, v, rest) => if k == key then Some(v) else Find(rest, key)
  }

  lemma {:induction false} FindInserted(key: string, value: Value, entries: Entries, k: string)
    ensures Find(InsertEntry(key, value, entries), k) == if k == key then Some(value) else Find(entries, k)
  {
    if entries.Entry? && Before(entries.key, key) {
      BeforeIrreflexive(key);
      FindInserted(key, value, entries.rest, k);
    }
  }

  /** Ordering a dictionary keeps what each key stands for. */
  lemma {:induction false} OrderedFinds(entries: Entries, key: string)
    ensures Find(OrderedEntries(entries), key)
         == match Find(entries, key) case None => None case Some(v) => Some(Ordered(v))
  {
    if entries.Entry? {
      OrderedFinds(entries.rest, key);
      FindInserted(entries.key, Ordered(entries.value), OrderedEntries(entries.rest), key);
    }
  }

  /** The value a canonical tree stands for. */
  function Restore(floats: Floats, j: Json): Value
    decreases j
  {
    match j
    case Null => VNone
    case Bool(b) => VBool(b)
    case Int(i) => VInt(i)
    case Str(s) => VStr(s)
    case Arr(items) => VList(RestoreItems(floats, items))
    case Obj(members) =>
      if members.Member? && members.key == FLOAT_TAG && members.value.Str?
      then VFloat(floats.fromHex(members.value.s).GetOr(0.0))
      else VDict(RestoreMembers(floats, members))
  }

  function RestoreItems(floats: Floats, items: Items): seq<Value>
    decreases items
  {
    match items
    case NoItems => []
    case Item(head, tail) => [Restore(floats, head)] + RestoreItems(floats, tail)
  }

  function RestoreMembers(floats: Floats, members: Members): Entries
    decreases members
  {
    match members
    case NoMembers => NoEntries
    case Member(key, value, rest) => Entry(key, Restore(floats, value), RestoreMembers(floats, rest))
  }

  lemma {:induction false} RestoreInserted(floats: Floats, key: string, value: Json, members: Members)
    ensures RestoreMembers(floats, Insert(key, value, members))
         == InsertEntry(key, Restore(floats, value), RestoreMembers(floats, members))
  {
    if members.Member? && Before(members.key, key) { RestoreInserted(floats, key, value, members.rest); }
  }

  lemma {:induction false} NoTag(floats: Floats, entries: Entries)
    requires EncodableEntries(entries)
    ensures !HasEntry(entries, FLOAT_TAG)
  {
    if entries.Entry? { NoTag(floats, entries.rest); }
  }

  lemma {:induction false} RestoreNormalized(floats: Floats, v: Value)
    requires floats.Sound() && WellFormed(floats, v) && Encodable(v)
    ensures Restore(floats, Normalize(floats, v)) == Ordered(v)
    decreases v
  {
    match v
    case VList(items) => RestoreNormalizedItems(floats, items);
    case VDict(entries) =>
      RestoreNormalizedEntries(floats, entries);
      NoTag(floats, entries);
      NormalizedKeys(floats, entries, FLOAT_TAG);
    case _ =>
  }

  lemma {:induction false} RestoreNormalizedItems(floats: Floats, items: seq<Value>)
    requires floats.Sound()
    requires forall i :: 0 <= i < |items| ==> WellFormed(floats, items[i]) && Encodable(items[i])
    ensures RestoreItems(floats, NormalizeItems(floats, items)) == OrderedItems(items)
    decreases items
  {
    if items != [] {
      RestoreNormalized(floats, items[0]);
      RestoreNormalizedItems(floats, items[1..]);
    }
  }

  lemma {:induction false} RestoreNormalizedEntries(floats: Floats, entries: Entries)
    requires floats.Sound() && WellFormedEntries(floats, entries) && EncodableEntries(entries)
    ensures RestoreMembers(floats, NormalizeEntries(floats, entries)) == OrderedEntries(entries)
    decreases entries
  {
    if entries.Entry? {
      RestoreNormalized(floats, entries.value);
      RestoreNormalizedEntries(floats, entries.rest);
      RestoreInserted(floats, entries.key, Normalize(floats, entries.value), NormalizeEntries(floats, entries.rest));
    }
  }

  /** Equal canonical texts mean equal values, up to the order in which dictionaries were filled. */
  lemma CanonicalInjective(floats: Floats, a: Value, b: Value)
    requires floats.Sound() && WellFormed(floats, a) && WellFormed(floats, b)
    requires CanonicalText(floats, a).Some? && CanonicalText(floats, a) == CanonicalText(floats, b)
    ensures Ordered(a) == Ordered(b)
  {
    StrictReadsScalars();
    NormalizedReadable(floats, a);
    NormalizedReadable(floats, b);
    ReadDocumentPrinted(StrictScalars(), Normalize(floats, a));
    ReadDocumentPrinted(StrictScalars(), Normalize(floats, b));
    RestoreNormalized(floats, a);
    RestoreNormalized(floats, b);
  }
}
