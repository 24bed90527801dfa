/** JSON objects as records: ordered insertion, lookup, and exactly the required keys. */
module JsonRecords {
  import opened Wrappers
  import opened Json
  import opened JsonRoundTrip
  import opened PrintedDepth

  /** The order of code points, as sorted keys use it. */
  predicate Before(a: string, b: string) {
    b != "" && (a == "" || a[0] < b[0] || (a[0] == b[0] && Before(a[1..], b[1..])))
  }

  lemma {:induction false} BeforeIsTotal(a: string, b: string)
    ensures Before(a, b) || a == b || Before(b, a)
  {
    if a != "" && b != "" && a[0] == b[0] {
      BeforeIsTotal(a[1..], b[1..]);
      assert a == [a[0]] + a[1..] && b == [b[0]] + b[1..];
    }
  }

  /** A member placed before the first key that is not smaller. */
  function Insert(key: string, value: Json, members: Members): Members {
    match members
    case NoMembers => Member(key, value, NoMembers)
    case Member(k, v, rest) =>
      if Before(k, key) then Member(k, v, Insert(key, value, rest)) else Member(key, value, members)
  }

  function Lookup(members: Members, key: string): Option<Json> {
    match members
    case NoMembers => None
    case Member(k, v, rest) => if k == key then Some(v) else Lookup(rest, key)
  }

  predicate KeysAmong(members: Members, keys: seq<string>) {
    match members
    case NoMembers => true
    case Member(k, _, rest) => k in keys && KeysAmong(rest, keys)
  }

  predicate KeysSorted(members: Members) {
    match members
    case NoMembers => true
    case Member(k, _, rest) => (rest.Member? ==> Before(k, rest.key)) && KeysSorted(rest)
  }

  /** The keys of the object are exactly the given ones. */
  predicate HasExactly(members: Members, keys: seq<string>) {
    KeysAmong(members, keys) && forall i :: 0 <= i < |keys| ==> HasKey(members, keys[i])
  }

  lemma {:induction false} LookupFinds(members: Members, key: string)
    ensures HasKey(members, key) <==> Lookup(members, key).Some?
  {
    if members.Member? { LookupFinds(members.rest, key); }
  }

  lemma {:induction false} LookupInserted(key: string, value: Json, members: Members, k: string)
    ensures Lookup(Insert(key, value, members), k) == if k == key then Some(value) else Lookup(members, k)
    ensures HasKey(Insert(key, value, members), k) <==> k == key || HasKey(members, k)
  {
    if members.Member? && Before(members.key, key) {
      BeforeIrreflexive(key);
      LookupInserted(key, value, members.rest, k);
    }
  }

  lemma {:induction false} BeforeIrreflexive(key: string)
    ensures !Before(key, key)
  {
    if key != "" { BeforeIrreflexive(key[1..]); }
  }

  lemma {:induction false} KeysAmongInserted(key: string, value: Json, members: Members, keys: seq<string>)
    requires key in keys && KeysAmong(members, keys)
    ensures KeysAmong(Insert(key, value, members), keys)
  {
    if members.Member? && Before(members.key, key) { KeysAmongInserted(key, value, members.rest, keys); }
  }

  lemma {:induction false} DistinctInserted(key: string, value: Json, members: Members)
    requires KeysDistinct(members) && !HasKey(members, key)
    ensures KeysDistinct(Insert(key, value, members))
  {
    if members.Member? && Before(members.key, key) {
      DistinctInserted(key, value, members.rest);
      LookupInserted(key, value, members.rest, members.key);
    }
  }

  /** Inserting a new key keeps the keys in order. */
  lemma {:induction false} SortedInserted(key: string, value: Json, members: Members)
    requires KeysSorted(members) && !HasKey(members, key)
    ensures KeysSorted(Insert(key, value, members))
  {
    if members.Member? {
      BeforeIsTotal(members.key, key);
      if Before(members.key, key) { SortedInserted(key, value, members.rest); }
    }
  }

  lemma {:induction false} DepthInserted(key: string, value: Json, members: Members)
    ensures MembersDepth(Insert(key, value, members)) == Max(Depth(value), MembersDepth(members))
  {
    if members.Member? && Before(members.key, key) { DepthInserted(key, value, members.rest); }
  }

  lemma {:induction false} ReadableInserted(key: string, value: Json, members: Members)
    ensures ReadableMembers(Insert(key, value, members)) <==> Readable(value) && ReadableMembers(members)
  {
    if members.Member? && Before(members.key, key) { ReadableInserted(key, value, members.rest); }
  }

  function ItemsOf(values: seq<Json>): Items {
    if values == [] then NoItems else Item(values[0], ItemsOf(values[1..]))
  }

  function SeqOf(items: Items): (values: seq<Json>) {
    match items
    case NoItems => []
    case Item(head, tail) => [head] + SeqOf(tail)
  }

  lemma {:induction false} SeqOfItems(values: seq<Json>)
    ensures SeqOf(ItemsOf(values)) == values
  {
    if values != [] {
      SeqOfItems(values[1..]);
      assert values == [values[0]] + values[1..];
    }
  }
}
