/** Dictionaries listed in the order of their keys: putting, removing, and extensional equality. */
module Dictionaries {
  import opened Wrappers
  import opened JsonRecords
  import opened Canonical

  lemma {:induction false} BeforeTransitive(a: string, b: string, c: string)
    requires Before(a, b) && Before(b, c)
    ensures Before(a, c)
  {
    if a != "" && a[0] == b[0] == c[0] { BeforeTransitive(a[1..], b[1..], c[1..]); }
  }

  predicate Sorted(e: Entries) {
    match e
    case NoEntries => true
    case Entry(k, _, rest) => (rest.Entry? ==> Before(k, rest.key)) && Sorted(rest)
  }

  /** One assignment to a dictionary key. */
  function Put(e: Entries, key: string, value: Value): Entries {
    match e
    case NoEntries => Entry(key, value, NoEntries)
    case Entry(k, v, rest) =>
      if k == key then Entry(key, value, rest)
      else if Before(k, key) then Entry(k, v, Put(rest, key, value))
      else Entry(key, value, e)
  }

  function Remove(e: Entries, key: string): Entries {
    match e
    case NoEntries => NoEntries
    case Entry(k, v, rest) => if k == key then rest else Entry(k, v, Remove(rest, key))
  }

  lemma {:induction false} FindPut(e: Entries, key: string, value: Value, q: string)
    ensures Find(Put(e, key, value), q) == if q == key then Some(value) else Find(e, q)
  {
    if e.Entry? && e.key != key && Before(e.key, key) { FindPut(e.rest, key, value, q); }
  }

  lemma {:induction false} SortedPut(e: Entries, key: string, value: Value)
    requires Sorted(e)
    ensures Sorted(Put(e, key, value))
  {
    if e.Entry? {
      BeforeIsTotal(e.key, key);
      if e.key != key && Before(e.key, key) { SortedPut(e.rest, key, value); }
    }
  }

  /** In a sorted dictionary every later key comes after the first. */
  lemma {:induction false} FirstIsLeast(e: Entries, q: string)
    requires Sorted(e) && e.Entry? && Find(e.rest, q).Some?
    ensures Before(e.key, q)
  {
    if e.rest.key != q {
      FirstIsLeast(e.rest, q);
      BeforeTransitive(e.key, e.rest.key, q);
    }
  }

  lemma {:induction false} FindRemove(e: Entries, key: string, q: string)
    requires Sorted(e)
    ensures Find(Remove(e, key), q) == if q == key then None else Find(e, q)
  {
    if e.Entry? {
      if e.key == key {
        if q == key && Find(e.rest, q).Some? {
          FirstIsLeast(e, q);
          BeforeIrreflexive(q);
        }
      } else {
        FindRemove(e.rest, key, q);
      }
    }
  }

  lemma {:induction false} SortedRemove(e: Entries, key: string)
    requires Sorted(e)
    ensures Sorted(Remove(e, key))
    ensures Remove(e, key).Entry? && e.Entry? ==> e.key == Remove(e, key).key || Before(e.key, Remove(e, key).key)
  {
    if e.Entry? && e.key != key {
      SortedRemove(e.rest, key);
      if e.rest.Entry? && Remove(e.rest, key).Entry? && e.rest.key != Remove(e.rest, key).key {
        BeforeTransitive(e.key, e.rest.key, Remove(e.rest, key).key);
      }
    }
  }

  lemma FirstFound(e: Entries)
    requires e.Entry?
    ensures Find(e, e.key) == Some(e.value)
  {
  }

  /** Sorted dictionaries that agree on every key are the same listing. */
  lemma {:induction false} SortedEqual(a: Entries, b: Entries)
    requires Sorted(a) && Sorted(b) && forall q :: Find(a, q) == Find(b, q)
    ensures a == b
  {
    if a.Entry? { FirstFound(a); }
    if b.Entry? { FirstFound(b); }
    if a.Entry? && b.Entry? {
      if a.key != b.key {
        FirstIsLeast(b, a.key);
        FirstIsLeast(a, b.key);
        BeforeTransitive(a.key, b.key, a.key);
        BeforeIrreflexive(a.key);
      }
      forall q ensures Find(a.rest, q) == Find(b.rest, q) {
        assert Find(a, q) == Find(b, q);
        if q == a.key { NotInRest(a); NotInRest(b); }
      }
      SortedEqual(a.rest, b.rest);
    }
  }

  lemma NotInRest(e: Entries)
    requires Sorted(e) && e.Entry?
    ensures Find(e.rest, e.key) == None
  {
    if Find(e.rest, e.key).Some? {
      FirstIsLeast(e, e.key);
      BeforeIrreflexive(e.key);
    }
  }

  function Keys(e: Entries): seq<string> {
    match e
    case NoEntries => []
    case Entry(k, _, rest) => [k] + Keys(rest)
  }

  lemma {:induction false} KeysAreFound(e: Entries, q: string)
    ensures q in Keys(e) <==> Find(e, q).Some?
  {
    if e.Entry? { KeysAreFound(e.rest, q); }
  }

  lemma {:induction false} KeysIncrease(e: Entries, i: nat, j: nat)
    requires Sorted(e) && i < j < |Keys(e)|
    ensures Before(Keys(e)[i], Keys(e)[j])
  {
    if i > 0 {
      KeysIncrease(e.rest, i - 1, j - 1);
    } else {
      assert Keys(e)[j] == Keys(e.rest)[j - 1];
      KeysAreFound(e.rest, Keys(e)[j]);
      FirstIsLeast(e, Keys(e)[j]);
    }
  }
}
