/** Flattening nested payloads into dotted paths, and when nothing is lost by it. */
module FlatPayload {
  import opened Wrappers
  import opened Canonical
  import opened Dictionaries

  // ---------------------------------------------------------------- flattening

  /** The path of a key below a path. */
  function Child(path: string, key: string): string {
    if path != "" then path + "." + key else key
  }

  predicate IsBranch(v: Value) {
    v.VDict? && v.entries.Entry?
  }

  /** The leaves of a value below a path, assigned in key order; None where a leaf has no path. */
  function FlattenInto(fields: Entries, v: Value, path: string): Option<Entries>
    decreases v
  {
    if IsBranch(v) then FlattenEntries(fields, v.entries, path)
    else if path == "" then None
    else Some(Put(fields, path, v))
  }

  function FlattenEntries(fields: Entries, entries: Entries, path: string): Option<Entries>
    decreases entries
  {
    match entries
    case NoEntries => Some(fields)
    case Entry(key, value, rest) =>
      match FlattenInto(fields, value, Child(path, key))
      case None => None
      case Some(next) => FlattenEntries(next, rest, path)
  }

  function Flatten(v: Value): Option<Entries> {
    FlattenInto(NoEntries, v, "")
  }

  lemma {:induction false} FlattenSorted(fields: Entries, v: Value, path: string)
    requires Sorted(fields)
    ensures FlattenInto(fields, v, path).Some? ==> Sorted(FlattenInto(fields, v, path).value)
    decreases v
  {
    if IsBranch(v) {
      FlattenEntriesSorted(fields, v.entries, path);
    } else {
      SortedPut(fields, path, v);
    }
  }

  lemma {:induction false} FlattenEntriesSorted(fields: Entries, entries: Entries, path: string)
    requires Sorted(fields)
    ensures FlattenEntries(fields, entries, path).Some? ==> Sorted(FlattenEntries(fields, entries, path).value)
    decreases entries
  {
    if entries.Entry? {
      FlattenSorted(fields, entries.value, Child(path, entries.key));
      var next := FlattenInto(fields, entries.value, Child(path, entries.key));
      if next.Some? { FlattenEntriesSorted(next.value, entries.rest, path); }
    }
  }

  // ---------------------------------------------------------------- paths

  function Join(p: seq<string>): string {
    if p == [] then ""
    else if |p| == 1 then p[0]
    else Join(p[..|p| - 1]) + "." + p[|p| - 1]
  }

  /** The segments of a path between its dots. */
  function Split(q: string): (segments: seq<string>)
    ensures segments != []
  {
    if q == "" then [""]
    else
      var before, c := Split(q[..|q| - 1]), q[|q| - 1];
      if c == '.' then before + [""] else before[..|before| - 1] + [before[|before| - 1] + [c]]
  }

  predicate DotFree(key: string) {
    forall i :: 0 <= i < |key| ==> key[i] != '.'
  }

  lemma {:induction false} JoinSplit(q: string)
    ensures Join(Split(q)) == q
  {
    if q != "" {
      var before, c := Split(q[..|q| - 1]), q[|q| - 1];
      JoinSplit(q[..|q| - 1]);
      assert q == q[..|q| - 1] + [c];
      if c == '.' {
        assert Split(q)[..|Split(q)| - 1] == before;
        assert Join(before) + "." + "" == q;
      } else if |before| > 1 {
        assert Split(q)[..|Split(q)| - 1] == before[..|before| - 1];
        assert Join(before[..|before| - 1]) + "." + (before[|before| - 1] + [c]) == Join(before) + [c];
      }
    }
  }

  /** The segments with the last one made longer. */
  function Extended(segments: seq<string>, s: string): seq<string>
    requires segments != []
  {
    segments[..|segments| - 1] + [segments[|segments| - 1] + s]
  }

  lemma ExtendedTwice(segments: seq<string>, s: string, c: char)
    requires segments != []
    ensures Extended(Extended(segments, s), [c]) == Extended(segments, s + [c])
  {
    var last := segments[|segments| - 1];
    assert last + s + [c] == last + (s + [c]);
  }

  lemma SplitChar(q: string, c: char)
    requires c != '.'
    ensures Split(q + [c]) == Extended(Split(q), [c])
  {
    assert (q + [c])[..|q|] == q;
  }

  lemma SplitOneMore(base: string, front: string, c: char)
    requires c != '.' && Split(base + front) == Extended(Split(base), front)
    ensures Split(base + (front + [c])) == Extended(Split(base), front + [c])
  {
    SplitChar(base + front, c);
    ExtendedTwice(Split(base), front, c);
    assert base + front + [c] == base + (front + [c]);
  }

  lemma {:induction false} SplitAppend(base: string, s: string)
    requires DotFree(s)
    ensures Split(base + s) == Extended(Split(base), s)
    decreases |s|
  {
    if s == "" {
      assert base + s == base && Split(base)[|Split(base)| - 1] + s == Split(base)[|Split(base)| - 1];
    } else {
      var front, c := s[..|s| - 1], s[|s| - 1];
      SplitAppend(base, front);
      SplitOneMore(base, front, c);
      assert front + [c] == s;
    }
  }

  /** A dot starts a new segment. */
  lemma SplitSegment(base: string, key: string)
    requires DotFree(key)
    ensures Split(base + "." + key) == Split(base) + [key]
  {
    var dotted := base + ".";
    assert dotted[..|base|] == base;
    assert Split(dotted) == Split(base) + [""];
    SplitAppend(dotted, key);
    assert Extended(Split(base) + [""], key) == Split(base) + ["" + key] && "" + key == key;
  }

  predicate AllDotFree(p: seq<string>) {
    forall i :: 0 <= i < |p| ==> DotFree(p[i])
  }

  /** Splitting undoes joining when no segment contains a dot. */
  lemma {:induction false} SplitJoin(p: seq<string>)
    requires p != [] && AllDotFree(p)
    ensures Split(Join(p)) == p
    decreases |p|
  {
    var last := p[|p| - 1];
    if |p| == 1 {
      SplitAppend("", last);
      assert "" + last == last && p == [last];
    } else {
      var front := p[..|p| - 1];
      SplitJoin(front);
      SplitSegment(Join(front), last);
      assert p == front + [last];
    }
  }

  lemma JoinChild(p: seq<string>, key: string)
    requires p == [] || p[0] != ""
    ensures Child(Join(p), key) == Join(p + [key])
  {
    if p != [] {
      assert (p + [key])[..|p|] == p;
      JoinNonempty(p);
    }
  }

  lemma {:induction false} JoinNonempty(p: seq<string>)
    requires p != [] && p[0] != ""
    ensures Join(p) != ""
  {
  }

  // ---------------------------------------------------------------- nothing lost

  /** Dictionaries are listed in key order, and no key on the way to a leaf contains a dot. */
  predicate PathSafe(v: Value)
    decreases v
  {
    v.VDict? ==> Sorted(v.entries) && PathSafeEntries(v.entries)
  }

  predicate PathSafeEntries(entries: Entries)
    decreases entries
  {
    match entries
    case NoEntries => true
    case Entry(key, value, rest) => DotFree(key) && PathSafe(value) && PathSafeEntries(rest)
  }

  /** A payload that flattens without loss: a nonempty object without an empty top-level key. */
  predicate PayloadSafe(v: Value) {
    IsBranch(v) && PathSafe(v) && Find(v.entries, "").None?
  }

  /** The leaf below the keys of a path, one after the other. */
  function LeafAt(v: Value, segments: seq<string>): Option<Value>
    decreases v, 1
  {
    if IsBranch(v) then LeafBelow(v.entries, segments)
    else if segments == [] then Some(v)
    else None
  }

  function LeafBelow(entries: Entries, segments: seq<string>): Option<Value>
    decreases entries, 0
  {
    match entries
    case NoEntries => None
    case Entry(key, value, rest) =>
      if segments != [] && segments[0] == key then LeafAt(value, segments[1..]) else LeafBelow(rest, segments)
  }

  /** What a path holds after leaves have been assigned: its leaf, or what was there before. */
  function Held(fields: Entries, q: string, leaf: Option<Value>): Option<Value> {
    if leaf.Some? then leaf else Find(fields, q)
  }

  lemma {:induction false} NoLeafElsewhere(entries: Entries, segments: seq<string>)
    requires segments == [] || Find(entries, segments[0]).None?
    ensures LeafBelow(entries, segments).None?
  {
    if entries.Entry? { NoLeafElsewhere(entries.rest, segments); }
  }

  /** The leaf at the path with segments t, of a value whose own path has segments p. */
  function LeafUnder(v: Value, p: seq<string>, t: seq<string>): Option<Value> {
    if p <= t then LeafAt(v, t[|p|..]) else None
  }

  function LeavesUnder(entries: Entries, p: seq<string>, t: seq<string>): Option<Value> {
    if p <= t then LeafBelow(entries, t[|p|..]) else None
  }

  predicate PathOk(p: seq<string>) {
    AllDotFree(p) && (p != [] ==> p[0] != "")
  }

  /** One entry's leaves lie below its key, the others' elsewhere. */
  lemma LeavesStep(entries: Entries, p: seq<string>, t: seq<string>)
    requires entries.Entry? && Sorted(entries)
    ensures LeavesUnder(entries, p, t).None? ==>
              LeafUnder(entries.value, p + [entries.key], t).None? && LeavesUnder(entries.rest, p, t).None?
    ensures LeafUnder(entries.value, p + [entries.key], t).Some? ==>
              LeavesUnder(entries, p, t) == LeafUnder(entries.value, p + [entries.key], t)
              && LeavesUnder(entries.rest, p, t).None?
    ensures LeavesUnder(entries.rest, p, t).Some? ==> LeavesUnder(entries, p, t) == LeavesUnder(entries.rest, p, t)
  {
    var below := p + [entries.key];
    NotInRest(entries);
    if p <= t && |p| < |t| && t[|p|] == entries.key {
      assert below <= t && t[|p|..][1..] == t[|below|..];
      NoLeafElsewhere(entries.rest, t[|p|..]);
    }
  }

  lemma {:induction false} FlattenHolds(fields: Entries, v: Value, p: seq<string>, q: string)
    requires PathSafe(v) && PathOk(p) && (p == [] ==> PayloadSafe(v))
    ensures FlattenInto(fields, v, Join(p)).Some?
    ensures Find(FlattenInto(fields, v, Join(p)).value, q) == Held(fields, q, LeafUnder(v, p, Split(q)))
    decreases v
  {
    var t := Split(q);
    if IsBranch(v) {
      FlattenEntriesHold(fields, v.entries, p, q);
    } else {
      FindPut(fields, Join(p), v, q);
      JoinNonempty(p);
      SplitJoin(p);
      JoinSplit(q);
      if p <= t && t[|p|..] == [] { assert t == p; }
      assert p[|p|..] == [];
    }
  }

  lemma {:induction false} FlattenEntriesHold(fields: Entries, entries: Entries, p: seq<string>, q: string)
    requires Sorted(entries) && PathSafeEntries(entries) && PathOk(p) && (p == [] ==> Find(entries, "").None?)
    ensures FlattenEntries(fields, entries, Join(p)).Some?
    ensures Find(FlattenEntries(fields, entries, Join(p)).value, q)
         == Held(fields, q, LeavesUnder(entries, p, Split(q)))
    decreases entries
  {
    if entries.Entry? {
      var below := p + [entries.key];
      JoinChild(p, entries.key);
      FlattenHolds(fields, entries.value, below, q);
      var next := FlattenInto(fields, entries.value, Join(below)).value;
      FlattenEntriesHold(next, entries.rest, p, q);
      LeavesStep(entries, p, Split(q));
    }
  }

  /** Every path holds exactly the leaf that its segments lead to. */
  lemma FlattenKeepsLeaves(v: Value, q: string)
    requires PayloadSafe(v)
    ensures Flatten(v).Some? && Find(Flatten(v).value, q) == LeafAt(v, Split(q))
  {
    FlattenHolds(NoEntries, v, [], q);
    assert Split(q)[0..] == Split(q);
  }

  // ---------------------------------------------------------------- leaves determine the payload

  function Size(v: Value): nat
    decreases v
  {
    if v.VDict? then 1 + EntriesSize(v.entries) else 0
  }

  function EntriesSize(entries: Entries): nat
    decreases entries
  {
    match entries
    case NoEntries => 0
    case Entry(_, value, rest) => 1 + Size(value) + EntriesSize(rest)
  }

  lemma {:induction false} FoundIsPart(entries: Entries, key: string)
    requires Find(entries, key).Some? && PathSafeEntries(entries)
    ensures Size(Find(entries, key).value) < EntriesSize(entries) && PathSafe(Find(entries, key).value)
  {
    if entries.key != key { FoundIsPart(entries.rest, key); }
  }

  lemma {:induction false} LeafBelowKey(entries: Entries, segments: seq<string>)
    requires segments != []
    ensures LeafBelow(entries, segments)
         == match Find(entries, segments[0]) case None => None case Some(v) => LeafAt(v, segments[1..])
  {
    if entries.Entry? { LeafBelowKey(entries.rest, segments); }
  }

  lemma {:induction false} SomeLeaf(v: Value) returns (segments: seq<string>)
    ensures LeafAt(v, segments).Some?
    decreases v
  {
    segments := [];
    if IsBranch(v) {
      var below := SomeLeaf(v.entries.value);
      segments := [v.entries.key] + below;
      assert segments[1..] == below;
    }
  }

  lemma BranchHasNoLeaf(v: Value)
    requires IsBranch(v)
    ensures LeafAt(v, []).None?
  {
    NoLeafElsewhere(v.entries, []);
  }

  lemma LeafUnderKey(v: Value, key: string, below: seq<string>)
    requires IsBranch(v)
    ensures LeafAt(v, [key] + below)
         == match Find(v.entries, key) case None => None case Some(x) => LeafAt(x, below)
  {
    LeafBelowKey(v.entries, [key] + below);
    assert ([key] + below)[1..] == below;
  }

  function Under(v: Option<Value>, below: seq<string>): Option<Value> {
    match v
    case None => None
    case Some(x) => LeafAt(x, below)
  }

  lemma SomeLeafUnder(v: Option<Value>) returns (below: seq<string>)
    requires v.Some?
    ensures Under(v, below).Some?
  {
    below := SomeLeaf(v.value);
  }

  lemma {:induction false} SameLeaves(a: Value, b: Value)
    requires PathSafe(a) && PathSafe(b) && forall t :: LeafAt(a, t) == LeafAt(b, t)
    ensures a == b
    decreases Size(a), 1
  {
    assert LeafAt(a, []) == LeafAt(b, []);
    if IsBranch(a) { BranchHasNoLeaf(a); }
    if IsBranch(b) { BranchHasNoLeaf(b); }
    if IsBranch(a) {
      forall q ensures Find(a.entries, q) == Find(b.entries, q) {
        SameUnderKey(a, b, q);
      }
      SortedEqual(a.entries, b.entries);
    }
  }

  lemma {:induction false} SameUnderKey(a: Value, b: Value, q: string)
    requires IsBranch(a) && IsBranch(b) && PathSafe(a) && PathSafe(b) && forall t :: LeafAt(a, t) == LeafAt(b, t)
    ensures Find(a.entries, q) == Find(b.entries, q)
    decreases Size(a), 0
  {
    var x, y := Find(a.entries, q), Find(b.entries, q);
    forall below ensures Under(x, below) == Under(y, below) {
      LeafUnderKey(a, q, below);
      LeafUnderKey(b, q, below);
    }
    if x.Some? {
      var t := SomeLeafUnder(x);
      FoundIsPart(a.entries, q);
      FoundIsPart(b.entries, q);
      forall t ensures LeafAt(x.value, t) == LeafAt(y.value, t) { assert Under(x, t) == Under(y, t); }
      SameLeaves(x.value, y.value);
    } else if y.Some? {
      var t := SomeLeafUnder(y);
    }
  }

  lemma {:induction false} DottedHasNoLeaf(v: Value, t: seq<string>)
    requires PathSafe(v) && !AllDotFree(t)
    ensures LeafAt(v, t).None?
    decreases v, 1
  {
    if IsBranch(v) { DottedHasNoLeafBelow(v.entries, t); }
  }

  lemma {:induction false} DottedHasNoLeafBelow(entries: Entries, t: seq<string>)
    requires PathSafeEntries(entries) && !AllDotFree(t)
    ensures LeafBelow(entries, t).None?
    decreases entries, 0
  {
    if entries.Entry? {
      if t[0] == entries.key {
        assert forall i :: 1 <= i < |t| ==> t[i] == t[1..][i - 1];
        DottedHasNoLeaf(entries.value, t[1..]);
      } else {
        DottedHasNoLeafBelow(entries.rest, t);
      }
    }
  }

  /** Payloads without dots in their keys are determined by their flattened fields. */
  lemma FlattenInjective(a: Value, b: Value)
    requires PayloadSafe(a) && PayloadSafe(b) && Flatten(a) == Flatten(b)
    ensures a == b
  {
    forall t ensures LeafAt(a, t) == LeafAt(b, t) {
      if t == [] {
        BranchHasNoLeaf(a);
        BranchHasNoLeaf(b);
      } else if AllDotFree(t) {
        SplitJoin(t);
        FlattenKeepsLeaves(a, Join(t));
        FlattenKeepsLeaves(b, Join(t));
      } else {
        DottedHasNoLeaf(a, t);
        DottedHasNoLeaf(b, t);
      }
    }
    SameLeaves(a, b);
  }

  lemma FlattenOne(fields: Entries, key: string, v: Value, path: string)
    requires !IsBranch(v) && Child(path, key) != ""
    ensures FlattenEntries(fields, Entry(key, v, NoEntries), path) == Some(Put(fields, Child(path, key), v))
  {
    assert FlattenInto(fields, v, Child(path, key)) == Some(Put(fields, Child(path, key), v));
  }

  lemma DottedPair(v: Value, z: Value)
    requires !IsBranch(v) && !IsBranch(z)
    ensures Flatten(VDict(Entry("a", VDict(Entry("b", v, NoEntries)), Entry("a.b", z, NoEntries))))
         == Some(Entry("a.b", z, NoEntries))
  {
    var inner, last := VDict(Entry("b", v, NoEntries)), Entry("a.b", z, NoEntries);
    var before := Entry("a.b", v, NoEntries);
    assert Child("", "a") == "a" && Child("a", "b") == "a.b" && Child("", "a.b") == "a.b";
    FlattenOne(NoEntries, "b", v, "a");
    assert FlattenInto(NoEntries, inner, "a") == Some(before);
    FlattenOne(before, "a.b", z, "");
    assert FlattenEntries(NoEntries, Entry("a", inner, last), "") == FlattenEntries(before, last, "");
  }

  /** With a dot in a key two different payloads flatten to the same fields, and a leaf is lost. */
  lemma DottedKeysCollide(x: Value, y: Value, z: Value)
    requires !IsBranch(x) && !IsBranch(y) && !IsBranch(z)
    ensures Flatten(VDict(Entry("a", VDict(Entry("b", x, NoEntries)), Entry("a.b", z, NoEntries))))
         == Flatten(VDict(Entry("a", VDict(Entry("b", y, NoEntries)), Entry("a.b", z, NoEntries))))
  {
    DottedPair(x, z);
    DottedPair(y, z);
  }
}
