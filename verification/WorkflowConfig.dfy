/** The two depth guards of the configuration file: the byte scanner and the walk over plan parameters. */
module WorkflowConfig {
  import opened Wrappers
  import opened Json
  import opened PrintedDepth
  import opened DepthScan
  import opened Canonical
  import opened Requests
  import Utf8

  const MAX_DEPTH: nat := 8

  /** Parameters are the values of the plan object, which is a value of the document. */
  const PARAMETER_DEPTH: nat := 3

  datatype ConfigError = DepthLimit | ReservedKey

  // ---------------------------------------------------------------- walking parameters

  /** The walk copies a value; it refuses a container below the depth limit and the reserved key. */
  function ThawJson(v: Value, depth: nat): Result<Value, ConfigError>
    decreases v
  {
    if !v.VDict? && !v.VList? then Ok(v)
    else if depth > MAX_DEPTH then Err(DepthLimit)
    else if v.VDict? then
      match ThawEntries(v.entries, depth + 1)
      case Err(e) => Err(e)
      case Ok(entries) => Ok(VDict(entries))
    else
      match ThawItems(v.items, depth + 1)
      case Err(e) => Err(e)
      case Ok(items) => Ok(VList(items))
  }

  function ThawEntries(entries: Entries, depth: nat): Result<Entries, ConfigError>
    decreases entries
  {
    match entries
    case NoEntries => Ok(NoEntries)
    case Entry(key, value, rest) =>
      if key == FLOAT_TAG then Err(ReservedKey)
      else
        match ThawJson(value, depth)
        case Err(e) => Err(e)
        case Ok(first) =>
          match ThawEntries(rest, depth)
          case Err(e) => Err(e)
          case Ok(others) => Ok(Entry(key, first, others))
  }

  function ThawItems(items: seq<Value>, depth: nat): Result<seq<Value>, ConfigError>
    decreases items
  {
    if items == [] then Ok([])
    else
      match ThawJson(items[0], depth)
      case Err(e) => Err(e)
      case Ok(first) =>
        match ThawItems(items[1..], depth)
        case Err(e) => Err(e)
        case Ok(others) => Ok([first] + others)
  }

  /** How deeply containers nest in a value. */
  function Nesting(v: Value): nat
    decreases v
  {
    match v
    case VList(items) => 1 + ItemsNesting(items)
    case VDict(entries) => 1 + EntriesNesting(entries)
    case _ => 0
  }

  function ItemsNesting(items: seq<Value>): nat
    decreases items
  {
    if items == [] then 0 else Max(Nesting(items[0]), ItemsNesting(items[1..]))
  }

  function EntriesNesting(entries: Entries): nat
    decreases entries
  {
    match entries
    case NoEntries => 0
    case Entry(_, value, rest) => Max(Nesting(value), EntriesNesting(rest))
  }

  /** The walk accepts exactly the values without the reserved key whose containers end above the limit. */
  lemma {:induction false} ThawIff(v: Value, depth: nat)
    ensures ThawJson(v, depth).Ok? <==> Encodable(v) && (Nesting(v) > 0 ==> depth + Nesting(v) <= 9)
    ensures ThawJson(v, depth).Ok? ==> ThawJson(v, depth).value == v
    decreases v
  {
    match v
    case VList(items) => ThawItemsIff(items, depth + 1);
    case VDict(entries) => ThawEntriesIff(entries, depth + 1);
    case _ =>
  }

  lemma {:induction false} ThawItemsIff(items: seq<Value>, depth: nat)
    ensures ThawItems(items, depth).Ok?
       <==> (forall i :: 0 <= i < |items| ==> Encodable(items[i]))
            && (ItemsNesting(items) > 0 ==> depth + ItemsNesting(items) <= 9)
    ensures ThawItems(items, depth).Ok? ==> ThawItems(items, depth).value == items
    decreases items
  {
    if items != [] {
      ThawIff(items[0], depth);
      ThawItemsIff(items[1..], depth);
      assert items == [items[0]] + items[1..];
      assert (forall i :: 0 <= i < |items| ==> Encodable(items[i]))
        <==> Encodable(items[0]) && forall i :: 0 <= i < |items[1..]| ==> Encodable(items[1..][i]);
    }
  }

  lemma {:induction false} ThawEntriesIff(entries: Entries, depth: nat)
    ensures ThawEntries(entries, depth).Ok?
       <==> EncodableEntries(entries)
            && (EntriesNesting(entries) > 0 ==> depth + EntriesNesting(entries) <= 9)
    ensures ThawEntries(entries, depth).Ok? ==> ThawEntries(entries, depth).value == entries
    decreases entries
  {
    if entries.Entry? {
      ThawIff(entries.value, depth);
      ThawEntriesIff(entries.rest, depth);
    }
  }

  // ---------------------------------------------------------------- the document's text

  /** Compact text with ordinary decimal floats; the entries are already listed in the order of their keys. */
  function ConfigText(decimal: real -> string, v: Value): string
    decreases v, 0
  {
    match v
    case VNone => "null"
    case VBool(b) => if b then "true" else "false"
    case VInt(i) => PrintInt(i)
    case VStr(s) => Quote(s)
    case VFloat(x) => decimal(x)
    case VList(items) => if items == [] then "[]" else "[" + ItemsText(decimal, items)
    case VDict(entries) => if entries.NoEntries? then "{}" else "{" + EntriesText(decimal, entries)
  }

  /** The items of a nonempty list and its closing bracket. */
  function ItemsText(decimal: real -> string, items: seq<Value>): string
    requires items != []
    decreases items, 1
  {
    ConfigText(decimal, items[0]) + (if |items| == 1 then "]" else "," + ItemsText(decimal, items[1..]))
  }

  function EntriesText(decimal: real -> string, entries: Entries): string
    requires entries.Entry?
    decreases entries, 1
  {
    Quote(entries.key)
    + (":" + (ConfigText(decimal, entries.value)
              + (if entries.rest.NoEntries? then "}" else "," + EntriesText(decimal, entries.rest))))
  }

  /** Decimal numerals hold neither quotes nor brackets. */
  ghost predicate PlainDecimals(decimal: real -> string) {
    forall x, i :: 0 <= i < |decimal(x)| ==> Plain(decimal(x)[i])
  }

  lemma AtomPlain(decimal: real -> string, v: Value, i: nat)
    requires PlainDecimals(decimal) && !v.VStr? && !v.VList? && !v.VDict? && i < |ConfigText(decimal, v)|
    ensures Plain(ConfigText(decimal, v)[i])
  {
    if v.VInt? { DigitsPlain(if v.i < 0 then -v.i else v.i); }
  }

  lemma ScanAtom(decimal: real -> string, limit: nat, d: nat, v: Value)
    requires PlainDecimals(decimal) && d <= limit && !v.VList? && !v.VDict?
    ensures ScanText(limit, At(d), ConfigText(decimal, v)) == Ok(At(d))
  {
    if v.VStr? {
      ScanQuoted(limit, d, v.s);
    } else {
      forall i: nat | i < |ConfigText(decimal, v)| ensures Plain(ConfigText(decimal, v)[i]) {
        AtomPlain(decimal, v, i);
      }
      PlainText(limit, d, ConfigText(decimal, v));
    }
  }

  /** A container is refused at its bracket, or as its contents are. */
  lemma ScanContainer(limit: nat, d: nat, open: char, contents: string, nesting: nat)
    requires (open == '[' || open == '{') && d <= limit && nesting > 0
    requires d + 1 <= limit ==> ScanText(limit, At(d + 1), contents) == After(limit, d, nesting)
    ensures ScanText(limit, At(d), [open] + contents) == After(limit, d, nesting)
  {
    Opens(limit, d, open, contents);
  }

  lemma {:induction false} ScanList(decimal: real -> string, limit: nat, d: nat, items: seq<Value>)
    requires PlainDecimals(decimal) && d <= limit
    ensures ScanText(limit, At(d), ConfigText(decimal, VList(items))) == After(limit, d, 1 + ItemsNesting(items))
    decreases items, 2
  {
    if items == [] {
      assert "[]" == ['['] + "]";
      if d + 1 <= limit { Closes(limit, d, ']'); }
      ScanContainer(limit, d, '[', "]", 1);
    } else {
      if d + 1 <= limit { ScanItemsText(decimal, limit, d, items); }
      ScanContainer(limit, d, '[', ItemsText(decimal, items), 1 + ItemsNesting(items));
    }
  }

  lemma {:induction false} ScanDict(decimal: real -> string, limit: nat, d: nat, entries: Entries)
    requires PlainDecimals(decimal) && d <= limit
    ensures ScanText(limit, At(d), ConfigText(decimal, VDict(entries))) == After(limit, d, 1 + EntriesNesting(entries))
    decreases entries, 2
  {
    if entries.NoEntries? {
      assert "{}" == ['{'] + "}";
      if d + 1 <= limit { Closes(limit, d, '}'); }
      ScanContainer(limit, d, '{', "}", 1);
    } else {
      if d + 1 <= limit { ScanEntriesText(decimal, limit, d, entries); }
      ScanContainer(limit, d, '{', EntriesText(decimal, entries), 1 + EntriesNesting(entries));
    }
  }

  /** Scanning a value's text: back at the same depth, or refused exactly when its nesting passes the limit. */
  lemma {:induction false} ScanConfig(decimal: real -> string, limit: nat, d: nat, v: Value)
    requires PlainDecimals(decimal) && d <= limit
    ensures ScanText(limit, At(d), ConfigText(decimal, v)) == After(limit, d, Nesting(v))
    decreases v, 0
  {
    match v
    case VList(items) => ScanList(decimal, limit, d, items);
    case VDict(entries) => ScanDict(decimal, limit, d, entries);
    case _ => ScanAtom(decimal, limit, d, v);
  }

  lemma {:induction false} ScanItemsText(decimal: real -> string, limit: nat, d: nat, items: seq<Value>)
    requires PlainDecimals(decimal) && items != [] && d + 1 <= limit
    ensures ScanText(limit, At(d + 1), ItemsText(decimal, items)) == After(limit, d, 1 + ItemsNesting(items))
    decreases items, 1
  {
    ScanConfig(decimal, limit, d + 1, items[0]);
    var head := ConfigText(decimal, items[0]);
    if |items| == 1 {
      Closes(limit, d, ']');
      ScanBoth(limit, d, head, "]", Nesting(items[0]), 0);
    } else {
      var rest := ItemsText(decimal, items[1..]);
      Continue(limit, d + 1, ',', rest);
      ScanItemsText(decimal, limit, d, items[1..]);
      ScanBoth(limit, d, head, "," + rest, Nesting(items[0]), ItemsNesting(items[1..]));
    }
  }

  /** What follows a member's value. */
  function AfterValue(decimal: real -> string, rest: Entries): string {
    if rest.NoEntries? then "}" else "," + EntriesText(decimal, rest)
  }

  lemma {:induction false} ScanEntriesText(decimal: real -> string, limit: nat, d: nat, entries: Entries)
    requires PlainDecimals(decimal) && entries.Entry? && d + 1 <= limit
    ensures ScanText(limit, At(d + 1), EntriesText(decimal, entries)) == After(limit, d, 1 + EntriesNesting(entries))
    decreases entries, 1
  {
    var value, after := ConfigText(decimal, entries.value), AfterValue(decimal, entries.rest);
    ScanConfig(decimal, limit, d + 1, entries.value);
    ScanAfterValue(decimal, limit, d, entries.rest);
    ScanBoth(limit, d, value, after, Nesting(entries.value), EntriesNesting(entries.rest));
    ScanKey(limit, d, entries.key, value + after);
  }

  /** A key and its colon carry no nesting. */
  lemma ScanKey(limit: nat, d: nat, key: string, rest: string)
    ensures ScanText(limit, At(d + 1), Quote(key) + (":" + rest)) == ScanText(limit, At(d + 1), rest)
  {
    ScanQuoted(limit, d + 1, key);
    Continue(limit, d + 1, ':', rest);
    ScanTextConcat(limit, At(d + 1), Quote(key), ":" + rest);
  }

  lemma {:induction false} ScanAfterValue(decimal: real -> string, limit: nat, d: nat, rest: Entries)
    requires PlainDecimals(decimal) && d + 1 <= limit
    ensures ScanText(limit, At(d + 1), AfterValue(decimal, rest)) == After(limit, d, 1 + EntriesNesting(rest))
    decreases rest, 2
  {
    if rest.NoEntries? {
      Closes(limit, d, '}');
    } else {
      Continue(limit, d + 1, ',', EntriesText(decimal, rest));
      ScanEntriesText(decimal, limit, d, rest);
    }
  }

  // ---------------------------------------------------------------- the whole document

  const PLAN_KEYS := ["alpha", "candidates", "null_name", "null_params", "replicates", "root_seed", "selection_rule",
                      "statistic_name", "statistic_params", "tie_tolerance"]
  const DOCUMENT_KEYS := ["input", "plan", "schema"]
  const CONFIG_SCHEMA := "selcal.workflow-config.v1"

  datatype InputFormat = Csv(sourceColumn: string, targetColumn: string) | Npz

  function InputValue(f: InputFormat): Value {
    match f
    case Csv(source, target) =>
      Dict(["format", "source_column", "target_column"], [VStr("csv"), VStr(source), VStr(target)])
    case Npz => Dict(["format"], [VStr("npz")])
  }

  function PlanValues(r: PlanRequestV2): (values: seq<Value>)
    ensures |values| == 10
  {
    [VFloat(r.alpha), Ints(r.candidates), VStr(r.nullName), r.nullParams, VInt(r.replicates), VInt(r.rootSeed),
     VStr(r.selectionRule), VStr(r.statisticName), r.statisticParams, VFloat(r.tieTolerance)]
  }

  /** The document with its keys in order. */
  function Document(f: InputFormat, r: PlanRequestV2): Value {
    Dict(DOCUMENT_KEYS, [InputValue(f), Dict(PLAN_KEYS, PlanValues(r)), VStr(CONFIG_SCHEMA)])
  }

  /** A record nests one deeper than its deepest value. */
  lemma {:induction false} DictNesting(keys: seq<string>, values: seq<Value>, k: nat, n: nat, at: nat)
    requires |keys| == |values| && k <= |keys| && at < |keys|
    requires (forall i :: 0 <= i < |values| ==> Nesting(values[i]) <= n) && Nesting(values[at]) == n
    ensures EntriesNesting(DictFrom(keys, values, k)) <= n
    ensures k <= at ==> EntriesNesting(DictFrom(keys, values, k)) == n
    decreases |keys| - k
  {
    if k < |keys| { DictNesting(keys, values, k + 1, n, at); }
  }

  lemma {:induction false} IntsNesting(items: seq<Value>)
    requires forall i :: 0 <= i < |items| ==> items[i].VInt?
    ensures ItemsNesting(items) == 0
    decreases |items|
  {
    if items != [] { IntsNesting(items[1..]); }
  }

  lemma InputNesting(f: InputFormat)
    ensures Nesting(InputValue(f)) == 1
  {
    match f
    case Csv(source, target) =>
      DictNesting(["format", "source_column", "target_column"], [VStr("csv"), VStr(source), VStr(target)], 0, 0, 0);
    case Npz => DictNesting(["format"], [VStr("npz")], 0, 0, 0);
  }

  lemma PlanNesting(r: PlanRequestV2)
    requires r.nullParams.VDict? && r.statisticParams.VDict?
    ensures Nesting(Dict(PLAN_KEYS, PlanValues(r))) == 1 + Max(Nesting(r.nullParams), Nesting(r.statisticParams))
  {
    var n := Max(Nesting(r.nullParams), Nesting(r.statisticParams));
    var at := if Nesting(r.nullParams) == n then 3 else 8;
    IntsNesting(Ints(r.candidates).items);
    assert forall i :: 0 <= i < 10 ==> Nesting(PlanValues(r)[i]) <= n;
    assert Nesting(PlanValues(r)[at]) == n;
    DictNesting(PLAN_KEYS, PlanValues(r), 0, n, at);
  }

  /** The document nests two deeper than the deeper of its two parameter objects. */
  lemma DocumentNesting(f: InputFormat, r: PlanRequestV2)
    requires r.nullParams.VDict? && r.statisticParams.VDict?
    ensures Nesting(Document(f, r)) == 2 + Max(Nesting(r.nullParams), Nesting(r.statisticParams))
  {
    var plan := Dict(PLAN_KEYS, PlanValues(r));
    PlanNesting(r);
    InputNesting(f);
    DictNesting(DOCUMENT_KEYS, [InputValue(f), plan, VStr(CONFIG_SCHEMA)], 0, Nesting(plan), 1);
  }

  /** The bytes of a configuration document. */
  function DocumentBytes(decimal: real -> string, f: InputFormat, r: PlanRequestV2): seq<nat> {
    Utf8.Encode(ConfigText(decimal, Document(f, r)) + "\n")
  }

  /**
   * The two guards agree: the walk, started at the depth of the parameters, accepts both parameter objects exactly
   * when they avoid the reserved key and the scanner passes the document that holds them.
   */
  lemma GuardsAgree(decimal: real -> string, f: InputFormat, r: PlanRequestV2)
    requires PlainDecimals(decimal) && r.nullParams.VDict? && r.statisticParams.VDict?
    ensures ThawJson(r.nullParams, 3).Ok? && ThawJson(r.statisticParams, 3).Ok?
       <==> Encodable(r.nullParams) && Encodable(r.statisticParams)
            && ScanBytes(8, Start(), DocumentBytes(decimal, f, r)).Ok?
    ensures ScanBytes(8, Start(), DocumentBytes(decimal, f, r)).Ok? ==>
              ScanBytes(8, Start(), DocumentBytes(decimal, f, r)) == Ok(Start())
  {
    var text := ConfigText(decimal, Document(f, r));
    ScanConfig(decimal, MAX_DEPTH, 0, Document(f, r));
    DocumentNesting(f, r);
    ScanTextConcat(MAX_DEPTH, At(0), text, "\n");
    PlainChar(MAX_DEPTH, 0, '\n');
    ThawIff(r.nullParams, PARAMETER_DEPTH);
    ThawIff(r.statisticParams, PARAMETER_DEPTH);
  }
}
