/** The texts of JSON values and of configuration documents, spelled out (RFC 8259, sections 2 to 7). */
module JsonTexts {
  import opened Wrappers
  import opened Json
  import opened Canonical
  import opened Requests
  import opened WorkflowConfig

  // ---------------------------------------------------------------- atoms

  const DECIMALS := "0123456789"
  const HEXADECIMALS := "0123456789abcdef"

  /** The number written in decimal digits. */
  function ValueOf(text: string): nat
    requires forall i :: 0 <= i < |text| ==> '0' <= text[i] <= '9'
  {
    if text == [] then 0
    else 10 * ValueOf(text[..|text| - 1]) + (text[|text| - 1] as nat - 48)
  }

  /** A number is written in the digits of its value, without a leading zero. */
  lemma {:induction false} DigitsMean(n: nat)
    ensures var text := Digits(n);
      && text != [] && (forall i :: 0 <= i < |text| ==> '0' <= text[i] <= '9') && ValueOf(text) == n
      && (text[0] == '0' ==> text == "0")
  {
    if n >= 10 {
      DigitsMean(n / 10);
      assert Digits(n)[..|Digits(n)| - 1] == Digits(n / 10);
    } else {
      assert Digits(n)[..0] == [];
    }
  }

  /** Seven characters have two-character escapes, the other control characters are written in hexadecimal. */
  lemma EscapesAre(c: char)
    ensures EscapeChar('\"') == "\\\"" && EscapeChar('\\') == "\\\\" && EscapeChar('\n') == "\\n"
    ensures EscapeChar('\r') == "\\r" && EscapeChar('\t') == "\\t"
    ensures EscapeChar(8 as char) == "\\b" && EscapeChar(12 as char) == "\\f"
    ensures c as int < 32 && c as int !in {8, 9, 10, 12, 13} ==>
      EscapeChar(c) == "\\u00" + [HEXADECIMALS[c as int / 16], HEXADECIMALS[c as int % 16]]
    ensures c as int >= 32 && c != '\"' && c != '\\' ==> EscapeChar(c) == [c]
  {
    if c as int < 32 {
      HexIs(c as int / 16);
      HexIs(c as int % 16);
    }
  }

  lemma HexIs(d: nat)
    requires d < 16
    ensures HexChar(d) == HEXADECIMALS[d]
  {
  }

  /** A dot with a digit behind it, or either case of e with a digit or a sign and a digit, makes a number a float. */
  lemma FloatsFollow(head: string, sign: char, d: char, rest: string)
    requires IsDigit(d) && (sign == '+' || sign == '-')
    ensures FloatFollows(head + (['.', d] + rest), |head|)
    ensures FloatFollows(head + (['e', d] + rest), |head|) && FloatFollows(head + (['E', d] + rest), |head|)
    ensures FloatFollows(head + (['e', sign, d] + rest), |head|)
    ensures FloatFollows(head + (['E', sign, d] + rest), |head|)
  {
    assert forall tail: string, k :: 0 <= k < |tail| ==> (head + tail)[|head| + k] == tail[k];
    assert (['.', d] + rest)[1] == d && (['e', d] + rest)[1] == d && (['E', d] + rest)[1] == d;
    assert (['e', sign, d] + rest)[2] == d && (['E', sign, d] + rest)[2] == d;
  }

  /** And a nonfinite constant is refused as a raw number too. */
  lemma ConstantsRefused(rest: string)
    ensures ReadNumber("NaN" + rest, 0) == Err(RawNumber) && ReadNumber("Infinity" + rest, 0) == Err(RawNumber)
    ensures ReadNumber("-Infinity" + rest, 0) == Err(RawNumber)
  {
    var minus := "-Infinity" + rest;
    assert minus[0] == '-' && minus[1] == 'I';
    assert Matches("NaN" + rest, 0, "NaN") && Matches("Infinity" + rest, 0, "Infinity");
    assert Matches(minus, 0, "-Infinity");
  }

  // ---------------------------------------------------------------- containers

  /** The texts with commas between them. */
  function Joined(texts: seq<string>): string {
    if texts == [] then "" else if |texts| == 1 then texts[0] else texts[0] + "," + Joined(texts[1..])
  }

  function ItemTexts(items: Items): seq<string> {
    match items
    case NoItems => []
    case Item(head, tail) => [Print(head)] + ItemTexts(tail)
  }

  function MemberTexts(members: Members): seq<string> {
    match members
    case NoMembers => []
    case Member(key, value, rest) => [Print(Str(key)) + ":" + Print(value)] + MemberTexts(rest)
  }

  lemma {:induction false} ItemsJoined(items: Items)
    requires items.Item?
    ensures PrintItems(items) == Joined(ItemTexts(items)) + "]"
  {
    if items.tail.Item? {
      ItemsJoined(items.tail);
      assert ItemTexts(items)[1..] == ItemTexts(items.tail);
      assert ItemTexts(items.tail) != [];
    }
  }

  lemma {:induction false} MembersJoined(members: Members)
    requires members.Member?
    ensures PrintMembers(members) == Joined(MemberTexts(members)) + "}"
  {
    hide Quote;
    var first := Quote(members.key) + ":" + Print(members.value);
    assert PrintMembers(members) == first + CloseMembers(members.rest);
    if members.rest.Member? {
      MembersJoined(members.rest);
      assert MemberTexts(members)[1..] == MemberTexts(members.rest);
      assert MemberTexts(members.rest) != [];
    }
  }

  /** The text of every kind of value. */
  lemma TextsAre(j: Json)
    ensures match j
      case Null => Print(j) == "null"
      case Bool(b) => Print(j) == if b then "true" else "false"
      case Int(i) => Print(j) == if i < 0 then "-" + Digits(-i) else Digits(i)
      case Str(s) => Print(j) == "\"" + EscapedFrom(s, 0)
      case Arr(items) => Print(j) == "[" + Joined(ItemTexts(items)) + "]"
      case Obj(members) => Print(j) == "{" + Joined(MemberTexts(members)) + "}"
  {
    match j
    case Arr(items) => if items.Item? { ItemsJoined(items); }
    case Obj(members) => if members.Member? { MembersJoined(members); }
    case _ =>
  }

  // ---------------------------------------------------------------- configuration documents

  function ValueTexts(decimal: real -> string, items: seq<Value>): seq<string> {
    if items == [] then [] else [ConfigText(decimal, items[0])] + ValueTexts(decimal, items[1..])
  }

  function EntryTexts(decimal: real -> string, entries: Entries): seq<string> {
    match entries
    case NoEntries => []
    case Entry(key, value, rest) => [Print(Str(key)) + ":" + ConfigText(decimal, value)] + EntryTexts(decimal, rest)
  }

  lemma {:induction false} ValuesJoined(decimal: real -> string, items: seq<Value>)
    requires items != []
    ensures ItemsText(decimal, items) == Joined(ValueTexts(decimal, items)) + "]"
  {
    if |items| > 1 {
      ValuesJoined(decimal, items[1..]);
      assert ValueTexts(decimal, items)[1..] == ValueTexts(decimal, items[1..]);
      assert ValueTexts(decimal, items[1..]) != [];
    }
  }

  lemma {:induction false} EntriesJoined(decimal: real -> string, entries: Entries)
    requires entries.Entry?
    ensures EntriesText(decimal, entries) == Joined(EntryTexts(decimal, entries)) + "}"
  {
    var first := Quote(entries.key) + ":" + ConfigText(decimal, entries.value);
    var close := if entries.rest.NoEntries? then "}" else "," + EntriesText(decimal, entries.rest);
    assert EntriesText(decimal, entries) == first + close;
    if entries.rest.Entry? {
      EntriesJoined(decimal, entries.rest);
      assert EntryTexts(decimal, entries)[1..] == EntryTexts(decimal, entries.rest);
      assert EntryTexts(decimal, entries.rest) != [];
    }
  }

  /** The text of every kind of configuration value. */
  lemma ConfigTextsAre(decimal: real -> string, v: Value)
    ensures match v
      case VNone => ConfigText(decimal, v) == "null"
      case VBool(b) => ConfigText(decimal, v) == if b then "true" else "false"
      case VInt(i) => ConfigText(decimal, v) == Print(Int(i))
      case VStr(s) => ConfigText(decimal, v) == Print(Str(s))
      case VFloat(x) => ConfigText(decimal, v) == decimal(x)
      case VList(items) => ConfigText(decimal, v) == "[" + Joined(ValueTexts(decimal, items)) + "]"
      case VDict(entries) => ConfigText(decimal, v) == "{" + Joined(EntryTexts(decimal, entries)) + "}"
  {
    match v
    case VList(items) => if items != [] { ValuesJoined(decimal, items); }
    case VDict(entries) => if entries.Entry? { EntriesJoined(decimal, entries); }
    case _ =>
  }

  /** The plan object holds each field of the request under its own name. */
  predicate HoldsPlan(p: Entries, r: PlanRequestV2) {
    && Find(p, "alpha") == Some(VFloat(r.alpha)) && Find(p, "candidates") == Some(Ints(r.candidates))
    && Find(p, "null_name") == Some(VStr(r.nullName)) && Find(p, "null_params") == Some(r.nullParams)
    && Find(p, "replicates") == Some(VInt(r.replicates)) && Find(p, "root_seed") == Some(VInt(r.rootSeed))
    && Find(p, "selection_rule") == Some(VStr(r.selectionRule))
    && Find(p, "statistic_name") == Some(VStr(r.statisticName))
    && Find(p, "statistic_params") == Some(r.statisticParams)
    && Find(p, "tie_tolerance") == Some(VFloat(r.tieTolerance))
  }

  predicate HoldsInput(e: Entries, f: InputFormat) {
    match f
    case Csv(source, target) =>
      && Find(e, "format") == Some(VStr("csv"))
      && Find(e, "source_column") == Some(VStr(source)) && Find(e, "target_column") == Some(VStr(target))
    case Npz => Find(e, "format") == Some(VStr("npz")) && Find(e, "source_column").None?
  }

  lemma PlanKeysLegal()
    ensures KeysLegal(PLAN_KEYS)
  {
    assert FLOAT_TAG[0] == '$';
    assert "null_name"[5] != "null_params"[5] && "statistic_name"[10] != "statistic_params"[10];
  }

  lemma DocumentKeysLegal()
    ensures KeysLegal(DOCUMENT_KEYS) && KeysLegal(["format", "source_column", "target_column"])
  {
    assert FLOAT_TAG[0] == '$';
  }

  lemma PlanHeld(r: PlanRequestV2)
    ensures HoldsPlan(DictFrom(PLAN_KEYS, PlanValues(r), 0), r)
  {
    PlanKeysLegal();
    forall i: nat | i < 10 ensures Find(DictFrom(PLAN_KEYS, PlanValues(r), 0), PLAN_KEYS[i]) == Some(PlanValues(r)[i]) {
      FindInDict(PLAN_KEYS, PlanValues(r), 0, i);
    }
    hide Find, DictFrom;
    assert PLAN_KEYS[0] == "alpha" && PLAN_KEYS[1] == "candidates" && PLAN_KEYS[2] == "null_name";
    assert PLAN_KEYS[3] == "null_params" && PLAN_KEYS[4] == "replicates" && PLAN_KEYS[5] == "root_seed";
    assert PLAN_KEYS[6] == "selection_rule" && PLAN_KEYS[7] == "statistic_name";
    assert PLAN_KEYS[8] == "statistic_params" && PLAN_KEYS[9] == "tie_tolerance";
  }

  lemma InputHeld(f: InputFormat)
    ensures InputValue(f).VDict? && HoldsInput(InputValue(f).entries, f)
  {
    match f
    case Csv(source, target) =>
      var keys, values := ["format", "source_column", "target_column"], [VStr("csv"), VStr(source), VStr(target)];
      DocumentKeysLegal();
      FindInDict(keys, values, 0, 0);
      FindInDict(keys, values, 0, 1);
      FindInDict(keys, values, 0, 2);
      assert InputValue(f) == VDict(DictFrom(keys, values, 0));
    case Npz =>
      assert DictFrom(["format"], [VStr("npz")], 1) == NoEntries;
  }

  /** A configuration document holds its schema, its input and every field of its plan under these names. */
  lemma DocumentHolds(f: InputFormat, r: PlanRequestV2)
    ensures var d := Document(f, r).entries;
      && Find(d, "schema") == Some(VStr("selcal.workflow-config.v1"))
      && Find(d, "input").Some? && Find(d, "input").value.VDict? && HoldsInput(Find(d, "input").value.entries, f)
      && Find(d, "plan").Some? && Find(d, "plan").value.VDict? && HoldsPlan(Find(d, "plan").value.entries, r)
  {
    PlanHeld(r);
    InputHeld(f);
    hide HoldsPlan, PlanValues, HoldsInput, InputValue;
    var values := [InputValue(f), Dict(PLAN_KEYS, PlanValues(r)), VStr(CONFIG_SCHEMA)];
    DocumentKeysLegal();
    FindInDict(DOCUMENT_KEYS, values, 0, 0);
    FindInDict(DOCUMENT_KEYS, values, 0, 1);
    FindInDict(DOCUMENT_KEYS, values, 0, 2);
  }
}
