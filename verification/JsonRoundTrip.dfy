/** Reading the compact text of a value gives the value back. */
module JsonRoundTrip {
  import opened Wrappers
  import opened Json

  lemma MatchesConcat(text: string, pos: nat, a: string, b: string)
    requires Matches(text, pos, a + b)
    ensures Matches(text, pos, a) && Matches(text, pos + |a|, b)
  {
    forall k | 0 <= k < |a| ensures text[pos + k] == a[k] {
      assert (a + b)[k] == a[k];
    }
    forall k | 0 <= k < |b| ensures text[pos + |a| + k] == b[k] {
      assert (a + b)[|a| + k] == b[k];
    }
  }

  lemma MatchesAt(text: string, pos: nat, word: string, k: nat)
    requires Matches(text, pos, word) && k < |word|
    ensures text[pos + k] == word[k]
  {
  }

  lemma MatchesWhole(text: string, rest: string)
    ensures Matches(text + rest, 0, text)
  {
  }

  /** A printed value is always followed by one of these, or by the end of the text. */
  predicate Ends(text: string, pos: nat) {
    pos == |text| || (pos < |text| && (text[pos] == ',' || text[pos] == ']' || text[pos] == '}' || text[pos] == '\n'))
  }

  // ---------------------------------------------------------------- numbers

  lemma {:induction false} DecimalOfDigits(text: string, pos: nat, n: nat)
    requires Matches(text, pos, Digits(n))
    ensures |Digits(n)| >= 1 && AllDigits(text, pos, pos + |Digits(n)|)
    ensures Decimal(text, pos, pos + |Digits(n)|) == n
    ensures text[pos] == '0' <==> n == 0
    ensures n == 0 ==> |Digits(n)| == 1
  {
    var end := pos + |Digits(n)|;
    if n < 10 {
      MatchesAt(text, pos, Digits(n), 0);
      assert Decimal(text, pos, pos) == 0;
    } else {
      MatchesConcat(text, pos, Digits(n / 10), [DigitChar(n % 10)]);
      DecimalOfDigits(text, pos, n / 10);
      MatchesAt(text, end - 1, [DigitChar(n % 10)], 0);
    }
  }

  lemma {:induction false} DigitsEndIs(text: string, pos: nat, end: nat)
    requires AllDigits(text, pos, end) && (end == |text| || !IsDigit(text[end]))
    ensures DigitsEnd(text, pos) == end
    decreases end - pos
  {
    if pos < end { DigitsEndIs(text, pos + 1, end); }
  }

  lemma ReadPrintedInt(text: string, pos: nat, i: int)
    requires Matches(text, pos, PrintInt(i)) && Ends(text, pos + |PrintInt(i)|)
    ensures ReadNumber(text, pos) == Ok(Step(Int(i), pos + |PrintInt(i)|))
    ensures text[pos] == '-' || IsDigit(text[pos])
  {
    var n: nat, start := if i < 0 then -i else i, if i < 0 then pos + 1 else pos;
    if i < 0 {
      MatchesConcat(text, pos, "-", Digits(n));
      MatchesAt(text, pos, "-", 0);
    }
    DecimalOfDigits(text, start, n);
    DigitsEndIs(text, start, start + |Digits(n)|);
  }

  // ---------------------------------------------------------------- strings

  lemma HexOfChar(d: nat)
    requires d < 16
    ensures HexValue(HexChar(d)) == Some(d)
  {
  }

  lemma ReadControlEscape(text: string, pos: nat, c: char, read: string)
    requires c as int < 32 && pos + 6 <= |text|
    requires text[pos] == '\\' && text[pos + 1] == 'u' && text[pos + 2] == '0' && text[pos + 3] == '0'
    requires text[pos + 4] == HexChar(c as int / 16) && text[pos + 5] == HexChar(c as int % 16)
    ensures ReadEscape(text, pos + 1, read) == ReadChars(text, pos + 6, read + [c])
  {
    HexOfChar(c as int / 16);
    HexOfChar(c as int % 16);
    assert Hex4(text, pos + 2) == Some(c as int);
  }

  /** A printed character is read back, escaped or not. */
  lemma ReadOneChar(text: string, pos: nat, c: char, read: string)
    requires Matches(text, pos, EscapeChar(c))
    ensures |EscapeChar(c)| >= 1 && pos + |EscapeChar(c)| <= |text|
    ensures ReadChars(text, pos, read) == ReadChars(text, pos + |EscapeChar(c)|, read + [c])
  {
    var e := EscapeChar(c);
    MatchesAt(text, pos, e, 0);
    if |e| == 2 {
      MatchesAt(text, pos, e, 1);
    } else if |e| == 6 {
      MatchesAt(text, pos, e, 1);
      MatchesAt(text, pos, e, 2);
      MatchesAt(text, pos, e, 3);
      MatchesAt(text, pos, e, 4);
      MatchesAt(text, pos, e, 5);
      ReadControlEscape(text, pos, c, read);
    }
  }

  lemma ReadNextChar(text: string, pos: nat, s: string, k: nat) returns (next: nat)
    requires k < |s| && Matches(text, pos, EscapedFrom(s, k))
    ensures Matches(text, next, EscapedFrom(s, k + 1)) && next + |EscapedFrom(s, k + 1)| == pos + |EscapedFrom(s, k)|
    ensures ReadChars(text, pos, s[..k]) == ReadChars(text, next, s[..k + 1])
  {
    MatchesConcat(text, pos, EscapeChar(s[k]), EscapedFrom(s, k + 1));
    ReadOneChar(text, pos, s[k], s[..k]);
    assert s[..k] + [s[k]] == s[..k + 1];
    next := pos + |EscapeChar(s[k])|;
  }

  lemma {:induction false} ReadEscapedFrom(text: string, pos: nat, s: string, k: nat)
    requires k <= |s| && Matches(text, pos, EscapedFrom(s, k))
    ensures ReadChars(text, pos, s[..k]) == Ok(Step(s, pos + |EscapedFrom(s, k)|))
    decreases |s| - k
  {
    if k == |s| {
      MatchesAt(text, pos, "\"", 0);
      assert s[..k] == s;
    } else {
      var next := ReadNextChar(text, pos, s, k);
      ReadEscapedFrom(text, next, s, k + 1);
    }
  }

  lemma ReadQuoted(text: string, pos: nat, s: string)
    requires Matches(text, pos, Quote(s))
    ensures text[pos] == '\"' && ReadChars(text, pos + 1, "") == Ok(Step(s, pos + |Quote(s)|))
  {
    MatchesConcat(text, pos, "\"", EscapedFrom(s, 0));
    MatchesAt(text, pos, "\"", 0);
    ReadEscapedFrom(text, pos + 1, s, 0);
    assert s[..0] == "";
  }

  // ---------------------------------------------------------------- values

  /** Every object in the value has distinct keys. */
  predicate Readable(j: Json) {
    match j
    case Arr(items) => ReadableItems(items)
    case Obj(members) => KeysDistinct(members) && ReadableMembers(members)
    case _ => true
  }

  predicate ReadableItems(items: Items) {
    match items
    case NoItems => true
    case Item(head, tail) => Readable(head) && ReadableItems(tail)
  }

  predicate ReadableMembers(members: Members) {
    match members
    case NoMembers => true
    case Member(_, value, rest) => Readable(value) && ReadableMembers(rest)
  }

  lemma SkipNothing(text: string, pos: nat)
    requires pos <= |text| && (pos < |text| ==> !IsSpace(text[pos]))
    ensures Skip(text, pos) == pos
  {
  }

  /** The first character of a printed value, which is never white space or a closing bracket. */
  lemma PrintStarts(j: Json)
    ensures |Print(j)| >= 1
    ensures var c := Print(j)[0];
      match j
      case Null => c == 'n'
      case Bool(b) => c == if b then 't' else 'f'
      case Int(_) => c == '-' || IsDigit(c)
      case Str(_) => c == '\"'
      case Arr(_) => c == '['
      case Obj(_) => c == '{'
  {
    if j.Int? {
      var text := Print(j);
      assert text + "" == text;
      MatchesWhole(text, "");
      ReadPrintedInt(text, 0, j.i);
    }
  }

  lemma WordStarts(text: string, pos: nat, word: string)
    requires |word| > 0
    ensures Matches(text, pos, word) ==> text[pos] == word[0]
  {
    if Matches(text, pos, word) { MatchesAt(text, pos, word, 0); }
  }

  /** A printed value starts where it is read: its first character decides the branch. */
  lemma PrintedStart(text: string, pos: nat, j: Json)
    requires Matches(text, pos, Print(j))
    ensures |Print(j)| >= 1 && pos < |text| && text[pos] == Print(j)[0] && Skip(text, pos) == pos && text[pos] != ']'
  {
    PrintStarts(j);
    MatchesAt(text, pos, Print(j), 0);
    SkipNothing(text, pos);
  }

  predicate IsScalarValue(j: Json) {
    j.Null? || j.Bool? || j.Int?
  }

  predicate ReadsScalarAt(scalars: Scalars, text: string, pos: nat, j: Json) {
    IsScalarValue(j) && Matches(text, pos, Print(j)) && Ends(text, pos + |Print(j)|) ==>
      scalars.read(text, pos) == Ok(Step(j, pos + |Print(j)|))
  }

  /** The reader's scalars read back every printed scalar. */
  ghost predicate ReadsScalars(scalars: Scalars) {
    forall text: string, pos: nat, j: Json :: ReadsScalarAt(scalars, text, pos, j)
  }

  lemma ReadPrintedScalar(text: string, pos: nat, j: Json)
    requires IsScalarValue(j) && Matches(text, pos, Print(j)) && Ends(text, pos + |Print(j)|)
    ensures ReadScalar(text, pos) == Ok(Step(j, pos + |Print(j)|))
  {
    PrintedStart(text, pos, j);
    PrintStarts(j);
    WordStarts(text, pos, "null");
    WordStarts(text, pos, "true");
    WordStarts(text, pos, "false");
    if j.Int? { ReadPrintedInt(text, pos, j.i); }
  }

  lemma StrictReadsScalars()
    ensures ReadsScalars(StrictScalars())
  {
    forall text: string, pos: nat, j: Json ensures ReadsScalarAt(StrictScalars(), text, pos, j) {
      if IsScalarValue(j) && Matches(text, pos, Print(j)) && Ends(text, pos + |Print(j)|) {
        ReadPrintedScalar(text, pos, j);
      }
    }
  }

  lemma ItemsStart(text: string, pos: nat, items: Items)
    requires items.Item? && Matches(text, pos, PrintItems(items))
    ensures Matches(text, pos, Print(items.head))
    ensures pos < |text| && Skip(text, pos) == pos && text[pos] != ']'
  {
    MatchesConcat(text, pos, Print(items.head), CloseItems(items.tail));
    PrintedStart(text, pos, items.head);
  }

  lemma CloseAt(text: string, pos: nat, c: char)
    requires Matches(text, pos, [c]) && !IsSpace(c)
    ensures pos < |text| && text[pos] == c && Skip(text, pos) == pos
  {
    MatchesAt(text, pos, [c], 0);
  }

  lemma MembersStart(text: string, pos: nat, members: Members)
    requires members.Member? && Matches(text, pos, PrintMembers(members))
    ensures Matches(text, pos, Quote(members.key))
    ensures pos < |text| && Skip(text, pos) == pos && text[pos] == '\"'
  {
    MatchesConcat(text, pos, Quote(members.key), ":" + (Print(members.value) + CloseMembers(members.rest)));
    ReadQuoted(text, pos, members.key);
  }

  /** The key of the first member and the start of its value. */
  lemma ReadPrintedKey(text: string, pos: nat, members: Members) returns (at: nat)
    requires members.Member? && Matches(text, pos, PrintMembers(members))
    ensures at == pos + |Quote(members.key)| + 1 && ReadKey(text, pos) == Ok(Step(members.key, at))
    ensures Matches(text, at, Print(members.value))
    ensures Matches(text, at + |Print(members.value)|, CloseMembers(members.rest))
    ensures at + |Print(members.value)| + |CloseMembers(members.rest)| == pos + |PrintMembers(members)|
  {
    var close := CloseMembers(members.rest);
    var q := pos + |Quote(members.key)|;
    MatchesConcat(text, pos, Quote(members.key), ":" + (Print(members.value) + close));
    MatchesConcat(text, q, ":", Print(members.value) + close);
    MatchesConcat(text, q + 1, Print(members.value), close);
    ReadQuoted(text, pos, members.key);
    CloseAt(text, q, ':');
    PrintedStart(text, q + 1, members.value);
    at := q + 1;
  }

  lemma ReadEmpty(scalars: Scalars, text: string, pos: nat, end: nat)
    requires end == pos + 2
    ensures Matches(text, pos, "[]") ==> ReadValue(scalars, text, pos) == Ok(Step(Arr(NoItems), end))
    ensures Matches(text, pos, "{}") ==> ReadValue(scalars, text, pos) == Ok(Step(Obj(NoMembers), end))
  {
    if Matches(text, pos, "[]") {
      MatchesAt(text, pos, "[]", 0);
      MatchesAt(text, pos, "[]", 1);
    }
    if Matches(text, pos, "{}") {
      MatchesAt(text, pos, "{}", 0);
      MatchesAt(text, pos, "{}", 1);
    }
  }

  lemma ReadPrintedStr(scalars: Scalars, text: string, pos: nat, s: string, end: nat)
    requires Matches(text, pos, Quote(s)) && end == pos + |Quote(s)|
    ensures ReadValue(scalars, text, pos) == Ok(Step(Str(s), end))
  {
    ReadQuoted(text, pos, s);
  }

  lemma ReadPrintedLeaf(scalars: Scalars, text: string, pos: nat, j: Json, end: nat)
    requires ReadsScalars(scalars) && IsScalarValue(j) && Matches(text, pos, Print(j))
    requires end == pos + |Print(j)| && Ends(text, end)
    ensures ReadValue(scalars, text, pos) == Ok(Step(j, end))
  {
    PrintedStart(text, pos, j);
    PrintStarts(j);
    assert ReadsScalarAt(scalars, text, pos, j);
  }

  /** Reading the compact text of a value from where it starts to where it ends. */
  lemma {:induction false} ReadPrinted(scalars: Scalars, text: string, pos: nat, j: Json, end: nat)
    requires ReadsScalars(scalars) && Readable(j) && Matches(text, pos, Print(j))
    requires end == pos + |Print(j)| && Ends(text, end)
    ensures ReadValue(scalars, text, pos) == Ok(Step(j, end))
    decreases j, 0
  {
    match j
    case Str(s) => ReadPrintedStr(scalars, text, pos, s, end);
    case Arr(items) =>
      if items.NoItems? {
        ReadEmpty(scalars, text, pos, end);
      } else {
        ReadPrintedArray(scalars, text, pos, items, end);
      }
    case Obj(members) =>
      if members.NoMembers? {
        ReadEmpty(scalars, text, pos, end);
      } else {
        ReadPrintedObject(scalars, text, pos, members, end);
      }
    case _ => ReadPrintedLeaf(scalars, text, pos, j, end);
  }

  lemma {:induction false} ReadPrintedArray(scalars: Scalars, text: string, pos: nat, items: Items, end: nat)
    requires ReadsScalars(scalars) && items.Item? && ReadableItems(items)
    requires Matches(text, pos, "[" + PrintItems(items)) && end == pos + 1 + |PrintItems(items)|
    ensures ReadValue(scalars, text, pos) == Ok(Step(Arr(items), end))
    decreases items, 2
  {
    MatchesConcat(text, pos, "[", PrintItems(items));
    MatchesAt(text, pos, "[", 0);
    ItemsStart(text, pos + 1, items);
    ReadPrintedItems(scalars, text, pos + 1, items, end);
  }

  lemma {:induction false} ReadPrintedObject(scalars: Scalars, text: string, pos: nat, members: Members, end: nat)
    requires ReadsScalars(scalars) && members.Member? && KeysDistinct(members) && ReadableMembers(members)
    requires Matches(text, pos, "{" + PrintMembers(members)) && end == pos + 1 + |PrintMembers(members)|
    ensures ReadValue(scalars, text, pos) == Ok(Step(Obj(members), end))
    decreases members, 2
  {
    MatchesConcat(text, pos, "{", PrintMembers(members));
    MatchesAt(text, pos, "{", 0);
    MembersStart(text, pos + 1, members);
    ReadPrintedMembers(scalars, text, pos + 1, members, end);
  }

  /** What follows an item ends it, and leads to the next items if there are any. */
  lemma CloseItemsStart(text: string, q: nat, tail: Items)
    requires Matches(text, q, CloseItems(tail))
    ensures Ends(text, q) && q < |text| && Skip(text, q) == q && text[q] == if tail.NoItems? then ']' else ','
    ensures |CloseItems(tail)| == if tail.NoItems? then 1 else 1 + |PrintItems(tail)|
    ensures tail.Item? ==> Matches(text, q + 1, PrintItems(tail)) && Skip(text, q + 1) == q + 1
  {
    if tail.NoItems? {
      CloseAt(text, q, ']');
    } else {
      MatchesConcat(text, q, ",", PrintItems(tail));
      CloseAt(text, q, ',');
      ItemsStart(text, q + 1, tail);
    }
  }

  /** Where the first item ends, and where the next items start. */
  lemma ItemBounds(text: string, pos: nat, items: Items, end: nat) returns (q: nat)
    requires items.Item? && Matches(text, pos, PrintItems(items)) && end == pos + |PrintItems(items)|
    ensures pos <= |text| && Matches(text, pos, Print(items.head)) && q == pos + |Print(items.head)| && Ends(text, q)
    ensures q < |text| && Skip(text, q) == q && text[q] == if items.tail.NoItems? then ']' else ','
    ensures items.tail.NoItems? ==> end == q + 1
    ensures items.tail.Item? ==> Matches(text, q + 1, PrintItems(items.tail)) && Skip(text, q + 1) == q + 1
    ensures items.tail.Item? ==> end == q + 1 + |PrintItems(items.tail)|
  {
    q := pos + |Print(items.head)|;
    MatchesConcat(text, pos, Print(items.head), CloseItems(items.tail));
    CloseItemsStart(text, q, items.tail);
  }

  lemma LastItem(scalars: Scalars, text: string, pos: nat, items: Items, q: nat, end: nat)
    requires items.Item? && items.tail.NoItems? && pos <= |text| && end == q + 1
    requires ReadValue(scalars, text, pos) == Ok(Step(items.head, q))
    requires q < |text| && Skip(text, q) == q && text[q] == ']'
    ensures ReadItems(scalars, text, pos) == Ok(Step(items, end))
  {
  }

  lemma InnerItem(scalars: Scalars, text: string, pos: nat, items: Items, q: nat, end: nat)
    requires items.Item? && pos <= |text| && ReadValue(scalars, text, pos) == Ok(Step(items.head, q))
    requires q < |text| && Skip(text, q) == q && text[q] == ',' && Skip(text, q + 1) == q + 1
    requires ReadItems(scalars, text, q + 1) == Ok(Step(items.tail, end))
    ensures ReadItems(scalars, text, pos) == Ok(Step(items, end))
  {
  }

  lemma {:induction false} ReadPrintedItems(scalars: Scalars, text: string, pos: nat, items: Items, end: nat)
    requires ReadsScalars(scalars) && items.Item? && ReadableItems(items)
    requires Matches(text, pos, PrintItems(items)) && end == pos + |PrintItems(items)|
    ensures ReadItems(scalars, text, pos) == Ok(Step(items, end))
    decreases items, 1
  {
    var q := ItemBounds(text, pos, items, end);
    ReadPrinted(scalars, text, pos, items.head, q);
    if items.tail.NoItems? {
      LastItem(scalars, text, pos, items, q, end);
    } else {
      ReadPrintedItems(scalars, text, q + 1, items.tail, end);
      InnerItem(scalars, text, pos, items, q, end);
    }
  }

  lemma CloseMembersStart(text: string, q: nat, rest: Members)
    requires Matches(text, q, CloseMembers(rest))
    ensures Ends(text, q) && q < |text| && Skip(text, q) == q && text[q] == if rest.NoMembers? then '}' else ','
    ensures |CloseMembers(rest)| == if rest.NoMembers? then 1 else 1 + |PrintMembers(rest)|
    ensures rest.Member? ==> Matches(text, q + 1, PrintMembers(rest)) && Skip(text, q + 1) == q + 1
  {
    if rest.NoMembers? {
      CloseAt(text, q, '}');
    } else {
      MatchesConcat(text, q, ",", PrintMembers(rest));
      CloseAt(text, q, ',');
      MembersStart(text, q + 1, rest);
    }
  }

  /** Where the first member's value starts and ends, and where the next members start. */
  lemma MemberBounds(text: string, pos: nat, members: Members, end: nat) returns (at: nat, q: nat)
    requires members.Member? && Matches(text, pos, PrintMembers(members)) && end == pos + |PrintMembers(members)|
    ensures pos <= |text| && at <= |text| && ReadKey(text, pos) == Ok(Step(members.key, at))
    ensures Matches(text, at, Print(members.value)) && q == at + |Print(members.value)| && Ends(text, q)
    ensures q < |text| && Skip(text, q) == q && text[q] == if members.rest.NoMembers? then '}' else ','
    ensures members.rest.NoMembers? ==> end == q + 1
    ensures members.rest.Member? ==> Matches(text, q + 1, PrintMembers(members.rest)) && Skip(text, q + 1) == q + 1
    ensures members.rest.Member? ==> end == q + 1 + |PrintMembers(members.rest)|
  {
    at := ReadPrintedKey(text, pos, members);
    q := at + |Print(members.value)|;
    CloseMembersStart(text, q, members.rest);
  }

  lemma LastMember(scalars: Scalars, text: string, pos: nat, members: Members, at: nat, q: nat, end: nat)
    requires members.Member? && members.rest.NoMembers? && pos <= |text| && at <= |text| && end == q + 1
    requires ReadKey(text, pos) == Ok(Step(members.key, at))
    requires ReadValue(scalars, text, at) == Ok(Step(members.value, q))
    requires q < |text| && Skip(text, q) == q && text[q] == '}'
    ensures ReadMembers(scalars, text, pos) == Ok(Step(members, end))
  {
  }

  lemma InnerMember(scalars: Scalars, text: string, pos: nat, members: Members, at: nat, q: nat, end: nat)
    requires members.Member? && pos <= |text| && at <= |text|
    requires ReadKey(text, pos) == Ok(Step(members.key, at))
    requires ReadValue(scalars, text, at) == Ok(Step(members.value, q))
    requires q < |text| && Skip(text, q) == q && text[q] == ',' && Skip(text, q + 1) == q + 1
    requires ReadMembers(scalars, text, q + 1) == Ok(Step(members.rest, end))
    ensures ReadMembers(scalars, text, pos) == Ok(Step(members, end))
  {
  }

  lemma {:induction false} ReadPrintedMembers(scalars: Scalars, text: string, pos: nat, members: Members, end: nat)
    requires ReadsScalars(scalars) && members.Member? && ReadableMembers(members)
    requires Matches(text, pos, PrintMembers(members)) && end == pos + |PrintMembers(members)|
    ensures ReadMembers(scalars, text, pos) == Ok(Step(members, end))
    decreases members, 1
  {
    var at, q := MemberBounds(text, pos, members, end);
    ReadPrinted(scalars, text, at, members.value, q);
    if members.rest.NoMembers? {
      LastMember(scalars, text, pos, members, at, q, end);
    } else {
      ReadPrintedMembers(scalars, text, q + 1, members.rest, end);
      InnerMember(scalars, text, pos, members, at, q, end);
    }
  }

  /** A value with distinct keys is recovered from its compact text, with or without a final line feed. */
  lemma ReadDocumentPrinted(scalars: Scalars, j: Json)
    requires ReadsScalars(scalars) && Readable(j)
    ensures ReadDocument(scalars, Print(j)) == Ok(j) && ReadDocument(scalars, Print(j) + "\n") == Ok(j)
  {
    var text := Print(j);
    assert text + "" == text;
    MatchesWhole(text, "");
    MatchesWhole(text, "\n");
    PrintedStart(text, 0, j);
    ReadPrinted(scalars, text, 0, j, |text|);
    PrintedStart(text + "\n", 0, j);
    ReadPrinted(scalars, text + "\n", 0, j, |text|);
  }
}
