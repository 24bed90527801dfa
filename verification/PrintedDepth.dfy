/** On compact JSON text the byte scanner measures exactly the container depth of the value. */
module PrintedDepth {
  import opened Wrappers
  import opened Json
  import opened JsonRoundTrip
  import opened Utf8
  import opened DepthScan

  function Max(a: nat, b: nat): nat { if a < b then b else a }

  /** How deeply containers nest in a value. */
  function Depth(j: Json): nat {
    match j
    case Arr(items) => 1 + ItemsDepth(items)
    case Obj(members) => 1 + MembersDepth(members)
    case _ => 0
  }

  function ItemsDepth(items: Items): nat {
    match items
    case NoItems => 0
    case Item(head, tail) => Max(Depth(head), ItemsDepth(tail))
  }

  function MembersDepth(members: Members): nat {
    match members
    case NoMembers => 0
    case Member(_, value, rest) => Max(Depth(value), MembersDepth(rest))
  }

  function ScanText(limit: nat, s: Scan, text: string): Result<Scan, DepthError> {
    ScanBytes(limit, s, Encode(text))
  }

  lemma ScanTextConcat(limit: nat, s: Scan, a: string, b: string)
    ensures ScanText(limit, s, a + b)
         == match ScanText(limit, s, a) case Err(e) => Err(e) case Ok(next) => ScanText(limit, next, b)
  {
    EncodeConcat(a, b);
    ScanConcat(limit, s, Encode(a), Encode(b));
  }

  function At(d: nat): Scan { Scan(d, false, false) }

  predicate Plain(c: char) {
    c != '\"' && c != '[' && c != ']' && c != '{' && c != '}'
  }

  lemma EncodeOne(c: char)
    ensures Encode([c]) == EncodeChar(c)
  {
    assert EncodeFrom([c], 1) == [];
  }

  /** Bytes that are no quote, bracket or backslash leave an unescaped state as it is. */
  lemma {:induction false} InertBytes(limit: nat, s: Scan, bytes: seq<nat>)
    requires !s.escaped && forall i :: 0 <= i < |bytes| ==> bytes[i] >= 128
    ensures ScanBytes(limit, s, bytes) == Ok(s)
    decreases |bytes|
  {
    if bytes != [] { InertBytes(limit, s, bytes[1..]); }
  }

  lemma WideChar(c: char)
    requires c as int >= 128
    ensures forall i :: 0 <= i < |EncodeChar(c)| ==> EncodeChar(c)[i] >= 128
  {
  }

  lemma ScanAscii(limit: nat, s: Scan, c: char)
    requires c as int < 128
    ensures ScanText(limit, s, [c]) == StepByte(limit, s, c as int)
  {
    EncodeOne(c);
    ScanOne(limit, s, c as int);
  }

  lemma PlainChar(limit: nat, d: nat, c: char)
    requires Plain(c)
    ensures ScanText(limit, At(d), [c]) == Ok(At(d))
  {
    EncodeOne(c);
    if c as int < 128 {
      ScanAscii(limit, At(d), c);
    } else {
      WideChar(c);
      InertBytes(limit, At(d), EncodeChar(c));
    }
  }

  lemma {:induction false} PlainText(limit: nat, d: nat, text: string)
    requires forall i :: 0 <= i < |text| ==> Plain(text[i])
    ensures ScanText(limit, At(d), text) == Ok(At(d))
    decreases |text|
  {
    if text != "" {
      var last := |text| - 1;
      assert text == text[..last] + [text[last]];
      PlainText(limit, d, text[..last]);
      PlainChar(limit, d, text[last]);
      ScanTextConcat(limit, At(d), text[..last], [text[last]]);
    }
  }

  // ---------------------------------------------------------------- strings

  function Inside(d: nat): Scan { Scan(d, true, false) }

  /** Two or more characters after a backslash: the first is consumed by the escape, the others are inert. */
  lemma EscapePair(limit: nat, d: nat, c: char)
    requires c as int < 128
    ensures ScanText(limit, Inside(d), ['\\', c]) == Ok(Inside(d))
  {
    assert ['\\', c] == ['\\'] + [c];
    ScanTextConcat(limit, Inside(d), ['\\'], [c]);
    ScanAscii(limit, Inside(d), '\\');
    ScanAscii(limit, Scan(d, true, true), c);
  }

  lemma InertInside(limit: nat, d: nat, c: char)
    requires c != '\"' && c != '\\'
    ensures ScanText(limit, Inside(d), [c]) == Ok(Inside(d))
  {
    EncodeOne(c);
    if c as int < 128 {
      ScanAscii(limit, Inside(d), c);
    } else {
      WideChar(c);
      InertBytes(limit, Inside(d), EncodeChar(c));
    }
  }

  lemma ControlEscape(limit: nat, d: nat, a: char, b: char)
    requires a != '\"' && a != '\\' && b != '\"' && b != '\\'
    ensures ScanText(limit, Inside(d), ['\\', 'u', '0', '0', a, b]) == Ok(Inside(d))
  {
    var s := Inside(d);
    assert ['\\', 'u', '0', '0', a, b] == ['\\', 'u'] + (['0'] + (['0'] + ([a] + [b])));
    EscapePair(limit, d, 'u');
    InertInside(limit, d, '0');
    InertInside(limit, d, a);
    InertInside(limit, d, b);
    ScanTextConcat(limit, s, ['\\', 'u'], ['0'] + (['0'] + ([a] + [b])));
    ScanTextConcat(limit, s, ['0'], ['0'] + ([a] + [b]));
    ScanTextConcat(limit, s, ['0'], [a] + [b]);
    ScanTextConcat(limit, s, [a], [b]);
  }

  /** A printed character never leaves the string. */
  lemma CharInside(limit: nat, d: nat, c: char)
    ensures ScanText(limit, Inside(d), EscapeChar(c)) == Ok(Inside(d))
  {
    var e := EscapeChar(c);
    if |e| == 1 {
      InertInside(limit, d, c);
    } else if |e| == 2 {
      EscapePair(limit, d, e[1]);
      assert e == ['\\', e[1]];
    } else {
      ControlEscape(limit, d, e[4], e[5]);
      assert e == ['\\', 'u', '0', '0', e[4], e[5]];
    }
  }

  lemma {:induction false} RestOfString(limit: nat, d: nat, s: string, k: nat)
    requires k <= |s|
    ensures ScanText(limit, Inside(d), EscapedFrom(s, k)) == Ok(At(d))
    decreases |s| - k
  {
    if k == |s| {
      ScanAscii(limit, Inside(d), '\"');
    } else {
      CharInside(limit, d, s[k]);
      RestOfString(limit, d, s, k + 1);
      ScanTextConcat(limit, Inside(d), EscapeChar(s[k]), EscapedFrom(s, k + 1));
    }
  }

  /** A quoted string carries no nesting, whatever brackets and quotes it holds. */
  lemma ScanQuoted(limit: nat, d: nat, s: string)
    ensures ScanText(limit, At(d), Quote(s)) == Ok(At(d))
  {
    ScanAscii(limit, At(d), '\"');
    RestOfString(limit, d, s, 0);
    ScanTextConcat(limit, At(d), "\"", EscapedFrom(s, 0));
  }

  // ---------------------------------------------------------------- values

  lemma {:induction false} DigitsPlain(n: nat)
    ensures forall i :: 0 <= i < |Digits(n)| ==> Plain(Digits(n)[i])
  {
    if n >= 10 { DigitsPlain(n / 10); }
  }

  lemma ScalarPlain(j: Json)
    requires IsScalarValue(j)
    ensures forall i :: 0 <= i < |Print(j)| ==> Plain(Print(j)[i])
  {
    if j.Int? { DigitsPlain(if j.i < 0 then -j.i else j.i); }
  }

  /** The state after a value of the given depth, scanned at depth d. */
  function After(limit: nat, d: nat, depth: nat): Result<Scan, DepthError> {
    if d + depth <= limit then Ok(At(d)) else Err(TooDeep)
  }

  lemma Opens(limit: nat, d: nat, c: char, rest: string)
    requires c == '[' || c == '{'
    ensures ScanText(limit, At(d), [c] + rest)
         == if d + 1 <= limit then ScanText(limit, At(d + 1), rest) else Err(TooDeep)
  {
    ScanAscii(limit, At(d), c);
    ScanTextConcat(limit, At(d), [c], rest);
  }

  lemma Closes(limit: nat, d: nat, c: char)
    requires c == ']' || c == '}'
    ensures ScanText(limit, At(d + 1), [c]) == Ok(At(d))
  {
    ScanAscii(limit, At(d + 1), c);
  }

  lemma Continue(limit: nat, d: nat, c: char, rest: string)
    requires Plain(c)
    ensures ScanText(limit, At(d), [c] + rest) == ScanText(limit, At(d), rest)
  {
    PlainChar(limit, d, c);
    ScanTextConcat(limit, At(d), [c], rest);
  }

  /** Scanning a printed value: back at the same depth, or refused exactly when its nesting passes the limit. */
  lemma {:induction false} ScanPrinted(limit: nat, d: nat, j: Json)
    requires d <= limit
    ensures ScanText(limit, At(d), Print(j)) == After(limit, d, Depth(j))
    decreases j, 0
  {
    match j
    case Str(s) => ScanQuoted(limit, d, s);
    case Arr(items) =>
      if items.NoItems? {
        assert "[]" == ['['] + [']'];
        Opens(limit, d, '[', "]");
        Closes(limit, d, ']');
      } else {
        Opens(limit, d, '[', PrintItems(items));
        if d + 1 <= limit { ScanItems(limit, d, items); }
      }
    case Obj(members) =>
      if members.NoMembers? {
        assert "{}" == ['{'] + ['}'];
        Opens(limit, d, '{', "}");
        Closes(limit, d, '}');
      } else {
        Opens(limit, d, '{', PrintMembers(members));
        if d + 1 <= limit { ScanMembers(limit, d, members); }
      }
    case _ =>
      ScalarPlain(j);
      PlainText(limit, d, Print(j));
  }

  /** A value and the rest of its container nest as deeply as the deeper of the two. */
  lemma ScanBoth(limit: nat, d: nat, value: string, rest: string, x: nat, y: nat)
    requires ScanText(limit, At(d + 1), value) == After(limit, d + 1, x)
    requires ScanText(limit, At(d + 1), rest) == After(limit, d, 1 + y)
    ensures ScanText(limit, At(d + 1), value + rest) == After(limit, d, 1 + Max(x, y))
  {
    ScanTextConcat(limit, At(d + 1), value, rest);
  }

  lemma {:induction false} ScanItems(limit: nat, d: nat, items: Items)
    requires items.Item? && d + 1 <= limit
    ensures ScanText(limit, At(d + 1), PrintItems(items)) == After(limit, d, 1 + ItemsDepth(items))
    decreases items, 1
  {
    ScanPrinted(limit, d + 1, items.head);
    ScanCloseItems(limit, d, items.tail);
    ScanBoth(limit, d, Print(items.head), CloseItems(items.tail), Depth(items.head), ItemsDepth(items.tail));
  }

  lemma {:induction false} ScanCloseItems(limit: nat, d: nat, tail: Items)
    requires d + 1 <= limit
    ensures ScanText(limit, At(d + 1), CloseItems(tail)) == After(limit, d, 1 + ItemsDepth(tail))
    decreases tail, 2
  {
    if tail.NoItems? {
      Closes(limit, d, ']');
    } else {
      Continue(limit, d + 1, ',', PrintItems(tail));
      ScanItems(limit, d, tail);
    }
  }

  lemma {:induction false} ScanMembers(limit: nat, d: nat, members: Members)
    requires members.Member? && d + 1 <= limit
    ensures ScanText(limit, At(d + 1), PrintMembers(members)) == After(limit, d, 1 + MembersDepth(members))
    decreases members, 1
  {
    var rest := Print(members.value) + CloseMembers(members.rest);
    ScanQuoted(limit, d + 1, members.key);
    ScanTextConcat(limit, At(d + 1), Quote(members.key), ":" + rest);
    Continue(limit, d + 1, ':', rest);
    ScanPrinted(limit, d + 1, members.value);
    ScanCloseMembers(limit, d, members.rest);
    ScanBoth(limit, d, Print(members.value), CloseMembers(members.rest), Depth(members.value),
             MembersDepth(members.rest));
  }

  lemma {:induction false} ScanCloseMembers(limit: nat, d: nat, rest: Members)
    requires d + 1 <= limit
    ensures ScanText(limit, At(d + 1), CloseMembers(rest)) == After(limit, d, 1 + MembersDepth(rest))
    decreases rest, 2
  {
    if rest.NoMembers? {
      Closes(limit, d, '}');
    } else {
      Continue(limit, d + 1, ',', PrintMembers(rest));
      ScanMembers(limit, d, rest);
    }
  }

  /** A printed document, with or without its final line feed, passes the scanner exactly within the limit. */
  lemma ScanDocument(limit: nat, j: Json)
    ensures ScanBytes(limit, Start(), Encode(Print(j))) == After(limit, 0, Depth(j))
    ensures ScanBytes(limit, Start(), Encode(Print(j) + "\n")) == After(limit, 0, Depth(j))
  {
    ScanPrinted(limit, 0, j);
    ScanTextConcat(limit, At(0), Print(j), "\n");
    PlainChar(limit, 0, '\n');
  }
}
