/** JSON values without raw floats, their compact text and a strict reader (RFC 8259, sections 2 to 7). */
module Json {
  import opened Wrappers

  datatype Json = Null | Bool(b: bool) | Int(i: int) | Str(s: string) | Arr(items: Items) | Obj(members: Members)

  datatype Items = NoItems | Item(head: Json, tail: Items)

  datatype Members = NoMembers | Member(key: string, value: Json, rest: Members)

  // ---------------------------------------------------------------- compact text

  function DigitChar(d: nat): char
    requires d < 10
  {
    '0' + d as char
  }

  function Digits(n: nat): string {
    if n < 10 then [DigitChar(n)] else Digits(n / 10) + [DigitChar(n % 10)]
  }

  function HexChar(d: nat): char
    requires d < 16
  {
    if d < 10 then '0' + d as char else 'a' + (d - 10) as char
  }

  /** How one character of a string is written between the quotes. */
  function EscapeChar(c: char): string {
    if c == '\"' then "\\\""
    else if c == '\\' then "\\\\"
    else if c == '\n' then "\\n"
    else if c == '\r' then "\\r"
    else if c == '\t' then "\\t"
    else if c as int == 8 then "\\b"
    else if c as int == 12 then "\\f"
    else if c as int < 32 then ['\\', 'u', '0', '0', HexChar(c as int / 16), HexChar(c as int % 16)]
    else [c]
  }

  /** The rest of a quoted string from its k-th character on, the closing quote included. */
  function EscapedFrom(s: string, k: nat): string
    requires k <= |s|
    decreases |s| - k
  {
    if k == |s| then "\"" else EscapeChar(s[k]) + EscapedFrom(s, k + 1)
  }

  function Quote(s: string): string {
    "\"" + EscapedFrom(s, 0)
  }

  function PrintInt(i: int): string {
    if i < 0 then "-" + Digits(-i) else Digits(i)
  }

  function Print(j: Json): string
    decreases j, 0
  {
    match j
    case Null => "null"
    case Bool(b) => if b then "true" else "false"
    case Int(i) => PrintInt(i)
    case Str(s) => Quote(s)
    case Arr(items) => if items.NoItems? then "[]" else "[" + PrintItems(items)
    case Obj(members) => if members.NoMembers? then "{}" else "{" + PrintMembers(members)
  }

  /** The items of a nonempty array and its closing bracket. */
  function PrintItems(items: Items): string
    requires items.Item?
    decreases items, 1
  {
    Print(items.head) + CloseItems(items.tail)
  }

  /** What follows an item: the closing bracket, or a comma and the next items. */
  function CloseItems(tail: Items): string
    decreases tail, 2
  {
    if tail.NoItems? then "]" else "," + PrintItems(tail)
  }

  function PrintMembers(members: Members): string
    requires members.Member?
    decreases members, 1
  {
    Quote(members.key) + (":" + (Print(members.value) + CloseMembers(members.rest)))
  }

  function CloseMembers(rest: Members): string
    decreases rest, 2
  {
    if rest.NoMembers? then "}" else "," + PrintMembers(rest)
  }

  // ---------------------------------------------------------------- the reader

  datatype ParseError = Syntax | DuplicateKey | RawNumber

  /** A value and the position after it. */
  datatype Step<T> = Step(value: T, next: nat)

  type Parsed<T> = Result<Step<T>, ParseError>

  predicate IsSpace(c: char) {
    c == ' ' || c == '\t' || c == '\n' || c == '\r'
  }

  function Skip(text: string, pos: nat): (p: nat)
    requires pos <= |text|
    ensures pos <= p <= |text|
    decreases |text| - pos
  {
    if pos < |text| && IsSpace(text[pos]) then Skip(text, pos + 1) else pos
  }

  predicate IsDigit(c: char) {
    '0' <= c <= '9'
  }

  function DigitsEnd(text: string, pos: nat): (end: nat)
    requires pos <= |text|
    ensures pos <= end <= |text|
    decreases |text| - pos
  {
    if pos < |text| && IsDigit(text[pos]) then DigitsEnd(text, pos + 1) else pos
  }

  predicate AllDigits(text: string, pos: nat, end: nat) {
    pos <= end <= |text| && forall k :: pos <= k < end ==> IsDigit(text[k])
  }

  /** The decimal value of text[pos..end]. */
  function Decimal(text: string, pos: nat, end: nat): nat
    requires AllDigits(text, pos, end)
    decreases end
  {
    if end <= pos then 0 else Decimal(text, pos, end - 1) * 10 + (text[end - 1] - '0') as nat
  }

  function HexValue(c: char): Option<nat> {
    if '0' <= c <= '9' then Some((c - '0') as nat)
    else if 'a' <= c <= 'f' then Some((c - 'a') as nat + 10)
    else if 'A' <= c <= 'F' then Some((c - 'A') as nat + 10)
    else None
  }

  function Hex2(a: char, b: char): (u: Option<nat>)
    ensures u.Some? ==> u.value < 256
  {
    var high, low := HexValue(a), HexValue(b);
    if high.None? || low.None? then None else Some(high.value * 16 + low.value)
  }

  /** The value of the four hexadecimal digits at pos. */
  function Hex4(text: string, pos: nat): (u: Option<nat>)
    ensures u.Some? ==> u.value < 0x10000 && pos + 4 <= |text|
  {
    if pos + 4 > |text| then None
    else
      var high, low := Hex2(text[pos], text[pos + 1]), Hex2(text[pos + 2], text[pos + 3]);
      if high.None? || low.None? then None else Some(high.value * 256 + low.value)
  }

  predicate IsScalar(u: nat) {
    u < 0xD800 || 0xE000 <= u < 0x110000
  }

  /** The rest of a string after what has been read of it. */
  function ReadChars(text: string, pos: nat, read: string): (r: Parsed<string>)
    requires pos <= |text|
    ensures r.Ok? ==> pos < r.value.next <= |text|
    decreases |text| - pos
  {
    if pos == |text| then Err(Syntax)
    else if text[pos] == '\"' then Ok(Step(read, pos + 1))
    else if text[pos] == '\\' then ReadEscape(text, pos + 1, read)
    else if text[pos] as int < 32 then Err(Syntax)
    else ReadChars(text, pos + 1, read + [text[pos]])
  }

  /** An escape after its backslash, and the rest of the string; a lone surrogate stands for no character. */
  function ReadEscape(text: string, pos: nat, read: string): (r: Parsed<string>)
    requires pos <= |text|
    ensures r.Ok? ==> pos < r.value.next <= |text|
    decreases |text| - pos
  {
    if pos == |text| then Err(Syntax)
    else if text[pos] == 'u' then
      var high := Hex4(text, pos + 1);
      if high.None? then Err(Syntax)
      else if IsScalar(high.value) then ReadChars(text, pos + 5, read + [high.value as char])
      else if high.value < 0xDC00 && pos + 7 <= |text| && text[pos + 5] == '\\' && text[pos + 6] == 'u' then
        var low := Hex4(text, pos + 7);
        if low.None? || !(0xDC00 <= low.value < 0xE000) then Err(Syntax)
        else
          var pair := (0x10000 + (high.value - 0xD800) * 1024 + (low.value - 0xDC00)) as char;
          ReadChars(text, pos + 11, read + [pair])
      else Err(Syntax)
    else
      var c := Unescaped(text[pos]);
      if c.None? then Err(Syntax) else ReadChars(text, pos + 1, read + [c.value])
  }

  /** The character a one-letter escape stands for. */
  function Unescaped(c: char): Option<char> {
    if c == '\"' || c == '\\' || c == '/' then Some(c)
    else if c == 'n' then Some('\n')
    else if c == 'r' then Some('\r')
    else if c == 't' then Some('\t')
    else if c == 'b' then Some(8 as char)
    else if c == 'f' then Some(12 as char)
    else None
  }

  /** The word stands at pos. */
  predicate Matches(text: string, pos: nat, word: string) {
    pos + |word| <= |text| && forall k {:trigger word[k]} :: 0 <= k < |word| ==> text[pos + k] == word[k]
  }

  predicate DigitAt(text: string, pos: nat) {
    pos < |text| && IsDigit(text[pos])
  }

  /** The number ending at end continues with a fraction or an exponent. */
  predicate FloatFollows(text: string, end: nat) {
    end < |text|
    && ((text[end] == '.' && DigitAt(text, end + 1))
        || ((text[end] == 'e' || text[end] == 'E')
            && (DigitAt(text, end + 1)
                || (end + 1 < |text| && (text[end + 1] == '+' || text[end + 1] == '-') && DigitAt(text, end + 2)))))
  }

  lemma DigitsEndDigits(text: string, pos: nat)
    requires pos <= |text|
    ensures AllDigits(text, pos, DigitsEnd(text, pos))
    decreases |text| - pos
  {
  }

  function ReadNumber(text: string, pos: nat): (r: Parsed<Json>)
    requires pos <= |text|
    ensures r.Ok? ==> pos < r.value.next <= |text|
  {
    var start := if pos < |text| && text[pos] == '-' then pos + 1 else pos;
    if !DigitAt(text, start) then
      if Matches(text, pos, "NaN") || Matches(text, pos, "Infinity") || Matches(text, pos, "-Infinity")
      then Err(RawNumber) else Err(Syntax)
    else
      var end := if text[start] == '0' then start + 1 else DigitsEnd(text, start);
      if FloatFollows(text, end) then Err(RawNumber)
      else
        DigitsEndDigits(text, start);
        var n: int := Decimal(text, start, end);
        Ok(Step(Int(if start > pos then -n else n), end))
  }

  /** Literals and integers; a raw float or a nonfinite constant is refused. */
  function ReadScalar(text: string, pos: nat): (r: Parsed<Json>)
    ensures r.Ok? ==> pos < r.value.next <= |text|
  {
    if pos >= |text| then Err(Syntax)
    else if Matches(text, pos, "null") then Ok(Step(Null, pos + 4))
    else if Matches(text, pos, "true") then Ok(Step(Bool(true), pos + 4))
    else if Matches(text, pos, "false") then Ok(Step(Bool(false), pos + 5))
    else ReadNumber(text, pos)
  }

  function HasKey(members: Members, key: string): bool {
    match members
    case NoMembers => false
    case Member(k, _, rest) => k == key || HasKey(rest, key)
  }

  /** No key occurs twice. */
  predicate KeysDistinct(members: Members) {
    match members
    case NoMembers => true
    case Member(k, _, rest) => !HasKey(rest, k) && KeysDistinct(rest)
  }

  /** How a document's scalars are read: the hooks its reader is called with. */
  datatype Scalars = Scalars(read: (string, nat) -> Parsed<Json>)

  /** One value at pos; the caller has skipped the white space. */
  function ReadValue(scalars: Scalars, text: string, pos: nat): (r: Parsed<Json>)
    requires pos <= |text|
    ensures r.Ok? ==> pos < r.value.next <= |text|
    decreases |text| - pos, 1
  {
    if pos == |text| then Err(Syntax)
    else if text[pos] == '\"' then
      match ReadChars(text, pos + 1, "")
      case Err(e) => Err(e)
      case Ok(step) => Ok(Step(Str(step.value), step.next))
    else if text[pos] == '[' then
      var p := Skip(text, pos + 1);
      if p < |text| && text[p] == ']' then Ok(Step(Arr(NoItems), p + 1))
      else
        match ReadItems(scalars, text, p)
        case Err(e) => Err(e)
        case Ok(step) => Ok(Step(Arr(step.value), step.next))
    else if text[pos] == '{' then
      var p := Skip(text, pos + 1);
      if p < |text| && text[p] == '}' then Ok(Step(Obj(NoMembers), p + 1))
      else
        match ReadMembers(scalars, text, p)
        case Err(e) => Err(e)
        case Ok(step) => if KeysDistinct(step.value) then Ok(Step(Obj(step.value), step.next)) else Err(DuplicateKey)
    else
      match scalars.read(text, pos)
      case Err(e) => Err(e)
      case Ok(step) => if pos < step.next <= |text| then Ok(step) else Err(Syntax)
  }

  /** The items from pos to the closing bracket. */
  function ReadItems(scalars: Scalars, text: string, pos: nat): (r: Parsed<Items>)
    requires pos <= |text|
    ensures r.Ok? ==> pos < r.value.next <= |text|
    decreases |text| - pos, 2
  {
    match ReadValue(scalars, text, pos)
    case Err(e) => Err(e)
    case Ok(head) =>
      var p := Skip(text, head.next);
      if p < |text| && text[p] == ']' then Ok(Step(Item(head.value, NoItems), p + 1))
      else if p < |text| && text[p] == ',' then
        match ReadItems(scalars, text, Skip(text, p + 1))
        case Err(e) => Err(e)
        case Ok(tail) => Ok(Step(Item(head.value, tail.value), tail.next))
      else Err(Syntax)
  }

  /** The key at pos and its colon; the position is that of the value. */
  function ReadKey(text: string, pos: nat): (r: Parsed<string>)
    requires pos <= |text|
    ensures r.Ok? ==> pos < r.value.next <= |text|
  {
    if pos < |text| && text[pos] == '\"' then
      match ReadChars(text, pos + 1, "")
      case Err(e) => Err(e)
      case Ok(key) =>
        var p := Skip(text, key.next);
        if p < |text| && text[p] == ':' then Ok(Step(key.value, Skip(text, p + 1))) else Err(Syntax)
    else Err(Syntax)
  }

  function ReadMembers(scalars: Scalars, text: string, pos: nat): (r: Parsed<Members>)
    requires pos <= |text|
    ensures r.Ok? ==> pos < r.value.next <= |text|
    decreases |text| - pos, 2
  {
    match ReadKey(text, pos)
    case Err(e) => Err(e)
    case Ok(key) =>
      match ReadValue(scalars, text, key.next)
      case Err(e) => Err(e)
      case Ok(value) =>
        var p := Skip(text, value.next);
        if p < |text| && text[p] == '}' then Ok(Step(Member(key.value, value.value, NoMembers), p + 1))
        else if p < |text| && text[p] == ',' then
          match ReadMembers(scalars, text, Skip(text, p + 1))
          case Err(e) => Err(e)
          case Ok(rest) => Ok(Step(Member(key.value, value.value, rest.value), rest.next))
        else Err(Syntax)
  }

  /** A whole document: one value between white space. */
  function ReadDocument(scalars: Scalars, text: string): Result<Json, ParseError> {
    match ReadValue(scalars, text, Skip(text, 0))
    case Err(e) => Err(e)
    case Ok(step) => if Skip(text, step.next) == |text| then Ok(step.value) else Err(Syntax)
  }

  /** The strict scalars of a stored record: no raw floats. */
  function StrictScalars(): Scalars {
    Scalars((text: string, pos: nat) => ReadScalar(text, pos))
  }
}
