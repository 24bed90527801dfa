/** The quote- and escape-aware depth scanner that guards both JSON readers. */
module DepthScan {
  import opened Wrappers

  datatype DepthError = TooDeep | NegativeDepth

  datatype Scan = Scan(depth: nat, quoted: bool, escaped: bool)

  /** One byte of the scan: 34 is the quote, 92 the backslash, 91 and 123 open, 93 and 125 close. */
  function StepByte(limit: nat, s: Scan, byte: nat): Result<Scan, DepthError> {
    if s.quoted then
      if s.escaped then Ok(s.(escaped := false))
      else if byte == 92 then Ok(s.(escaped := true))
      else if byte == 34 then Ok(s.(quoted := false))
      else Ok(s)
    else if byte == 34 then Ok(s.(quoted := true))
    else if byte == 91 || byte == 123 then
      if s.depth + 1 > limit then Err(TooDeep) else Ok(s.(depth := s.depth + 1))
    else if byte == 93 || byte == 125 then
      if s.depth == 0 then Err(NegativeDepth) else Ok(s.(depth := s.depth - 1))
    else Ok(s)
  }

  function Start(): Scan {
    Scan(0, false, false)
  }

  /** The scan of a byte sequence from a state, stopping at the first refusal. */
  function ScanBytes(limit: nat, s: Scan, bytes: seq<nat>): Result<Scan, DepthError>
    decreases |bytes|
  {
    if bytes == [] then Ok(s)
    else
      match StepByte(limit, s, bytes[0])
      case Err(e) => Err(e)
      case Ok(next) => ScanBytes(limit, next, bytes[1..])
  }

  lemma {:induction false} ScanConcat(limit: nat, s: Scan, a: seq<nat>, b: seq<nat>)
    ensures ScanBytes(limit, s, a + b)
         == match ScanBytes(limit, s, a) case Err(e) => Err(e) case Ok(next) => ScanBytes(limit, next, b)
    decreases |a|
  {
    if a == [] {
      assert a + b == b;
    } else {
      assert (a + b)[1..] == a[1..] + b;
      if StepByte(limit, s, a[0]).Ok? { ScanConcat(limit, StepByte(limit, s, a[0]).value, a[1..], b); }
    }
  }

  lemma ScanOne(limit: nat, s: Scan, byte: nat)
    ensures ScanBytes(limit, s, [byte]) == StepByte(limit, s, byte)
  {
    assert [byte][1..] == [];
  }

  /** The loop over the bytes with its three running variables. */
  method CheckDepth(limit: nat, bytes: seq<nat>) returns (r: Result<Scan, DepthError>)
    ensures r == ScanBytes(limit, Start(), bytes)
  {
    var depth, quoted, escaped := 0, false, false;
    for i := 0 to |bytes|
      invariant depth >= 0 && ScanBytes(limit, Start(), bytes[..i]) == Ok(Scan(depth, quoted, escaped))
    {
      var byte := bytes[i];
      ghost var before := Scan(depth, quoted, escaped);
      assert bytes[..i + 1] == bytes[..i] + [byte] && bytes == bytes[..i + 1] + bytes[i + 1..];
      ScanConcat(limit, Start(), bytes[..i], [byte]);
      ScanConcat(limit, Start(), bytes[..i + 1], bytes[i + 1..]);
      ScanOne(limit, before, byte);
      if quoted {
        if escaped {
          escaped := false;
        } else if byte == 92 {
          escaped := true;
        } else if byte == 34 {
          quoted := false;
        }
      } else if byte == 34 {
        quoted := true;
      } else if byte == 91 || byte == 123 {
        depth := depth + 1;
        if depth > limit { return Err(TooDeep); }
      } else if byte == 93 || byte == 125 {
        depth := depth - 1;
        if depth < 0 { return Err(NegativeDepth); }
      }
    }
    assert bytes[..|bytes|] == bytes;
    r := Ok(Scan(depth, quoted, escaped));
  }
}
