/** The feeding contract can be met: a format of literal bytes with a terminator, and its decompressor. */
module TerminatedFormat {
  import opened Bytes
  import opened Inflate

  /** The position of the first zero byte, or the length. */
  function FirstZero(x: seq<Byte>): (z: nat)
    ensures z <= |x| && (z < |x| ==> x[z] == 0) && forall k :: 0 <= k < z ==> x[k] != 0
  {
    if x == [] || x[0] == 0 then 0 else 1 + FirstZero(x[1..])
  }

  /** Every byte before the first zero stands for itself; the zero ends the stream. */
  function StatusOf(x: seq<Byte>): Status {
    var z := FirstZero(x);
    if z == |x| then More(x) else if z == |x| - 1 then Done(x[..z]) else Bad
  }

  function Format(): seq<Byte> -> Status {
    (x: seq<Byte>) => StatusOf(x)
  }

  lemma FirstZeroIs(x: seq<Byte>, z: nat)
    requires z <= |x| && (z < |x| ==> x[z] == 0) && forall k :: 0 <= k < z ==> x[k] != 0
    ensures FirstZero(x) == z
  {
  }

  lemma FirstZeroConcat(x: seq<Byte>, y: seq<Byte>)
    ensures FirstZero(x + y) == if FirstZero(x) < |x| then FirstZero(x) else |x| + FirstZero(y)
  {
    FirstZeroIs(x + y, if FirstZero(x) < |x| then FirstZero(x) else |x| + FirstZero(y));
  }

  lemma FormatCoherent()
    ensures Coherent(Format())
  {
    forall x: seq<Byte>, y: seq<Byte> | y != []
      ensures StatusOf(x).More? && StatusOf(x + y) != Bad ==> StatusOf(x).output <= StatusOf(x + y).output
      ensures !StatusOf(x).More? ==> StatusOf(x + y) == Bad
    {
      FirstZeroConcat(x, y);
    }
  }

  datatype Taken = Taken(input: seq<Byte>, output: seq<Byte>)

  function Feed(s: Taken, offered: seq<Byte>, limit: nat): Answer<Taken> {
    var z := FirstZero(offered);
    if z < |offered| && z <= limit
    then Fed(Taken(s.input + offered[..z + 1], s.output + offered[..z]), offered[..z], [], offered[z + 1..], true)
    else
      var n := if |offered| < limit then |offered| else limit;
      Fed(Taken(s.input + offered[..n], s.output + offered[..n]), offered[..n], offered[n..], [], false)
  }

  function Literal(): Decompressor<Taken> {
    Decompressor(
      Taken([], []),
      (s: Taken, offered: seq<Byte>, limit: nat) => Feed(s, offered, limit),
      (s: Taken) => s.input,
      (s: Taken) => s.output)
  }

  /** Extraction therefore has a decompressor and a format to which its contract applies. */
  lemma LiteralObeys()
    ensures Coherent(Format()) && Obeys(Literal(), Format())
  {
    FormatCoherent();
    forall s: Taken, offered: seq<Byte>, limit: nat | limit > 0 && StatusOf(s.input) == More(s.output)
      ensures FeedOk(Literal(), Format(), s, offered, limit)
    {
      FeedIsOk(s, offered, limit);
    }
  }

  lemma DoneAt(whole: seq<Byte>, z: nat)
    requires |whole| == z + 1 && whole[z] == 0 && forall k :: 0 <= k < z ==> whole[k] != 0
    ensures StatusOf(whole) == Done(whole[..z])
  {
    FirstZeroIs(whole, z);
  }

  lemma EndsHere(s: Taken, offered: seq<Byte>, z: nat)
    requires StatusOf(s.input) == More(s.output) && z == FirstZero(offered) < |offered|
    ensures StatusOf(s.input + offered[..z + 1]) == Done(s.output + offered[..z])
  {
    var whole, end := s.input + offered[..z + 1], |s.input| + z;
    assert whole[end] == offered[z];
    DoneAt(whole, end);
    assert whole[..end] == s.input + offered[..z];
  }

  lemma GoesOn(s: Taken, offered: seq<Byte>, n: nat)
    requires StatusOf(s.input) == More(s.output) && n <= FirstZero(offered)
    ensures StatusOf(s.input + offered[..n]) == More(s.output + offered[..n])
  {
    FirstZeroIs(offered[..n], n);
    FirstZeroConcat(s.input, offered[..n]);
  }

  /** What is taken and what is left make up the offered bytes. */
  lemma Pieces(offered: seq<Byte>, n: nat, tail: seq<Byte>, unused: seq<Byte>)
    requires n <= |offered| && (tail == [] || unused == []) && tail + unused == offered[n..]
    ensures |offered| - |tail| - |unused| == n && offered == offered[..n] + tail + unused
  {
    assert offered == offered[..n] + (tail + unused) == offered[..n] + tail + unused;
  }

  /** An answer that takes n bytes obeys the contract if its new state does. */
  lemma TakesBytes(s: Taken, offered: seq<Byte>, limit: nat, n: nat, output: seq<Byte>, tail: seq<Byte>,
                   unused: seq<Byte>, eof: bool)
    requires n <= |offered| && |output| <= limit && (if eof then tail == [] else unused == [])
    requires tail + unused == offered[n..]
    requires Feed(s, offered, limit)
          == Fed(Taken(s.input + offered[..n], s.output + output), output, tail, unused, eof)
    requires StatusOf(s.input + offered[..n]) == if eof then Done(s.output + output) else More(s.output + output)
    requires !eof && |output| < limit ==> tail == []
    ensures FeedOk(Literal(), Format(), s, offered, limit)
  {
    Pieces(offered, n, tail, unused);
  }

  lemma FeedEnds(s: Taken, offered: seq<Byte>, limit: nat, z: nat)
    requires limit > 0 && StatusOf(s.input) == More(s.output) && z == FirstZero(offered)
    requires z < |offered| && z <= limit
    ensures FeedOk(Literal(), Format(), s, offered, limit)
  {
    EndsHere(s, offered, z);
    TakesBytes(s, offered, limit, z + 1, offered[..z], [], offered[z + 1..], true);
  }

  lemma FeedGoesOn(s: Taken, offered: seq<Byte>, limit: nat, n: nat)
    requires limit > 0 && StatusOf(s.input) == More(s.output) && n == (if |offered| < limit then |offered| else limit)
    requires FirstZero(offered) == |offered| || FirstZero(offered) > limit
    ensures FeedOk(Literal(), Format(), s, offered, limit)
  {
    GoesOn(s, offered, n);
    TakesBytes(s, offered, limit, n, offered[..n], offered[n..], [], false);
  }

  lemma FeedIsOk(s: Taken, offered: seq<Byte>, limit: nat)
    requires limit > 0 && StatusOf(s.input) == More(s.output)
    ensures FeedOk(Literal(), Format(), s, offered, limit)
  {
    var z := FirstZero(offered);
    if z < |offered| && z <= limit {
      FeedEnds(s, offered, limit, z);
    } else {
      FeedGoesOn(s, offered, limit, if |offered| < limit then |offered| else limit);
    }
  }
}
