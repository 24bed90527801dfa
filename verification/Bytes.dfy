/** Bytes and the little-endian integers read from them. */
module Bytes {

  type Byte = b: int | 0 <= b < 256

  /** The bytes of an ASCII text. */
  function Ascii(text: string): seq<Byte>
    requires forall i :: 0 <= i < |text| ==> text[i] as int < 128
  {
    seq(|text|, i requires 0 <= i < |text| => text[i] as int)
  }

  function U16(s: seq<Byte>, at: nat): (u: nat)
    requires at + 2 <= |s|
    ensures u < 0x1_0000
  {
    s[at] as int + 0x100 * s[at + 1] as int
  }

  function U32(s: seq<Byte>, at: nat): (u: nat)
    requires at + 4 <= |s|
    ensures u < 0x1_0000_0000
  {
    U16(s, at) + 0x1_0000 * U16(s, at + 2)
  }

  function U64(s: seq<Byte>, at: nat): (u: nat)
    requires at + 8 <= |s|
    ensures u < 0x1_0000_0000_0000_0000
  {
    U32(s, at) + 0x1_0000_0000 * U32(s, at + 4)
  }

  /** The two bytes of a 16-bit integer. */
  function Le16(n: nat): (s: seq<Byte>)
    requires n < 0x1_0000
    ensures |s| == 2 && U16(s, 0) == n
  {
    [n % 0x100, n / 0x100]
  }

  /** The four bytes of a 32-bit integer, the lowest first. */
  function Le32(n: nat): (s: seq<Byte>)
    requires n < 0x1_0000_0000
    ensures |s| == 4 && U32(s, 0) == n
  {
    var second := n / 0x100;
    var third := second / 0x100;
    [n % 0x100, second % 0x100, third % 0x100, third / 0x100]
  }

  /** The eight bytes of a 64-bit integer, the lowest first. */
  function Le64(n: nat): (s: seq<Byte>)
    requires n < 0x1_0000_0000_0000_0000
    ensures |s| == 8 && U64(s, 0) == n
  {
    var low, high := Le32(n % 0x1_0000_0000), Le32(n / 0x1_0000_0000);
    assert forall i :: 0 <= i < 4 ==> (low + high)[i] == low[i] && (low + high)[4 + i] == high[i];
    low + high
  }

  /** Byte i of an integer of 16, 32 or 64 bits weighs 256 to the i. */
  lemma ByteWeights(s: seq<Byte>, at: nat, b: seq<int>)
    requires at + 8 <= |s| && |b| == 8 && forall i :: 0 <= i < 8 ==> b[i] == s[at + i] as int
    ensures U16(s, at) == b[0] + 0x100 * b[1]
    ensures U32(s, at) == b[0] + 0x100 * b[1] + 0x1_0000 * b[2] + 0x100_0000 * b[3]
    ensures U64(s, at) == U32(s, at) + 0x1_0000_0000 * b[4] + 0x100_0000_0000 * b[5]
                          + 0x1_0000_0000_0000 * b[6] + 0x100_0000_0000_0000 * b[7]
  {
    assert s[at + 0] == s[at];
  }

  /** The piece stands at the position. */
  predicate At(s: seq<Byte>, pos: nat, piece: seq<Byte>) {
    pos + |piece| <= |s| && s[pos..pos + |piece|] == piece
  }

  /** Each byte of a standing piece is where its place says. */
  lemma ByteAt(s: seq<Byte>, pos: nat, piece: seq<Byte>, k: nat)
    requires At(s, pos, piece) && k < |piece|
    ensures s[pos + k] == piece[k]
  {
    assert s[pos..pos + |piece|][k] == s[pos + k];
  }

  /** What stands in a standing piece stands in the whole. */
  lemma AtWithin(s: seq<Byte>, pos: nat, piece: seq<Byte>, k: nat, part: seq<Byte>)
    requires At(s, pos, piece) && At(piece, k, part)
    ensures At(s, pos + k, part)
  {
    forall i | 0 <= i < |part| ensures s[pos + k + i] == part[i] {
      ByteAt(s, pos, piece, k + i);
      ByteAt(piece, k, part, i);
    }
  }

  lemma ReadLe16(s: seq<Byte>, pos: nat, n: nat)
    requires n < 0x1_0000 && At(s, pos, Le16(n))
    ensures U16(s, pos) == n
  {
    ByteAt(s, pos, Le16(n), 0);
    ByteAt(s, pos, Le16(n), 1);
  }

  lemma ReadLe32(s: seq<Byte>, pos: nat, n: nat)
    requires n < 0x1_0000_0000 && At(s, pos, Le32(n))
    ensures U32(s, pos) == n
  {
    var b := Le32(n);
    forall k | 0 <= k < 4 ensures s[pos + k] == b[k] { ByteAt(s, pos, b, k); }
    assert U32(b, 0) == n;
  }
}
