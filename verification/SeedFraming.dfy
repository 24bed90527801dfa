/** The framed bytes a replicate's random stream is seeded from, before they are hashed. */
module SeedFraming {
  import opened Wrappers
  import opened Bytes
  import opened Contracts

  const MAX_REPLICATES: int := 1_000_000

  /** "SELCAL-SEED", a zero and a one. */
  const SEED_DOMAIN: seq<Byte> := [0x53, 0x45, 0x4C, 0x43, 0x41, 0x4C, 0x2D, 0x53, 0x45, 0x45, 0x44, 0x00, 0x01]

  /** "null_transform_v1". */
  const STREAM_DOMAIN: seq<Byte> := [0x6E, 0x75, 0x6C, 0x6C, 0x5F, 0x74, 0x72, 0x61, 0x6E, 0x73, 0x66, 0x6F, 0x72,
                                     0x6D, 0x5F, 0x76, 0x31]

  function HexDigit(c: char): (d: nat)
    requires IsHexDigit(c)
    ensures d < 16
  {
    if c <= '9' then (c - '0') as nat else (c - 'a') as nat + 10
  }

  /** The bytes of the digit pairs from the k-th digit on. */
  function FromHex(s: string, k: nat): (bytes: seq<Byte>)
    requires |s| % 2 == 0 && k % 2 == 0 && k <= |s| && forall i :: 0 <= i < |s| ==> IsHexDigit(s[i])
    ensures 2 * |bytes| == |s| - k
    decreases |s| - k
  {
    if k == |s| then [] else [HexDigit(s[k]) * 16 + HexDigit(s[k + 1])] + FromHex(s, k + 2)
  }

  /** The low bytes of an integer, most significant first. */
  function BigEndian(n: nat, width: nat): (bytes: seq<Byte>)
    ensures |bytes| == width
  {
    if width == 0 then [] else BigEndian(n / 256, width - 1) + [n % 256]
  }

  function Preimage(plan: string, replicate: nat): seq<Byte>
    requires IsSha256(plan)
  {
    SEED_DOMAIN + FromHex(plan, 0) + BigEndian(replicate, 8) + BigEndian(|STREAM_DOMAIN|, 2) + STREAM_DOMAIN
  }

  /** The preimage of a replicate of a plan, for arguments in range. */
  function SeedPreimage(plan: string, replicate: int, planned: int): Option<seq<Byte>> {
    if !IsSha256(plan) then None
    else if !(1 <= planned <= MAX_REPLICATES) then None
    else if !(0 <= replicate < planned) then None
    else Some(Preimage(plan, replicate))
  }

  lemma {:induction false} FromHexInjective(a: string, b: string, k: nat)
    requires |a| == |b| && |a| % 2 == 0 && k % 2 == 0 && k <= |a|
    requires forall i :: 0 <= i < |a| ==> IsHexDigit(a[i]) && IsHexDigit(b[i])
    requires FromHex(a, k) == FromHex(b, k)
    ensures a[k..] == b[k..]
    decreases |a| - k
  {
    if k < |a| {
      var x, y := FromHex(a, k), FromHex(b, k);
      assert x[0] == y[0] && x[1..] == y[1..];
      assert HexDigit(a[k]) == HexDigit(b[k]) && HexDigit(a[k + 1]) == HexDigit(b[k + 1]);
      FromHexInjective(a, b, k + 2);
      assert a[k..] == [a[k], a[k + 1]] + a[k + 2..] && b[k..] == [b[k], b[k + 1]] + b[k + 2..];
    }
  }

  function Power256(width: nat): (p: nat)
    ensures p > 0
  {
    if width == 0 then 1 else 256 * Power256(width - 1)
  }

  lemma {:induction false} BigEndianInjective(m: nat, n: nat, width: nat)
    requires m < Power256(width) && n < Power256(width) && BigEndian(m, width) == BigEndian(n, width)
    ensures m == n
  {
    if width > 0 {
      var x, y := BigEndian(m, width), BigEndian(n, width);
      assert x[..width - 1] == BigEndian(m / 256, width - 1) && y[..width - 1] == BigEndian(n / 256, width - 1);
      assert x[width - 1] == m % 256 && y[width - 1] == n % 256;
      BigEndianInjective(m / 256, n / 256, width - 1);
    }
  }

  /** Different replicates, and replicates of different plans, never share a preimage. */
  lemma PreimagesDiffer(plan: string, replicate: int, planned: int, other: string, otherReplicate: int,
                        otherPlanned: int)
    requires SeedPreimage(plan, replicate, planned).Some?
    requires SeedPreimage(plan, replicate, planned) == SeedPreimage(other, otherReplicate, otherPlanned)
    ensures plan == other && replicate == otherReplicate
  {
    var x, y := Preimage(plan, replicate), Preimage(other, otherReplicate);
    assert x[13..45] == FromHex(plan, 0) && y[13..45] == FromHex(other, 0);
    assert x[45..53] == BigEndian(replicate, 8) && y[45..53] == BigEndian(otherReplicate, 8);
    FromHexInjective(plan, other, 0);
    assert plan[0..] == plan && other[0..] == other;
    assert Power256(4) == 256 * (256 * (256 * (256 * Power256(0))));
    assert Power256(8) == 256 * (256 * (256 * (256 * Power256(4))));
    BigEndianInjective(replicate, otherReplicate, 8);
  }
}
