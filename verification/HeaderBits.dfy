/** The header bits an archive member may not carry. */
module HeaderBits {
  import opened Arithmetic
  import opened Counting
  import opened NpzPreflight

  /** The number with these binary digits, the lowest first. */
  function FromBits(bits: seq<bool>): nat {
    if bits == [] then 0 else (if bits[0] then 1 else 0) + 2 * FromBits(bits[1..])
  }

  lemma HalfOf(x: nat, bit: nat, m: nat)
    requires bit < 2 && m > 0
    ensures (bit + 2 * x) / (2 * m) == x / m
  {
    var q, s := x / m, x % m;
    assert x == q * m + s;
    assert bit + 2 * x == q * (2 * m) + (2 * s + bit) by {
      assert q * (2 * m) == 2 * (q * m);
    }
    DivModUnique(bit + 2 * x, 2 * m, q, 2 * s + bit);
  }

  /** Dividing by a power of two drops that many digits. */
  lemma {:induction false} DropBits(bits: seq<bool>, k: nat)
    requires k <= |bits|
    ensures Pow(2, k) > 0 && FromBits(bits) / Pow(2, k) == FromBits(bits[k..])
  {
    if k == 0 {
      assert bits[0..] == bits;
    } else {
      DropBits(bits[1..], k - 1);
      HalfOf(FromBits(bits[1..]), if bits[0] then 1 else 0, Pow(2, k - 1));
      assert bits[1..][k - 1..] == bits[k..];
    }
  }

  lemma BitStands(bits: seq<bool>, k: nat)
    requires k < |bits|
    ensures Pow(2, k) > 0 && (HasBit(FromBits(bits), Pow(2, k)) <==> bits[k])
  {
    DropBits(bits, k);
    assert bits[k..][0] == bits[k];
  }

  lemma FourBits(bits: seq<bool>)
    requires |bits| == 4
    ensures FromBits(bits) % 16 == 4 <==> bits == [false, false, true, false]
  {
    var a, b, c, d := bits[0], bits[1], bits[2], bits[3];
    assert bits == [a, b, c, d];
    assert bits[1..] == [b, c, d] && [b, c, d][1..] == [c, d] && [c, d][1..] == [d];
    assert FromBits([d]) == if d then 1 else 0;
    assert FromBits([c, d]) == (if c then 1 else 0) + 2 * FromBits([d]);
    assert FromBits([b, c, d]) == (if b then 1 else 0) + 2 * FromBits([c, d]);
    assert FromBits(bits) == (if a then 1 else 0) + 2 * FromBits([b, c, d]);
    hide FromBits;
  }

  /** The mask with only digit k set asks for that digit. */
  lemma MaskAsks(bits: seq<bool>, k: nat, mask: nat)
    requires k < |bits| && mask == Pow(2, k)
    ensures mask > 0 && (HasBit(FromBits(bits), mask) <==> bits[k])
  {
    BitStands(bits, k);
  }

  /**
   * A member may be read exactly when it is stored or deflated and neither bit 0, 3, 6 or 13 of its flags nor bit 4
   * of its attributes is set, and the file type in the top four bits of its attributes is not that of a directory.
   */
  lemma KindBits(flags: seq<bool>, compression: nat, attributes: seq<bool>)
    requires |flags| == 16 && |attributes| == 32
    ensures KindAllowed(FromBits(flags), compression, FromBits(attributes))
       <==> !flags[0] && !flags[3] && !flags[6] && !flags[13] && (compression == 0 || compression == 8)
            && !attributes[4] && attributes[28..] != [false, false, true, false]
  {
    hide FromBits;
    MaskAsks(flags, 0, 0x1);
    MaskAsks(flags, 3, 0x8);
    MaskAsks(flags, 6, 0x40);
    MaskAsks(flags, 13, 0x2000);
    MaskAsks(attributes, 4, 0x10);
    DropBits(attributes, 28);
    FourBits(attributes[28..]);
    assert Pow(2, 28) == 0x1000_0000;
  }
}
