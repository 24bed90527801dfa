/** The seed preimage, byte by byte. */
module SeedLayout {
  import opened Bytes
  import opened Contracts
  import opened SeedFraming

  const DIGITS := "0123456789abcdef"

  lemma PairSplits(high: nat, low: nat)
    requires low < 16
    ensures (high * 16 + low) / 16 == high && (high * 16 + low) % 16 == low
  {
  }

  lemma FirstByte(s: string, k: nat)
    requires |s| % 2 == 0 && k % 2 == 0 && k < |s| && forall j :: 0 <= j < |s| ==> IsHexDigit(s[j])
    ensures FromHex(s, k)[0] / 16 == HexDigit(s[k]) && FromHex(s, k)[0] % 16 == HexDigit(s[k + 1])
  {
    PairSplits(HexDigit(s[k]), HexDigit(s[k + 1]));
    hide HexDigit;
  }

  /** Each byte is the pair of hexadecimal digits at twice its place. */
  lemma {:induction false} HexByte(s: string, k: nat, i: nat)
    requires |s| % 2 == 0 && k % 2 == 0 && k + 2 * i < |s| && forall j :: 0 <= j < |s| ==> IsHexDigit(s[j])
    ensures var b := FromHex(s, k)[i]; DIGITS[b / 16] == s[k + 2 * i] && DIGITS[b % 16] == s[k + 2 * i + 1]
    decreases i
  {
    hide HexDigit, IsHexDigit;
    if i > 0 {
      HexByte(s, k + 2, i - 1);
      assert FromHex(s, k)[i] == FromHex(s, k + 2)[i - 1];
    } else {
      FirstByte(s, k);
      HexDigits(s[k]);
      HexDigits(s[k + 1]);
    }
  }

  lemma HexDigits(c: char)
    requires IsHexDigit(c)
    ensures DIGITS[HexDigit(c)] == c
  {
    if c <= '9' { DecimalDigit(c); } else { LetterDigit(c); }
  }

  /** The digits are these sixteen characters. */
  lemma DigitIff(c: char)
    ensures IsHexDigit(c) <==> c in DIGITS
  {
    if IsHexDigit(c) { HexDigits(c); }
  }

  lemma DigestIff(s: string)
    ensures IsSha256(s) <==> |s| == 64 && forall i :: 0 <= i < |s| ==> s[i] in DIGITS
  {
    forall i | 0 <= i < |s| ensures IsHexDigit(s[i]) <==> s[i] in DIGITS { DigitIff(s[i]); }
  }

  lemma DecimalDigit(c: char)
    requires '0' <= c <= '9'
    ensures DIGITS[HexDigit(c)] == c
  {
    assert c in "0123456789";
  }

  lemma LetterDigit(c: char)
    requires 'a' <= c <= 'f'
    ensures DIGITS[HexDigit(c)] == c
  {
    assert c in "abcdef";
  }

  /** The value of bytes with the most significant first. */
  function Value(bytes: seq<Byte>): nat {
    if bytes == [] then 0 else 256 * Value(bytes[..|bytes| - 1]) + bytes[|bytes| - 1] as int
  }

  lemma {:induction false} BigEndianValue(n: nat, width: nat)
    requires n < Power256(width)
    ensures Value(BigEndian(n, width)) == n
  {
    if width > 0 {
      BigEndianValue(n / 256, width - 1);
      assert BigEndian(n, width)[..width - 1] == BigEndian(n / 256, width - 1);
    }
  }

  lemma Domains()
    ensures SEED_DOMAIN == Ascii("SELCAL-SEED") + [0, 1] && STREAM_DOMAIN == Ascii("null_transform_v1")
  {
    assert Ascii("SELCAL-SEED") == [0x53, 0x45, 0x4C, 0x43, 0x41, 0x4C, 0x2D, 0x53, 0x45, 0x45, 0x44];
    assert Ascii("null_transform_v1")
      == [0x6E, 0x75, 0x6C, 0x6C, 0x5F, 0x74, 0x72, 0x61, 0x6E, 0x73, 0x66, 0x6F, 0x72, 0x6D, 0x5F, 0x76, 0x31];
  }

  /** The five parts of a preimage. */
  predicate IsPreimage(bytes: seq<Byte>, plan: string, replicate: nat)
    requires |plan| == 64
  {
    && |bytes| == 72
    && bytes[..13] == Ascii("SELCAL-SEED") + [0, 1]
    && (forall i :: 0 <= i < 32 ==>
          DIGITS[bytes[13 + i] / 16] == plan[2 * i] && DIGITS[bytes[13 + i] % 16] == plan[2 * i + 1])
    && Value(bytes[45..53]) == replicate && Value(bytes[53..55]) == |Ascii("null_transform_v1")|
    && bytes[55..] == Ascii("null_transform_v1")
  }

  lemma PlanBytes(bytes: seq<Byte>, plan: string, i: nat)
    requires IsSha256(plan) && i < 32 && |bytes| == 72 && bytes[13..45] == FromHex(plan, 0)
    ensures DIGITS[bytes[13 + i] / 16] == plan[2 * i] && DIGITS[bytes[13 + i] % 16] == plan[2 * i + 1]
  {
    HexByte(plan, 0, i);
    assert bytes[13..45][i] == bytes[13 + i];
  }

  lemma Parts(plan: string, replicate: nat)
    requires IsSha256(plan)
    ensures var bytes := Preimage(plan, replicate);
      && |bytes| == 72 && bytes[..13] == SEED_DOMAIN && bytes[13..45] == FromHex(plan, 0)
      && bytes[45..53] == BigEndian(replicate, 8) && bytes[53..55] == BigEndian(17, 2) && bytes[55..] == STREAM_DOMAIN
  {
    hide BigEndian, FromHex;
  }

  lemma Widths()
    ensures Power256(2) == 65_536 && Power256(8) > 1_000_000
  {
    assert Power256(4) == 256 * (256 * (256 * (256 * Power256(0))));
    assert Power256(8) == 256 * (256 * (256 * (256 * Power256(4))));
    assert Power256(2) == 256 * (256 * Power256(0));
  }

  /**
   * A replicate is seeded exactly when its number lies below the planned count and that count within one and a
   * million, and then from these bytes: the domain, the plan digest, the number, and the name of the stream.
   */
  lemma SeededFrom(plan: string, replicate: int, planned: int)
    ensures SeedPreimage(plan, replicate, planned).Some?
       <==> |plan| == 64 && (forall i :: 0 <= i < 64 ==> plan[i] in DIGITS) && 0 <= replicate < planned <= 1_000_000
    ensures SeedPreimage(plan, replicate, planned).Some? ==>
      IsPreimage(SeedPreimage(plan, replicate, planned).value, plan, replicate)
  {
    DigestIff(plan);
    if SeedPreimage(plan, replicate, planned).Some? {
      var bytes := Preimage(plan, replicate);
      hide Preimage, FromHex, BigEndian, Value, Power256;
      Domains();
      Widths();
      Parts(plan, replicate);
      BigEndianValue(replicate, 8);
      BigEndianValue(17, 2);
      forall i | 0 <= i < 32
        ensures DIGITS[bytes[13 + i] / 16] == plan[2 * i] && DIGITS[bytes[13 + i] % 16] == plan[2 * i + 1]
      {
        PlanBytes(bytes, plan, i);
      }
    }
  }
}
