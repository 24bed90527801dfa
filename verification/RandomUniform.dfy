/** Rejection sampling is unbiased: every accepted value has the same number of preimages. */
module RandomUniform {
  import opened Arithmetic
  import opened Counting
  import opened Randomness

  /** The blocks of one attempt: all words of the given length over 64-bit letters. */
  ghost function Blocks(count: nat): set<seq<nat>> {
    Words(count, Letters(WORD_LIMIT))
  }

  ghost function BlocksGiving(count: nat, mask: nat, v: nat): set<seq<nat>>
    requires mask > 0
  {
    set b | b in Blocks(count) && Value(b) % mask == v
  }

  ghost function BlocksBelow(count: nat, mask: nat, bound: nat): set<seq<nat>>
    requires mask > 0
  {
    set b | b in Blocks(count) && Value(b) % mask < bound
  }

  // ---------------------------------------------------------------- blocks are numbers

  function Digits(x: nat, count: nat): (d: seq<nat>)
    ensures |d| == count && IsBlock(d)
  {
    if count == 0 then [] else Digits(x / WORD_LIMIT, count - 1) + [x % WORD_LIMIT]
  }

  lemma LettersBelow(limit: nat, letters: set<nat>, b: seq<nat>)
    requires letters == Letters(limit)
    ensures (forall i :: 0 <= i < |b| ==> b[i] in letters) <==> forall i :: 0 <= i < |b| ==> b[i] < limit
  {
  }

  lemma BlocksAre(count: nat, b: seq<nat>)
    ensures b in Blocks(count) <==> |b| == count && IsBlock(b)
  {
    var letters := Letters(WORD_LIMIT);
    WordsAre(count, letters, b);
    LettersBelow(WORD_LIMIT, letters, b);
  }

  lemma {:induction false} ValueOfDigits(x: nat, count: nat)
    requires x < Pow(WORD_LIMIT, count)
    ensures Value(Digits(x, count)) == x
  {
    if count > 0 {
      var d := Digits(x, count);
      assert d[..count - 1] == Digits(x / WORD_LIMIT, count - 1);
      assert x / WORD_LIMIT < Pow(WORD_LIMIT, count - 1);
      ValueOfDigits(x / WORD_LIMIT, count - 1);
    }
  }

  lemma {:induction false} ValueBelow(b: seq<nat>)
    requires IsBlock(b)
    ensures 0 <= Value(b) < Pow(WORD_LIMIT, |b|)
  {
    if b != [] {
      ValueBelow(b[..|b| - 1]);
    }
  }

  lemma {:induction false} DigitsOfValue(b: seq<nat>)
    requires IsBlock(b)
    ensures Value(b) >= 0 && Digits(Value(b), |b|) == b
  {
    ValueBelow(b);
    if b != [] {
      var init := b[..|b| - 1];
      DigitsOfValue(init);
      ValueBelow(init);
      assert Value(b) / WORD_LIMIT == Value(init) && Value(b) % WORD_LIMIT == b[|b| - 1];
      assert b == init + [b[|b| - 1]];
    }
  }

  /** Blocks and the numbers below WORD_LIMIT^count correspond one to one. */
  lemma BlocksAsNumbers(count: nat, bs: set<seq<nat>>, xs: set<int>)
    requires bs <= Blocks(count) && xs <= Range(0, Pow(WORD_LIMIT, count))
    requires forall b :: b in Blocks(count) ==> (b in bs <==> Value(b) in xs)
    ensures |bs| == |xs|
  {
    forall b | b in bs ensures Value(b) >= 0 && Digits(Value(b), count) == b {
      BlocksAre(count, b);
      DigitsOfValue(b);
    }
    InjectionSize(bs, xs, (b: seq<nat>) => Value(b));
    NumbersAsBlocks(count, bs, xs);
  }

  lemma NumbersAsBlocks(count: nat, bs: set<seq<nat>>, xs: set<int>)
    requires xs <= Range(0, Pow(WORD_LIMIT, count))
    requires forall b :: b in Blocks(count) ==> (b in bs <==> Value(b) in xs)
    ensures |xs| <= |bs|
  {
    var toBlock := (x: int) => if x >= 0 then Digits(x, count) else [];
    forall x | x in xs ensures toBlock(x) in bs && Value(toBlock(x)) == x {
      ValueOfDigits(x, count);
      BlocksAre(count, Digits(x, count));
    }
    InjectionSize(xs, bs, toBlock);
  }

  // ---------------------------------------------------------------- residues

  ghost function ResidueBelow(total: nat, m: nat, bound: nat): set<int>
    requires m > 0
  {
    set x | x in Range(0, total) && x % m < bound
  }

  lemma ResiduesOfNone(m: nat, bound: nat)
    requires m > 0
    ensures |ResidueBelow(0, m, bound)| == 0
  {
    assert ResidueBelow(0, m, bound) == {};
  }

  /** Each full row of m numbers holds exactly bound residues below bound. */
  lemma {:induction false} ResidueBelowRows(rows: nat, m: nat, bound: nat)
    requires 0 < m && bound <= m
    ensures |ResidueBelow(Times(rows, m), m, bound)| == Times(rows, bound)
  {
    if rows == 0 {
      ResiduesOfNone(m, bound);
    } else {
      ResidueBelowRows(rows - 1, m, bound);
      TimesIs(rows - 1, m);
      ResidueRow(Times(rows - 1, m), rows - 1, m, bound);
    }
  }

  lemma ResidueBelowSize(rows: nat, m: nat, bound: nat)
    requires 0 < m && bound <= m
    ensures |ResidueBelow(rows * m, m, bound)| == rows * bound
  {
    ResidueBelowRows(rows, m, bound);
    TimesIs(rows, m);
    TimesIs(rows, bound);
  }

  lemma ResidueRow(start: nat, row: nat, m: nat, bound: nat)
    requires 0 < m && bound <= m && start == row * m
    ensures |ResidueBelow(start + m, m, bound)| == |ResidueBelow(start, m, bound)| + bound
  {
    forall x | start <= x < start + m ensures x % m == x - start {
      DivModUnique(x, m, row, x - start);
    }
    var extra := Range(start, start + bound);
    assert ResidueBelow(start + m, m, bound) == ResidueBelow(start, m, bound) + extra;
    DisjointUnionSize(ResidueBelow(start, m, bound), extra);
  }

  ghost function ResidueAt(total: nat, m: nat, v: nat): set<int>
    requires m > 0
  {
    set x | x in Range(0, total) && x % m == v
  }

  lemma ResidueAtSize(rows: nat, m: nat, v: nat)
    requires v < m
    ensures |ResidueAt(rows * m, m, v)| == rows
  {
    ResidueBelowSize(rows, m, v);
    ResidueBelowSize(rows, m, v + 1);
    MulSucc(v, rows);
    assert ResidueBelow(rows * m, m, v + 1) == ResidueBelow(rows * m, m, v) + ResidueAt(rows * m, m, v);
    DisjointUnionSize(ResidueBelow(rows * m, m, v), ResidueAt(rows * m, m, v));
  }

  // ---------------------------------------------------------------- the theorems

  lemma {:induction false} BitLengthBounds(n: nat)
    ensures n < Pow(2, BitLength(n))
    ensures n > 0 ==> BitLength(n) > 0 && Pow(2, BitLength(n) - 1) <= n
  {
    if n > 0 {
      BitLengthBounds(n / 2);
      assert Pow(2, BitLength(n)) == 2 * Pow(2, BitLength(n / 2));
      if n / 2 > 0 {
        assert Pow(2, BitLength(n / 2)) == 2 * Pow(2, BitLength(n / 2) - 1);
      }
    }
  }

  lemma WordLimitIsPower()
    ensures WORD_LIMIT == Pow(2, 64)
  {
    assert Pow(2, 2) == 2 * Pow(2, 1) == 4;
    PowAdd(2, 2, 2);
    PowAdd(2, 4, 4);
    PowAdd(2, 8, 8);
    PowAdd(2, 16, 16);
    PowAdd(2, 32, 32);
  }

  lemma {:induction false} PowPow(b: nat, x: nat, y: nat)
    ensures Pow(Pow(b, x), y) == Pow(b, x * y)
  {
    if y > 0 {
      PowPow(b, x, y - 1);
      assert x * y == x + x * (y - 1);
      PowAdd(b, x, x * (y - 1));
    }
  }

  /** The attempt always draws at least as many bits as it keeps. */
  lemma AttemptCoversMask(bound: nat)
    requires bound >= 2
    ensures BitLength(bound - 1) <= 64 * WordsPerAttempt(bound)
    ensures Pow(WORD_LIMIT, WordsPerAttempt(bound))
         == Pow(2, 64 * WordsPerAttempt(bound) - BitLength(bound - 1)) * Mask(bound)
  {
    var bits, count := BitLength(bound - 1), WordsPerAttempt(bound);
    WordLimitIsPower();
    PowPow(2, 64, count);
    PowAdd(2, 64 * count - bits, bits);
  }

  /** Exactly 2^(64w - bits) blocks give each value below the bound. */
  lemma EveryValueEquallyLikely(bound: nat, v: nat)
    requires v < bound && bound >= 2
    ensures BitLength(bound - 1) <= 64 * WordsPerAttempt(bound)
    ensures |BlocksGiving(WordsPerAttempt(bound), Mask(bound), v)|
         == Pow(2, 64 * WordsPerAttempt(bound) - BitLength(bound - 1))
  {
    AttemptCoversMask(bound);
    BitLengthBounds(bound - 1);
    GivingSize(WordsPerAttempt(bound), Pow(2, 64 * WordsPerAttempt(bound) - BitLength(bound - 1)), Mask(bound), v);
  }

  lemma GivingMember(count: nat, total: nat, m: nat, v: nat, b: seq<nat>)
    requires 0 < m && total == Pow(WORD_LIMIT, count) && b in Blocks(count)
    ensures b in BlocksGiving(count, m, v) <==> Value(b) in ResidueAt(total, m, v)
  {
    BlocksAre(count, b);
    ValueBelow(b);
  }

  lemma BelowMember(count: nat, total: nat, m: nat, bound: nat, b: seq<nat>)
    requires 0 < m && total == Pow(WORD_LIMIT, count) && b in Blocks(count)
    ensures b in BlocksBelow(count, m, bound) <==> Value(b) in ResidueBelow(total, m, bound)
  {
    BlocksAre(count, b);
    ValueBelow(b);
  }

  lemma GivingAsResidues(count: nat, total: nat, m: nat, v: nat)
    requires 0 < m && total == Pow(WORD_LIMIT, count)
    ensures |BlocksGiving(count, m, v)| == |ResidueAt(total, m, v)|
  {
    forall b | b in Blocks(count) ensures b in BlocksGiving(count, m, v) <==> Value(b) in ResidueAt(total, m, v) {
      GivingMember(count, total, m, v, b);
    }
    BlocksAsNumbers(count, BlocksGiving(count, m, v), ResidueAt(total, m, v));
  }

  lemma BelowAsResidues(count: nat, total: nat, m: nat, bound: nat)
    requires 0 < m && total == Pow(WORD_LIMIT, count)
    ensures |BlocksBelow(count, m, bound)| == |ResidueBelow(total, m, bound)|
  {
    forall b | b in Blocks(count)
      ensures b in BlocksBelow(count, m, bound) <==> Value(b) in ResidueBelow(total, m, bound)
    {
      BelowMember(count, total, m, bound, b);
    }
    BlocksAsNumbers(count, BlocksBelow(count, m, bound), ResidueBelow(total, m, bound));
  }

  lemma GivingSize(count: nat, rows: nat, m: nat, v: nat)
    requires v < m && Pow(WORD_LIMIT, count) == rows * m
    ensures |BlocksGiving(count, m, v)| == rows
  {
    ResidueAtSize(rows, m, v);
    GivingAsResidues(count, rows * m, m, v);
  }

  lemma BelowSize(count: nat, rows: nat, m: nat, bound: nat)
    requires 0 < m && bound <= m && Pow(WORD_LIMIT, count) == rows * m
    ensures |BlocksBelow(count, m, bound)| == rows * bound
  {
    ResidueBelowSize(rows, m, bound);
    BelowAsResidues(count, rows * m, m, bound);
  }

  /** More than half of all blocks are accepted, so an attempt is rejected with probability below one half. */
  lemma MoreThanHalfAccepted(bound: nat)
    requires bound >= 2
    ensures 2 * |BlocksBelow(WordsPerAttempt(bound), Mask(bound), bound)| > |Blocks(WordsPerAttempt(bound))|
  {
    var count, m := WordsPerAttempt(bound), Mask(bound);
    AttemptCoversMask(bound);
    BitLengthBounds(bound - 1);
    var free := 64 * count - BitLength(bound - 1);
    PowPositive(2, free);
    BelowSize(count, Pow(2, free), m, bound);
    WordsSize(count, Letters(WORD_LIMIT));
    ScaledHalf(Pow(2, free), m, bound);
  }

  lemma ScaledHalf(p: nat, m: nat, bound: nat)
    requires p > 0 && 2 * bound > m
    ensures 2 * (p * bound) > p * m
  {
    MulMonotone(m + 1, 2 * bound, p);
  }
}
