/** What one draw below a bound reads and returns, told without the sampler's own helpers. */
module RandomDraws {
  import opened Wrappers
  import opened Counting
  import opened Randomness
  import opened RandomUniform

  /** The bound needs exactly this many bits: bound - 1 has its highest bit at position bits - 1. */
  predicate NeedsBits(bound: nat, bits: nat) {
    bits > 0 && Pow(2, bits - 1) < bound <= Pow(2, bits)
  }

  /** And these bits fill all of count words but not one word less. */
  predicate NeedsWords(bits: nat, count: nat) {
    count > 0 && 64 * (count - 1) < bits <= 64 * count
  }

  lemma {:induction false} PowIncreases(a: nat, b: nat)
    requires a < b
    ensures Pow(2, a) < Pow(2, b)
    decreases b
  {
    PowPositive(2, b - 1);
    if a < b - 1 { PowIncreases(a, b - 1); }
  }

  lemma BitsAre(bound: nat, bits: nat)
    requires bound >= 2
    ensures NeedsBits(bound, bits) <==> bits == BitLength(bound - 1)
  {
    var length := BitLength(bound - 1);
    BitLengthBounds(bound - 1);
    if bits < length && bits < length - 1 { PowIncreases(bits, length - 1); }
    if length < bits && length < bits - 1 { PowIncreases(length, bits - 1); }
  }

  /** An attempt reads the least number of words that can hold every value below the bound. */
  lemma AttemptIsLeast(bound: nat)
    requires bound >= 2
    ensures NeedsWords(BitLength(bound - 1), WordsPerAttempt(bound))
    ensures bound <= Pow(2, 64 * WordsPerAttempt(bound))
    ensures WordsPerAttempt(bound) > 1 ==> Pow(2, 64 * (WordsPerAttempt(bound) - 1)) < bound
  {
    var bits, count := BitLength(bound - 1), WordsPerAttempt(bound);
    BitLengthBounds(bound - 1);
    if bits < 64 * count { PowIncreases(bits, 64 * count); }
    if 64 * (count - 1) < bits - 1 { PowIncreases(64 * (count - 1), bits - 1); }
  }

  lemma WordsAreUnique(bits: nat, a: nat, b: nat)
    requires NeedsWords(bits, a) && NeedsWords(bits, b)
    ensures a == b
  {
  }

  /** One attempt of the rejection loop. */
  lemma SampleStep(words: seq<int>, at: nat, count: nat, mask: nat, bound: nat)
    requires at <= |words| && count > 0 && mask > 0
    ensures BlockAt(words, at, count) ==>
      var kept := Value(words[at..at + count]) % mask;
      Sample(words, at, count, mask, bound)
        == if kept < bound then Draw(Ok(kept), at + count) else Sample(words, at + count, count, mask, bound)
    ensures !BlockAt(words, at, count) ==> Sample(words, at, count, mask, bound).result.Err?
  {
    ReadBlockIs(words, at, at, at + count);
    assert words[at..at] == [];
  }

  lemma BoundOfBits(bound: nat, bits: nat, count: nat)
    requires bound >= 2 && NeedsBits(bound, bits) && NeedsWords(bits, count)
    ensures WordsPerAttempt(bound) == count && Mask(bound) == Pow(2, bits) > 0
  {
    BitsAre(bound, bits);
    AttemptIsLeast(bound);
    WordsAreUnique(bits, count, WordsPerAttempt(bound));
  }

  /**
   * One attempt of a draw: it reads the words its bound needs, keeps the low bits the bound needs, returns them when
   * they fall below the bound and starts again behind the block when they do not.
   */
  lemma DrawIs(words: seq<int>, at: nat, bound: nat, bits: nat, count: nat)
    requires at <= |words| && bound >= 2 && NeedsBits(bound, bits) && NeedsWords(bits, count)
    ensures Pow(2, bits) > 0
    ensures BlockAt(words, at, count) ==>
      var kept := Value(words[at..at + count]) % Pow(2, bits);
      RandBelow(words, at, bound)
        == if kept < bound then Draw(Ok(kept), at + count) else RandBelow(words, at + count, bound)
    ensures !BlockAt(words, at, count) ==> RandBelow(words, at, bound).result.Err?
  {
    BoundOfBits(bound, bits, count);
    SampleStep(words, at, count, Mask(bound), bound);
  }

  /** For every bound up to 2^64 one word decides: its low bits are the draw when they fall below the bound. */
  lemma OneWordDraw(words: seq<int>, at: nat, bound: nat, bits: nat)
    requires at < |words| && 0 <= words[at] < 0x1_0000_0000_0000_0000
    requires 2 <= bound <= 0x1_0000_0000_0000_0000 && NeedsBits(bound, bits)
    ensures Pow(2, bits) > 0
    ensures RandBelow(words, at, bound)
         == if words[at] % Pow(2, bits) < bound then Draw(Ok(words[at] % Pow(2, bits)), at + 1)
            else RandBelow(words, at + 1, bound)
  {
    WordLimitIsPower();
    if bits > 64 {
      if 64 < bits - 1 { PowIncreases(64, bits - 1); }
      assert false;
    }
    var block := words[at..at + 1];
    assert block == [words[at]] && block[..0] == [];
    assert Value(block) == words[at];
    DrawIs(words, at, bound, bits, 1);
  }
}
