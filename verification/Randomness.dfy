/** The replicate-local random index stream: multiword rejection sampling. */
module Randomness {
  import opened Wrappers
  import opened Counting

  const WORD_LIMIT: nat := 0x1_0000_0000_0000_0000

  /** Exhausted stands for the underlying generator raising instead of returning a word. */
  datatype RandomError = BadBound | BadWord | Exhausted

  /** The outcome of an operation on a word stream and the stream position after it. */
  datatype Draw = Draw(result: Result<nat, RandomError>, next: nat)

  function BitLength(n: nat): nat {
    if n == 0 then 0 else 1 + BitLength(n / 2)
  }

  function WordsPerAttempt(bound: nat): (count: nat)
    requires bound >= 2
    ensures count > 0
  {
    (BitLength(bound - 1) + 63) / 64
  }

  /** Taking the low bits of a block is taking it modulo this power of two. */
  function Mask(bound: nat): (m: nat)
    requires bound >= 2
    ensures m > 0
  {
    PowPositive(2, BitLength(bound - 1));
    Pow(2, BitLength(bound - 1))
  }

  // ---------------------------------------------------------------- specification

  /** Reads count words from position at, most significant first, on top of an accumulated value. */
  function ReadBlock(words: seq<int>, at: nat, count: nat, acc: nat): (d: Draw)
    requires at <= |words|
    ensures at <= d.next <= |words| && (d.result.Ok? ==> d.next == at + count)
    decreases count
  {
    if count == 0 then Draw(Ok(acc), at)
    else if at == |words| then Draw(Err(Exhausted), at)
    else if !(0 <= words[at] < WORD_LIMIT) then Draw(Err(BadWord), at + 1)
    else ReadBlock(words, at + 1, count - 1, acc * WORD_LIMIT + words[at])
  }

  /** Rejection: read whole blocks until one, cut to its low bits, falls below the bound. */
  function Sample(words: seq<int>, at: nat, count: nat, mask: nat, bound: nat): (d: Draw)
    requires at <= |words| && count > 0 && mask > 0
    ensures at <= d.next <= |words|
    decreases |words| - at
  {
    var block := ReadBlock(words, at, count, 0);
    if block.result.Err? then block
    else
      var candidate := block.result.value % mask;
      if candidate < bound then Draw(Ok(candidate), block.next)
      else Sample(words, block.next, count, mask, bound)
  }

  function RandBelow(words: seq<int>, at: nat, bound: int): (d: Draw)
    requires at <= |words|
    ensures at <= d.next <= |words|
  {
    if bound < 1 then Draw(Err(BadBound), at)
    else if bound == 1 then Draw(Ok(0), at)
    else Sample(words, at, WordsPerAttempt(bound), Mask(bound), bound)
  }

  // ---------------------------------------------------------------- the two written versions

  /** A generator returning the words of a fixed script one at a time. */
  class WordSource {
    const script: seq<int>
    var cursor: nat

    ghost predicate Valid() reads this { cursor <= |script| }

    constructor (script: seq<int>)
      ensures Valid() && cursor == 0 && this.script == script
    {
      this.script := script;
      cursor := 0;
    }

    method Next() returns (r: Result<int, RandomError>)
      requires Valid()
      modifies this
      ensures Valid()
      ensures old(cursor) == |script| ==> r == Err(Exhausted) && cursor == old(cursor)
      ensures old(cursor) < |script| ==> r == Ok(script[old(cursor)]) && cursor == old(cursor) + 1
    {
      if cursor == |script| { return Err(Exhausted); }
      r := Ok(script[cursor]);
      cursor := cursor + 1;
    }
  }

  /** The kernel frozen into the random capsule. */
  method CapsuleRandBelow(source: WordSource, bound: int) returns (r: Result<nat, RandomError>)
    requires source.Valid()
    modifies source
    ensures source.Valid()
    ensures Draw(r, source.cursor) == RandBelow(source.script, old(source.cursor), bound)
  {
    if bound < 1 { return Err(BadBound); }
    if bound == 1 { return Ok(0); }
    var count, mask := WordsPerAttempt(bound), Mask(bound);
    ghost var goal := Sample(source.script, source.cursor, count, mask, bound);
    while true
      invariant source.Valid()
      invariant goal == Sample(source.script, source.cursor, count, mask, bound)
      decreases |source.script| - source.cursor
    {
      var candidate: nat := 0;
      ghost var start := source.cursor;
      var i := 0;
      while i < count
        invariant 0 <= i <= count && source.cursor == start + i <= |source.script|
        invariant ReadBlock(source.script, start, count, 0)
               == ReadBlock(source.script, source.cursor, count - i, candidate)
        decreases count - i
      {
        var word := source.Next();
        if word.Err? { return Err(word.error); }
        if word.value < 0 || word.value >= WORD_LIMIT { return Err(BadWord); }
        candidate := candidate * WORD_LIMIT + word.value;
        i := i + 1;
      }
      candidate := candidate % mask;
      if candidate < bound { return Ok(candidate); }
    }
  }

  /** Validates one raw word, as the public sampler does through its own helper. */
  method RequireRaw64Word(source: WordSource) returns (r: Result<nat, RandomError>)
    requires source.Valid()
    modifies source
    ensures source.Valid()
    ensures Draw(r, source.cursor) == ReadBlock(source.script, old(source.cursor), 1, 0)
  {
    var word := source.Next();
    if word.Err? { return Err(word.error); }
    if !(0 <= word.value < WORD_LIMIT) { return Err(BadWord); }
    return Ok(word.value);
  }

  /** The public sampler over any next-word callable. */
  method UniformRandBelow(source: WordSource, bound: int) returns (r: Result<nat, RandomError>)
    requires source.Valid()
    modifies source
    ensures source.Valid()
    ensures Draw(r, source.cursor) == RandBelow(source.script, old(source.cursor), bound)
  {
    if bound < 1 { return Err(BadBound); }
    if bound == 1 { return Ok(0); }
    var count, mask := WordsPerAttempt(bound), Mask(bound);
    ghost var goal := Sample(source.script, source.cursor, count, mask, bound);
    while true
      invariant source.Valid()
      invariant goal == Sample(source.script, source.cursor, count, mask, bound)
      decreases |source.script| - source.cursor
    {
      var candidate: nat := 0;
      ghost var start := source.cursor;
      for i := 0 to count
        invariant source.cursor == start + i <= |source.script|
        invariant ReadBlock(source.script, start, count, 0)
               == ReadBlock(source.script, source.cursor, count - i, candidate)
      {
        var word := RequireRaw64Word(source);
        if word.Err? { return Err(word.error); }
        candidate := candidate * WORD_LIMIT + word.value;
      }
      candidate := candidate % mask;
      if candidate < bound { return Ok(candidate); }
    }
  }

  // ---------------------------------------------------------------- what a draw means

  /** The value of a block, most significant word first. */
  function Value(block: seq<int>): int {
    if block == [] then 0 else Value(block[..|block| - 1]) * WORD_LIMIT + block[|block| - 1]
  }

  predicate IsBlock(block: seq<int>) {
    forall i :: 0 <= i < |block| ==> 0 <= block[i] < WORD_LIMIT
  }

  lemma {:induction false} ValueNat(block: seq<int>)
    requires IsBlock(block)
    ensures Value(block) >= 0
  {
    if block != [] { ValueNat(block[..|block| - 1]); }
  }

  /** A block read succeeds exactly on count valid words, with the block's value. */
  lemma {:induction false} ReadBlockIs(words: seq<int>, from: nat, at: nat, end: nat)
    requires from <= at <= end && at <= |words| && IsBlock(words[from..at])
    ensures Value(words[from..at]) >= 0
    ensures ReadBlock(words, at, end - at, Value(words[from..at])).result.Ok?
       <==> end <= |words| && IsBlock(words[at..end])
    ensures end <= |words| && IsBlock(words[at..end]) ==>
       Value(words[from..end]) >= 0
       && ReadBlock(words, at, end - at, Value(words[from..at])) == Draw(Ok(Value(words[from..end])), end)
    ensures ReadBlock(words, at, end - at, Value(words[from..at])).result != Err(BadBound)
    decreases end - at
  {
    ValueNat(words[from..at]);
    if at < end && at < |words| {
      if 0 <= words[at] < WORD_LIMIT {
        assert words[from..at + 1][..at - from] == words[from..at];
        ReadBlockIs(words, from, at + 1, end);
        if end <= |words| { assert words[at..end] == [words[at]] + words[at + 1..end]; }
      } else if end <= |words| {
        assert words[at..end][0] == words[at];
      }
    }
  }

  predicate BlockAt(words: seq<int>, at: nat, count: nat) {
    at + count <= |words| && IsBlock(words[at..at + count])
  }

  /** From position at, every block before the one at last is cut to a value >= bound, that one to a value below it. */
  predicate FirstAccepted(words: seq<int>, at: nat, last: nat, count: nat, mask: nat, bound: nat)
    requires count > 0 && mask > 0
    decreases last - at
  {
    && BlockAt(words, at, count)
    && if at == last then Value(words[at..at + count]) % mask < bound
       else at < last && Value(words[at..at + count]) % mask >= bound
            && FirstAccepted(words, at + count, last, count, mask, bound)
  }

  /** A draw succeeds exactly when there is such a block; it returns that block, cut, and stops behind it. */
  lemma {:induction false} SampleIsFirstAccepted(
    words: seq<int>, at: nat, count: nat, mask: nat, bound: nat, last: nat)
    requires at <= |words| && count > 0 && mask > 0
    ensures FirstAccepted(words, at, last, count, mask, bound)
       <==> (Sample(words, at, count, mask, bound).result.Ok?
             && Sample(words, at, count, mask, bound).next == last + count)
    ensures FirstAccepted(words, at, last, count, mask, bound) ==>
              Sample(words, at, count, mask, bound).result.value == Value(words[last..last + count]) % mask
    decreases |words| - at
  {
    ReadBlockIs(words, at, at, at + count);
    assert words[at..at] == [];
    if BlockAt(words, at, count) && Value(words[at..at + count]) % mask >= bound {
      SampleIsFirstAccepted(words, at + count, count, mask, bound, last);
      SampleAdvances(words, at + count, count, mask, bound);
    }
  }

  lemma {:induction false} SampleAdvances(words: seq<int>, at: nat, count: nat, mask: nat, bound: nat)
    requires at <= |words| && count > 0 && mask > 0
    ensures Sample(words, at, count, mask, bound).result.Ok? ==>
              Sample(words, at, count, mask, bound).next >= at + count
              && Sample(words, at, count, mask, bound).result.value < bound
    ensures Sample(words, at, count, mask, bound).result != Err(BadBound)
    decreases |words| - at
  {
    ReadBlockIs(words, at, at, at + count);
    assert words[at..at] == [];
    if BlockAt(words, at, count) && Value(words[at..at + count]) % mask >= bound {
      SampleAdvances(words, at + count, count, mask, bound);
    }
  }

  /** A draw is always in range, the bound 1 takes no word, and only a bound below 1 is refused. */
  lemma RandBelowInRange(words: seq<int>, at: nat, bound: int)
    requires at <= |words|
    ensures bound >= 1 && RandBelow(words, at, bound).result.Ok? ==> RandBelow(words, at, bound).result.value < bound
    ensures bound == 1 ==> RandBelow(words, at, bound) == Draw(Ok(0), at)
    ensures bound < 1 <==> RandBelow(words, at, bound).result == Err(BadBound)
  {
    if bound > 1 { SampleAdvances(words, at, WordsPerAttempt(bound), Mask(bound), bound); }
  }
}
