/** The lower binomial tail of the power cap: the probability form and the word count it stands for. */
module BinomialTail {
  import opened Counting

  function RealPow(x: real, e: nat): real {
    if e == 0 then 1.0 else x * RealPow(x, e - 1)
  }

  function Product(a: nat, u: real, v: real): real {
    a as real * u * v
  }

  /** Choose(n, k) p^k q^(n-k). */
  function TailTerm(n: nat, p: real, k: nat): real {
    if k > n then 0.0 else Product(Choose(n, k), RealPow(p, k), RealPow(1.0 - p, n - k))
  }

  function TailTerms(n: nat, p: real, count: nat): (terms: seq<real>)
    ensures |terms| == count && forall k :: 0 <= k < count ==> terms[k] == TailTerm(n, p, k)
  {
    seq(count, k requires 0 <= k < count => TailTerm(n, p, k))
  }

  function RealSum(terms: seq<real>): real {
    if terms == [] then 0.0 else RealSum(terms[..|terms| - 1]) + terms[|terms| - 1]
  }

  /** P(X < count) for X ~ Binomial(trials, p), with the boundary branches of the report. */
  function CdfBelow(count: int, trials: nat, p: real): real {
    if count <= 0 then 0.0
    else if count > trials || p <= 0.0 then 1.0
    else if p >= 1.0 then 0.0
    else
      var sum := RealSum(TailTerms(trials, p, count));
      if sum < 1.0 then sum else 1.0
  }

  lemma {:induction false} RealPowScale(x: real, y: real, e: nat)
    ensures RealPow(x, e) * RealPow(y, e) == RealPow(x * y, e)
  {
    if e > 0 {
      RealPowScale(x, y, e - 1);
      Rearrange4(x, RealPow(x, e - 1), y, RealPow(y, e - 1));
    }
  }

  lemma Rearrange4(a: real, b: real, c: real, d: real)
    ensures (a * b) * (c * d) == (a * c) * (b * d)
  {
    assert (a * b) * (c * d) == a * (b * (c * d)) == a * (c * (b * d));
  }

  lemma {:induction false} RealPowIs(b: nat, e: nat)
    ensures RealPow(b as real, e) == Pow(b, e) as real
  {
    if e > 0 {
      RealPowIs(b, e - 1);
      ProductCast(b, Pow(b, e - 1));
    }
  }

  lemma ProductCast(a: nat, b: nat)
    ensures (a * b) as real == a as real * b as real
  {
  }

  lemma {:induction false} RealPowAdd(x: real, a: nat, b: nat)
    ensures RealPow(x, a) * RealPow(x, b) == RealPow(x, a + b)
  {
    if a > 0 {
      RealPowAdd(x, a - 1, b);
      assert (x * RealPow(x, a - 1)) * RealPow(x, b) == x * (RealPow(x, a - 1) * RealPow(x, b));
    }
  }

  lemma ScaledPow(x: real, s: real, c: nat, e: nat)
    requires x * s == c as real
    ensures RealPow(x, e) * RealPow(s, e) == Pow(c, e) as real
  {
    RealPowScale(x, s, e);
    RealPowIs(c, e);
  }

  lemma ProductCast3(a: nat, b: nat, c: nat)
    ensures (a * b * c) as real == a as real * b as real * c as real
  {
    ProductCast(a, b);
    ProductCast(a * b, c);
  }

  /** If x y = w, u x = g and v y = h then (a u v) w = a g h. */
  lemma ScaleTerm(a: nat, u: real, v: real, x: real, y: real, w: real, g: nat, h: nat)
    requires x * y == w && u * x == g as real && v * y == h as real
    ensures Product(a, u, v) * w == (a * g * h) as real
  {
    var q := a as real;
    Rearrange4(u, v, x, y);
    assert (q * u * v) * w == (q * (u * v)) * (x * y) == q * ((u * v) * (x * y)) == q * (g as real * h as real);
    ProductCast3(a, g, h);
  }

  lemma ShareTimes(c: nat, states: nat)
    requires 0 < states && c <= states
    ensures (c as real / states as real) * states as real == c as real
    ensures (1.0 - c as real / states as real) * states as real == (states - c) as real
  {
  }

  lemma StatesPower(n: nat, states: nat, k: nat)
    requires k <= n
    ensures RealPow(states as real, k) * RealPow(states as real, n - k) == Pow(states, n) as real
  {
    RealPowIs(states, n);
    RealPowAdd(states as real, k, n - k);
  }

  lemma SharePowers(n: nat, c: nat, states: nat, p: real, k: nat)
    requires 0 < states && c <= states && p == c as real / states as real && k <= n
    ensures RealPow(p, k) * RealPow(states as real, k) == Pow(c, k) as real
    ensures RealPow(1.0 - p, n - k) * RealPow(states as real, n - k) == Pow(states - c, n - k) as real
  {
    ShareTimes(c, states);
    ScaledPow(p, states as real, c, k);
    ScaledPow(1.0 - p, states as real, states - c, n - k);
  }

  /** The factors of a tail term and of its word count, with the products that relate them. */
  lemma ShareParts(n: nat, c: nat, states: nat, p: real, k: nat)
    returns (u: real, v: real, x: real, y: real, g: nat, h: nat)
    requires 0 < states && c <= states && p == c as real / states as real && k <= n
    ensures TailTerm(n, p, k) == Product(Choose(n, k), u, v)
    ensures BinomialTerm(n, c, states - c, k) == Choose(n, k) * g * h
    ensures x * y == Pow(states, n) as real && u * x == g as real && v * y == h as real
  {
    u, v, x, y := RealPow(p, k), RealPow(1.0 - p, n - k), RealPow(states as real, k), RealPow(states as real, n - k);
    g, h := Pow(c, k), Pow(states - c, n - k);
    SharePowers(n, c, states, p, k);
    StatesPower(n, states, k);
  }

  /** Each tail term is its word count over states^n. */
  lemma TailTermScaled(n: nat, c: nat, states: nat, p: real, k: nat)
    requires 0 < states && c <= states && p == c as real / states as real && k <= n
    ensures TailTerm(n, p, k) * Pow(states, n) as real == BinomialTerm(n, c, states - c, k) as real
  {
    var u, v, x, y, g, h := ShareParts(n, c, states, p, k);
    ScaleTerm(Choose(n, k), u, v, x, y, Pow(states, n) as real, g, h);
  }

  function NatSum(terms: seq<nat>): nat {
    if terms == [] then 0 else NatSum(terms[..|terms| - 1]) + terms[|terms| - 1]
  }

  function BinomialTerms(n: nat, c: nat, rest: nat, count: nat): (terms: seq<nat>)
    ensures |terms| == count && forall k :: 0 <= k < count ==> terms[k] == BinomialTerm(n, c, rest, k)
  {
    seq(count, k requires 0 <= k < count => BinomialTerm(n, c, rest, k))
  }

  lemma {:induction false} BinomialSumIs(n: nat, c: nat, rest: nat, count: nat)
    ensures BinomialSum(n, c, rest, count) == NatSum(BinomialTerms(n, c, rest, count))
  {
    if count > 0 {
      BinomialSumIs(n, c, rest, count - 1);
      assert BinomialTerms(n, c, rest, count)[..count - 1] == BinomialTerms(n, c, rest, count - 1);
    }
  }

  lemma SumTimes(a: real, b: real, w: real, i: int, j: int)
    requires a * w == i as real && b * w == j as real
    ensures (a + b) * w == (i + j) as real
  {
  }

  lemma {:induction false} SumScaled(terms: seq<real>, counts: seq<nat>, w: real)
    requires |terms| == |counts|
    requires forall k :: 0 <= k < |terms| ==> terms[k] * w == counts[k] as real
    ensures RealSum(terms) * w == NatSum(counts) as real
  {
    if terms != [] {
      var last := |terms| - 1;
      SumScaled(terms[..last], counts[..last], w);
      SumTimes(RealSum(terms[..last]), terms[last], w, NatSum(counts[..last]), counts[last]);
    }
  }

  // ---------------------------------------------------------------- the boundary branches

  lemma {:induction false} SumWithoutHits(n: nat, states: nat, count: nat)
    requires count > 0
    ensures BinomialSum(n, 0, states, count) == Pow(states, n)
  {
    if count > 1 {
      SumWithoutHits(n, states, count - 1);
      assert BinomialTerm(n, 0, states, count - 1) == 0;
    } else {
      assert Choose(n, 0) * Pow(0, 0) * Pow(states, n) == Pow(states, n);
    }
  }

  lemma {:induction false} SumAllHits(n: nat, states: nat, count: nat)
    requires count <= n
    ensures BinomialSum(n, states, 0, count) == 0
  {
    if count > 0 {
      SumAllHits(n, states, count - 1);
      assert Pow(0, n - (count - 1)) == 0;
    }
  }

  lemma {:induction false} SumAtMost(n: nat, c: nat, rest: nat, count: nat)
    requires count <= n + 1
    ensures BinomialSum(n, c, rest, count) <= Pow(c + rest, n)
    decreases n + 1 - count
  {
    if count == n + 1 {
      BinomialTheorem(n, c, rest, count);
    } else {
      SumAtMost(n, c, rest, count + 1);
    }
  }

  lemma ShareBounds(c: nat, states: nat)
    requires 0 < states && c <= states
    ensures c as real / states as real <= 0.0 <==> c == 0
    ensures c as real / states as real >= 1.0 <==> c == states
  {
  }

  lemma TailTermsScaled(count: nat, n: nat, c: nat, states: nat, p: real, w: real)
    requires 0 < states && c <= states && p == c as real / states as real && count <= n
    requires w == Pow(states, n) as real
    ensures forall k :: 0 <= k < count ==>
      TailTerms(n, p, count)[k] * w == BinomialTerms(n, c, states - c, count)[k] as real
  {
    forall k | 0 <= k < count
      ensures TailTerms(n, p, count)[k] * w == BinomialTerms(n, c, states - c, count)[k] as real
    {
      TailTermScaled(n, c, states, p, k);
    }
  }

  lemma TailScaled(count: nat, n: nat, c: nat, rest: nat, p: real, w: real)
    requires forall k :: 0 <= k < count ==> TailTerms(n, p, count)[k] * w == BinomialTerms(n, c, rest, count)[k] as real
    ensures RealSum(TailTerms(n, p, count)) * w == BinomialSum(n, c, rest, count) as real
  {
    SumScaled(TailTerms(n, p, count), BinomialTerms(n, c, rest, count), w);
    BinomialSumIs(n, c, rest, count);
  }

  lemma Capped(sum: real, w: real, total: real)
    requires w > 0.0 && sum * w == total && total <= w
    ensures (if sum < 1.0 then sum else 1.0) * w == total
  {
    if sum >= 1.0 { assert (sum - 1.0) * w >= 0.0; }
  }

  lemma CdfInner(count: nat, n: nat, p: real, w: real, total: real)
    requires 0 < count <= n && 0.0 < p < 1.0
    requires w > 0.0 && RealSum(TailTerms(n, p, count)) * w == total && total <= w
    ensures CdfBelow(count, n, p) * w == total
  {
    Capped(RealSum(TailTerms(n, p, count)), w, total);
  }

  lemma InnerTail(count: nat, n: nat, c: nat, states: nat, p: real, w: real)
    requires 0 < c < states && p == c as real / states as real && 0 < count <= n && w == Pow(states, n) as real
    ensures RealSum(TailTerms(n, p, count)) * w == BinomialSum(n, c, states - c, count) as real
    ensures BinomialSum(n, c, states - c, count) as real <= w && w > 0.0
  {
    TailTermsScaled(count, n, c, states, p, w);
    TailScaled(count, n, c, states - c, p, w);
    SumAtMost(n, c, states - c, count);
    PowPositive(states, n);
  }

  /** The cap times the number of draw sequences counts the sequences with fewer than count hits. */
  lemma CdfBelowCounts(count: int, n: nat, c: nat, states: nat)
    requires 0 < states && c <= states
    ensures CdfBelow(count, n, c as real / states as real) * Pow(states, n) as real
         == BinomialSum(n, c, states - c, if count <= 0 then 0 else count) as real
  {
    ShareBounds(c, states);
    if count <= 0 {
    } else if count > n {
      BinomialTheorem(n, c, states - c, count);
    } else if c == 0 {
      SumWithoutHits(n, states, count);
    } else if c == states {
      SumAllHits(n, states, count);
    } else {
      var p, w := c as real / states as real, Pow(states, n) as real;
      InnerTail(count, n, c, states, p, w);
      CdfInner(count, n, p, w, BinomialSum(n, c, states - c, count) as real);
    }
  }
}
