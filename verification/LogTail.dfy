/** The binomial tail as the report evaluates it, in log space, and the exact tail it stands for. */
module LogTail {
  import opened Counting
  import opened BinomialTail

  // ---------------------------------------------------------------- logarithms

  /** Exponential, logarithm and log-gamma without rounding. */
  datatype Logs = Logs(exp: real -> real, log: real -> real, lgamma: int -> real) {
    ghost predicate Sound() {
      && (forall a: real, b: real :: Adds(a, b))
      && (forall x: real :: x > 0.0 ==> exp(log(x)) == x)
      && (forall k: nat :: exp(lgamma(k + 1)) == Factorial(k) as real)
    }

    ghost predicate Adds(a: real, b: real) {
      exp(a + b) == exp(a) * exp(b)
    }
  }

  lemma ExpSum(logs: Logs, a: real, b: real)
    requires logs.Sound()
    ensures logs.exp(a + b) == logs.exp(a) * logs.exp(b)
  {
    assert logs.Adds(a, b);
  }

  lemma ExpZero(logs: Logs)
    requires logs.Sound()
    ensures logs.exp(0.0) == 1.0
  {
    ExpSum(logs, logs.log(1.0), 0.0);
    assert logs.exp(logs.log(1.0)) == 1.0;
  }

  function Multiple(k: nat, x: real): real {
    k as real * x
  }

  lemma NextMultiple(k: nat, x: real)
    ensures Multiple(0, x) == 0.0 && Multiple(k + 1, x) == Multiple(k, x) + x
  {
  }

  /** exp(k log x) is the k-th power of x. */
  lemma {:induction false} ExpPower(logs: Logs, x: real, k: nat)
    requires logs.Sound() && x > 0.0
    ensures logs.exp(Multiple(k, logs.log(x))) == RealPow(x, k)
  {
    var l := logs.log(x);
    if k == 0 {
      ExpZero(logs);
      NextMultiple(0, l);
    } else {
      var before, all := Multiple(k - 1, l), Multiple(k, l);
      ExpPower(logs, x, k - 1);
      NextMultiple(k - 1, l);
      ExpSum(logs, before, l);
      assert all == before + l;
      assert logs.exp(all) == logs.exp(before) * x;
    }
  }

  // ---------------------------------------------------------------- binomial coefficients

  lemma PullFactor(a: nat, k: nat, f: nat, g: nat)
    ensures a * ((k * f) * g) == k * (a * (f * g)) && a * (f * (k * g)) == k * (a * (f * g))
  {
    assert a * ((k * f) * g) == a * (k * (f * g)) == k * (a * (f * g));
    assert f * (k * g) == k * (f * g);
  }

  lemma {:induction false} ChooseFactorials(n: nat, k: nat)
    requires k <= n
    ensures Choose(n, k) * (Factorial(k) * Factorial(n - k)) == Factorial(n)
  {
    if 0 < k < n {
      ChooseFactorials(n - 1, k - 1);
      ChooseFactorials(n - 1, k);
      PascalStep(n, k, Choose(n - 1, k - 1), Choose(n - 1, k), Factorial(k - 1), Factorial(n - k - 1),
                 Factorial(n - 1));
    } else if k == n {
      ChooseAll(n);
    }
  }

  lemma {:induction false} ChooseAll(n: nat)
    ensures Choose(n, n) == 1
  {
    if n > 0 {
      ChooseAll(n - 1);
      ChooseOutside(n - 1, n);
    }
  }

  /** Pascal's rule, multiplied by the factorials. */
  lemma PascalStep(n: nat, k: nat, a: nat, b: nat, f: nat, g: nat, h: nat)
    requires 0 < k < n && a * (f * ((n - k) * g)) == h && b * ((k * f) * g) == h
    ensures (a + b) * ((k * f) * ((n - k) * g)) == n * h
  {
    var m := n - k;
    PullFactor(a, k, f, m * g);
    PullFactor(b, m, k * f, g);
    var w := (k * f) * (m * g);
    assert a * w == k * h;
    assert b * w == m * h;
    assert (a + b) * w == a * w + b * w;
  }

  // ---------------------------------------------------------------- one term

  /** log C(trials, k) + k log p + (trials - k) log (1 - p). */
  function LogTerm(logs: Logs, trials: nat, p: real, k: nat): real
    requires k <= trials
  {
    logs.lgamma(trials + 1) - logs.lgamma(k + 1) - logs.lgamma(trials - k + 1)
    + Multiple(k, logs.log(p)) + Multiple(trials - k, logs.log(1.0 - p))
  }

  lemma Cancel(x: real, y: real, z: real)
    requires z > 0.0 && x * z == y * z
    ensures x == y
  {
    assert (x - y) * z == 0.0;
  }

  /** exp of a - b - c + u + v, multiplied by exp(b) and exp(c). */
  lemma ExpTerm(
    logs: Logs, t: real, a: real, b: real, c: real, u: real, v: real, fa: nat, fb: nat, fc: nat, pu: real, pv: real)
    requires logs.Sound() && t == a - b - c + u + v && logs.exp(u) == pu && logs.exp(v) == pv
    requires logs.exp(a) == fa as real && logs.exp(b) == fb as real && logs.exp(c) == fc as real
    ensures logs.exp(t) * (fb as real * fc as real) == fa as real * (pu * pv)
  {
    ExpSum(logs, b, c);
    ExpSum(logs, u, v);
    ExpSum(logs, a, u + v);
    ExpSum(logs, t, b + c);
    assert t + (b + c) == a + (u + v);
  }

  lemma TermFactors(x: real, choose: nat, a: nat, b: nat, c: nat, u: real, v: real)
    requires b > 0 && c > 0 && choose * (b * c) == a
    requires x * (b as real * c as real) == a as real * (u * v)
    ensures x == Product(choose, u, v)
  {
    var z, w, q := b as real * c as real, u * v, choose as real;
    ProductCast(b, c);
    ProductCast(choose, b * c);
    assert a as real == q * z;
    assert (q * w) * z == (q * z) * w;
    Cancel(x, q * w, z);
  }

  lemma ExpProduct(
    logs: Logs, t: real, a: real, b: real, c: real, u: real, v: real, fa: nat, fb: nat, fc: nat, pu: real, pv: real,
    choose: nat)
    requires logs.Sound() && t == a - b - c + u + v && logs.exp(u) == pu && logs.exp(v) == pv
    requires logs.exp(a) == fa as real && logs.exp(b) == fb as real && logs.exp(c) == fc as real
    requires fb > 0 && fc > 0 && choose * (fb * fc) == fa
    ensures logs.exp(t) == Product(choose, pu, pv)
  {
    ExpTerm(logs, t, a, b, c, u, v, fa, fb, fc, pu, pv);
    TermFactors(logs.exp(t), choose, fa, fb, fc, pu, pv);
  }

  lemma GammaIs(logs: Logs, k: nat)
    requires logs.Sound()
    ensures logs.exp(logs.lgamma(k + 1)) == Factorial(k) as real
  {
  }

  lemma LogTermParts(logs: Logs, trials: nat, p: real, k: nat) returns (u: real, v: real)
    requires logs.Sound() && 0.0 < p < 1.0 && k <= trials
    ensures logs.exp(u) == RealPow(p, k) && logs.exp(v) == RealPow(1.0 - p, trials - k)
    ensures LogTerm(logs, trials, p, k)
         == logs.lgamma(trials + 1) - logs.lgamma(k + 1) - logs.lgamma(trials - k + 1) + u + v
  {
    u, v := Multiple(k, logs.log(p)), Multiple(trials - k, logs.log(1.0 - p));
    ExpPower(logs, p, k);
    ExpPower(logs, 1.0 - p, trials - k);
  }

  /** The exponential of a log term is the term of the exact tail. */
  lemma LogTermIs(logs: Logs, trials: nat, p: real, k: nat)
    requires logs.Sound() && 0.0 < p < 1.0 && k <= trials
    ensures logs.exp(LogTerm(logs, trials, p, k)) == TailTerm(trials, p, k)
  {
    var t, rest := LogTerm(logs, trials, p, k), trials - k;
    var u, v := LogTermParts(logs, trials, p, k);
    GammaIs(logs, trials);
    GammaIs(logs, k);
    GammaIs(logs, rest);
    ChooseFactorials(trials, k);
    ExpProduct(logs, t, logs.lgamma(trials + 1), logs.lgamma(k + 1), logs.lgamma(rest + 1), u, v, Factorial(trials),
               Factorial(k), Factorial(rest), RealPow(p, k), RealPow(1.0 - p, rest), Choose(trials, k));
  }

  // ---------------------------------------------------------------- the sum

  function LogTerms(logs: Logs, trials: nat, p: real, count: nat): (terms: seq<real>)
    requires count <= trials
    ensures |terms| == count && forall k :: 0 <= k < count ==> terms[k] == LogTerm(logs, trials, p, k)
  {
    seq(count, k requires 0 <= k < count => LogTerm(logs, trials, p, k))
  }

  /** The exponentials of the terms, relative to a peak. */
  function Relative(logs: Logs, terms: seq<real>, peak: real): (r: seq<real>)
    ensures |r| == |terms| && forall k :: 0 <= k < |r| ==> r[k] == logs.exp(terms[k] - peak)
  {
    seq(|terms|, k requires 0 <= k < |terms| => logs.exp(terms[k] - peak))
  }

  function Greatest(terms: seq<real>): real
    requires terms != []
  {
    var last := terms[|terms| - 1];
    if |terms| == 1 then last
    else
      var before := Greatest(terms[..|terms| - 1]);
      if before < last then last else before
  }

  /** P(X < count) as the report computes it: log terms, their peak taken out, and the sum capped at one. */
  function LogCdfBelow(logs: Logs, count: int, trials: nat, p: real): real {
    if count <= 0 then 0.0
    else if count > trials || p <= 0.0 then 1.0
    else if p >= 1.0 then 0.0
    else
      var terms := LogTerms(logs, trials, p, count);
      var peak := Greatest(terms);
      var sum := logs.exp(peak) * RealSum(Relative(logs, terms, peak));
      if sum < 1.0 then sum else 1.0
  }

  lemma AddScaled(e: real, a: real, b: real, x: real, y: real)
    requires e * a == x && e * b == y
    ensures e * (a + b) == x + y
  {
  }

  /** Taking any peak out and multiplying it back leaves the sum of the exponentials. */
  lemma {:induction false} PeakCancels(logs: Logs, terms: seq<real>, peak: real, exact: seq<real>)
    requires logs.Sound() && |exact| == |terms| && forall k :: 0 <= k < |terms| ==> exact[k] == logs.exp(terms[k])
    ensures logs.exp(peak) * RealSum(Relative(logs, terms, peak)) == RealSum(exact)
  {
    if terms != [] {
      var last := |terms| - 1;
      PeakCancels(logs, terms[..last], peak, exact[..last]);
      ExpSum(logs, peak, terms[last] - peak);
      var r := Relative(logs, terms, peak);
      assert r[..last] == Relative(logs, terms[..last], peak);
      AddScaled(logs.exp(peak), RealSum(r[..last]), r[last], RealSum(exact[..last]), exact[last]);
    }
  }

  /** The evaluation in log space is the exact tail, so the peak and the logarithms cancel. */
  lemma LogCdfBelowIs(logs: Logs, count: int, trials: nat, p: real)
    requires logs.Sound()
    ensures LogCdfBelow(logs, count, trials, p) == CdfBelow(count, trials, p)
  {
    if 0 < count <= trials && 0.0 < p < 1.0 {
      var terms := LogTerms(logs, trials, p, count);
      forall k | 0 <= k < count ensures TailTerms(trials, p, count)[k] == logs.exp(terms[k]) {
        LogTermIs(logs, trials, p, k);
      }
      PeakCancels(logs, terms, Greatest(terms), TailTerms(trials, p, count));
    }
  }
}
