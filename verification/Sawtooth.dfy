/** A periodic series with one jump: where its windows correlate best with a target of a given shape. */
module Sawtooth {
  import opened Arithmetic
  import opened Contracts
  import opened Selection
  import opened Circular
  import opened Plans
  import opened Pearson
  import opened PearsonLaws

  // ---------------------------------------------------------------- windows

  /** The values f takes when counting down modulo n, reaching 0 at position low. */
  function Countdown(f: int -> real, n: nat, low: nat): (source: seq<real>)
    requires n > 0
    ensures |source| == n
  {
    seq(n, i => f(Wrap(low - i, n)))
  }

  /** The values from f(c) on. */
  function Window(f: int -> real, n: nat, size: nat, c: int): (x: seq<real>)
    requires n > 0
    ensures |x| == size && forall j :: 0 <= j < size ==> x[j] == f(Wrap(c - j, n))
  {
    seq(size, j => f(Wrap(c - j, n)))
  }

  /** Each lag slice of each shifted series is a window. */
  lemma SliceIsWindow(f: int -> real, n: nat, low: nat, maxLag: nat, lag: int, s: nat)
    requires 0 < lag <= maxLag < n && low < n && s < n
    ensures LagSlice(Rotate(Countdown(f, n, low), s), maxLag, lag)
         == Window(f, n, n - maxLag, Wrap(low - maxLag + lag + s, n))
  {
    var c := Wrap(low - maxLag + lag + s, n);
    WrapNear(low - maxLag + lag + s, n);
    forall j | 0 <= j < n - maxLag
      ensures LagSlice(Rotate(Countdown(f, n, low), s), maxLag, lag)[j] == Window(f, n, n - maxLag, c)[j]
    {
      var at := Wrap(maxLag - lag + j - s, n);
      WrapNear(maxLag - lag + j - s, n);
      WrapNear(low - at, n);
      WrapNear(c - j, n);
    }
  }

  /** The plain countdown. */
  function Falling(): int -> real {
    (z: int) => z as real
  }

  /** The steps at the start of a window of the plain countdown. */
  lemma FallingSteps(n: nat, size: nat, c: nat)
    requires 2 <= size < n && c < n
    ensures var x := Window(Falling(), n, size, c);
      && x[1] - x[0] == (if c == 0 then (n - 1) as real else -1.0)
      && (size > 2 ==> x[2] - x[1] == (if c == 1 then (n - 1) as real else -1.0))
      && Varies(x)
  {
    WrapNear(c, n);
    WrapNear(c - 1, n);
    WrapNear(c - 2, n);
  }

  // ---------------------------------------------------------------- the best window

  /** A target that the window from 0 matches better than every other one. */
  function Matching(rule: SelectionRule, n: nat, size: nat): (y: seq<real>)
    requires 2 <= size < n
    ensures |y| == size && Varies(y)
  {
    FallingSteps(n, size, 0);
    if rule.MaxUpper? then Step(size) else Window(Falling(), n, size, 0)
  }

  function WindowScore(estimate: Estimator, rule: SelectionRule, n: nat, size: nat, c: int): real
    requires 2 <= size < n
  {
    Score(rule, Correlation(estimate, Window(Falling(), n, size, c), Matching(rule, n, size)))
  }

  lemma UpperMatch(estimate: Estimator, n: nat, size: nat, c: nat)
    requires 2 <= size < n && c < n && PearsonOn(estimate, size)
    ensures estimate(Window(Falling(), n, size, c), Step(size)).Some?
    ensures Correlation(estimate, Window(Falling(), n, size, c), Step(size)) > 0.0 <==> c == 0
    ensures Correlation(estimate, Window(Falling(), n, size, c), Step(size)) != 0.0
  {
    var x := Window(Falling(), n, size, c);
    FallingSteps(n, size, c);
    CorrelationSign(estimate, size, x, Step(size));
    StepCoSpread(x);
  }

  lemma SlopeProduct(g: real, h: real, n: real, e: real)
    requires g > 0.0 && h * n == -g && g * e == -h
    ensures e * n == 1.0
  {
    var w, m := g * e, e * n;
    assert h == -w && h * n == (-w) * n == -(w * n);
    Associate(g, e, n);
    assert g * m == w * n == g;
    assert m * g == g * m;
    FactorIsOne(m, g);
  }

  /** A multiple of one slope cannot turn the steps (n, -1) into (-1, e). */
  lemma SlopesDiffer(g: real, h: real, n: real, e: real)
    requires g > 0.0 && n > 1.0 && (e == -1.0 || e == n)
    ensures h * n != -g || g * e != -h
  {
    if h * n == -g && g * e == -h {
      SlopeProduct(g, h, n, e);
      DifferenceOfSquares(n);
      Signs(n - 1.0, n + 1.0);
    }
  }

  lemma StepsOnLine(u: seq<real>, v: seq<real>, g: real, h: real, k: nat)
    requires k + 1 < |u| == |v| && OnLine(u, v, g, h, k) && OnLine(u, v, g, h, k + 1)
    ensures g * (u[k + 1] - u[k]) == h * (v[k + 1] - v[k])
  {
    Distribute(g, u[k + 1], -u[k]);
    Distribute(h, v[k + 1], -v[k]);
  }

  lemma WindowsNotOnLine(u: seq<real>, v: seq<real>, g: real, h: real, n: real, e: real)
    requires 3 <= |u| == |v| && g > 0.0 && n > 1.0 && (e == -1.0 || e == n)
    requires u[1] - u[0] == -1.0 && u[2] - u[1] == e && v[1] - v[0] == n && v[2] - v[1] == -1.0
    ensures exists k: nat :: k < 3 && !OnLine(u, v, g, h, k)
  {
    SlopesDiffer(g, h, n, e);
    if OnLine(u, v, g, h, 0) && OnLine(u, v, g, h, 1) && OnLine(u, v, g, h, 2) {
      StepsOnLine(u, v, g, h, 0);
      StepsOnLine(u, v, g, h, 1);
    }
  }

  lemma AbsoluteMatch(estimate: Estimator, n: nat, size: nat, c: nat)
    requires 3 <= size < n && 0 < c < n && PearsonOn(estimate, size)
    ensures var x, y := Window(Falling(), n, size, c), Window(Falling(), n, size, 0);
      estimate(x, y).Some? && -1.0 < Correlation(estimate, x, y) < 1.0
  {
    var x, y := Window(Falling(), n, size, c), Window(Falling(), n, size, 0);
    FallingSteps(n, size, c);
    FallingSteps(n, size, 0);
    var u, v, g, h := Centered(x), Centered(y), CoSpread(y, y), CoSpread(x, y);
    SpreadPositive(y);
    WindowsNotOnLine(u, v, g, h, (n - 1) as real, x[2] - x[1]);
    var k: nat :| k < 3 && !OnLine(u, v, g, h, k);
    CorrelationBound(estimate, size, x, y, k);
  }

  /** The window from 0 scores strictly best, unless two samples are scored by absolute value. */
  lemma BestWindow(estimate: Estimator, rule: SelectionRule, n: nat, size: nat, c: nat)
    requires 2 <= size < n && c < n && PearsonOn(estimate, size) && (size == 2 ==> rule.MaxUpper?)
    ensures estimate(Window(Falling(), n, size, c), Matching(rule, n, size)).Some?
    ensures c != 0 ==> WindowScore(estimate, rule, n, size, c) < WindowScore(estimate, rule, n, size, 0)
  {
    if rule.MaxUpper? {
      UpperMatch(estimate, n, size, c);
      UpperMatch(estimate, n, size, 0);
    } else {
      FallingSteps(n, size, 0);
      CorrelationWithItself(estimate, Window(Falling(), n, size, 0));
      if c != 0 { AbsoluteMatch(estimate, n, size, c); }
    }
  }

  /** The window from 0 has the strictly greatest score. */
  ghost predicate RanksWindows(estimate: Estimator, rule: SelectionRule, n: nat, size: nat)
    requires 2 <= size < n
  {
    forall c: nat {:trigger Window(Falling(), n, size, c)} :: c < n ==>
      estimate(Window(Falling(), n, size, c), Matching(rule, n, size)).Some?
      && (c != 0 ==> WindowScore(estimate, rule, n, size, c) < WindowScore(estimate, rule, n, size, 0))
  }

  lemma PearsonRanksWindows(estimate: Estimator, rule: SelectionRule, n: nat, size: nat)
    requires 2 <= size < n && PearsonOn(estimate, size) && (size == 2 ==> rule.MaxUpper?)
    ensures RanksWindows(estimate, rule, n, size)
  {
    forall c: nat {:trigger Window(Falling(), n, size, c)} | c < n
      ensures estimate(Window(Falling(), n, size, c), Matching(rule, n, size)).Some?
      ensures c != 0 ==> WindowScore(estimate, rule, n, size, c) < WindowScore(estimate, rule, n, size, 0)
    {
      BestWindow(estimate, rule, n, size, c);
    }
  }

  /** Every window has an estimate with the given target. */
  ghost predicate AnswersWindows(estimate: Estimator, n: nat, size: nat, y: seq<real>)
    requires n > 0
  {
    forall c: nat {:trigger Window(Falling(), n, size, c)} ::
      c < n ==> estimate(Window(Falling(), n, size, c), y).Some?
  }

  lemma PearsonAnswersWindows(estimate: Estimator, n: nat, size: nat, y: seq<real>)
    requires 2 <= size < n && PearsonOn(estimate, size) && |y| == size && Varies(y)
    ensures AnswersWindows(estimate, n, size, y)
  {
    forall c: nat {:trigger Window(Falling(), n, size, c)} | c < n
      ensures estimate(Window(Falling(), n, size, c), y).Some?
    {
      FallingSteps(n, size, c);
      VaryingEstimate(estimate, size, Window(Falling(), n, size, c), y);
    }
  }
}
