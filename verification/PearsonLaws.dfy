/** The Pearson correlation of any number of samples: its sign, its bound, and when the bound is reached. */
module PearsonLaws {
  import opened Wrappers
  import opened Plans
  import opened Pearson

  // ---------------------------------------------------------------- residuals

  /** The residuals p u - q v. */
  function Residuals(u: seq<real>, v: seq<real>, p: real, q: real): (e: seq<real>)
    requires |u| == |v|
    ensures |e| == |u| && forall i :: 0 <= i < |e| ==> e[i] == p * u[i] - q * v[i]
  {
    seq(|u|, i requires 0 <= i < |u| => p * u[i] - q * v[i])
  }

  lemma Distribute(a: real, b: real, c: real)
    ensures a * (b + c) == a * b + a * c
  {
  }

  lemma Signs(a: real, b: real)
    ensures a > 0.0 && b > 0.0 ==> a * b > 0.0
    ensures a > 0.0 && b < 0.0 ==> a * b < 0.0
    ensures a < 0.0 && b > 0.0 ==> a * b < 0.0
    ensures a < 0.0 && b < 0.0 ==> a * b > 0.0
    ensures a == 0.0 || b == 0.0 <==> a * b == 0.0
  {
  }

  lemma ProductOfProducts(p: real, u: real, q: real, v: real)
    ensures (p * u) * (q * v) == (p * q) * (u * v)
  {
    Associate(p, u, q * v);
    Associate(u, q, v);
    Associate(q, u, v);
    Associate(p, q, u * v);
  }

  lemma SquareOfDifference(f: real, g: real)
    ensures (f - g) * (f - g) == f * f - 2.0 * (f * g) + g * g
  {
  }

  /** (p u - q v)^2 with its three products named. */
  lemma SquareOfResidual(p: real, q: real, u: real, v: real)
    ensures (p * u - q * v) * (p * u - q * v) == (p * p) * (u * u) - 2.0 * ((p * q) * (u * v)) + (q * q) * (v * v)
  {
    SquareOfDifference(p * u, q * v);
    ProductOfProducts(p, u, p, u);
    ProductOfProducts(p, u, q, v);
    ProductOfProducts(q, v, q, v);
  }

  ghost predicate Additive(f: real -> real) {
    f(0.0) == 0.0 && forall a, b :: f(a + b) == f(a) + f(b)
  }

  /** Sums of terms that are combined linearly are combined linearly. */
  lemma {:induction false} SumsCombine(
    r: seq<real>, a: seq<real>, b: seq<real>, c: seq<real>, f: real -> real, g: real -> real, h: real -> real)
    requires Additive(f) && Additive(g) && Additive(h) && |r| == |a| == |b| == |c|
    requires forall i :: 0 <= i < |r| ==> r[i] == f(a[i]) - g(b[i]) + h(c[i])
    ensures Sum(r) == f(Sum(a)) - g(Sum(b)) + h(Sum(c))
  {
    if r != [] {
      var i := |r| - 1;
      SumsCombine(r[..i], a[..i], b[..i], c[..i], f, g, h);
    }
  }

  function Scaling(s: real): real -> real {
    (x: real) => s * x
  }

  lemma ScalingOfSum(s: real, a: real, b: real)
    ensures Scaling(s)(a + b) == Scaling(s)(a) + Scaling(s)(b)
  {
    Distribute(s, a, b);
  }

  lemma ScalingAdditive(s: real)
    ensures Additive(Scaling(s))
  {
    assert Scaling(s)(0.0) == s * 0.0;
    forall a, b ensures Scaling(s)(a + b) == Scaling(s)(a) + Scaling(s)(b) {
      ScalingOfSum(s, a, b);
    }
  }

  lemma SquareAt(u: seq<real>, v: seq<real>, p: real, q: real, i: nat)
    requires i < |u| == |v|
    ensures var e := Residuals(u, v, p, q);
      Times(e, e)[i] == Scaling(p * p)(Times(u, u)[i]) - Scaling(2.0 * (p * q))(Times(u, v)[i])
                        + Scaling(q * q)(Times(v, v)[i])
  {
    SquareOfResidual(p, q, u[i], v[i]);
    Associate(2.0, p * q, u[i] * v[i]);
  }

  /** The sum of the squared residuals. */
  lemma ResidualsExpand(u: seq<real>, v: seq<real>, p: real, q: real, f: real -> real, g: real -> real, h: real -> real)
    requires |u| == |v| && f == Scaling(p * p) && g == Scaling(2.0 * (p * q)) && h == Scaling(q * q)
    ensures var e := Residuals(u, v, p, q); Dot(e, e) == f(Dot(u, u)) - g(Dot(u, v)) + h(Dot(v, v))
  {
    var e := Residuals(u, v, p, q);
    ScalingAdditive(p * p);
    ScalingAdditive(2.0 * (p * q));
    ScalingAdditive(q * q);
    ResidualTerms(u, v, p, q, f, g, h, e);
    SumsCombine(Times(e, e), Times(u, u), Times(u, v), Times(v, v), f, g, h);
  }

  lemma ResidualTerms(
    u: seq<real>, v: seq<real>, p: real, q: real, f: real -> real, g: real -> real, h: real -> real, e: seq<real>)
    requires |u| == |v| && f == Scaling(p * p) && g == Scaling(2.0 * (p * q)) && h == Scaling(q * q)
    requires e == Residuals(u, v, p, q)
    ensures forall i :: 0 <= i < |u| ==> Times(e, e)[i] == f(Times(u, u)[i]) - g(Times(u, v)[i]) + h(Times(v, v)[i])
  {
    forall i | 0 <= i < |u| ensures Times(e, e)[i] == f(Times(u, u)[i]) - g(Times(u, v)[i]) + h(Times(v, v)[i]) {
      SquareAt(u, v, p, q, i);
    }
  }

  /** A sum of terms none of which is negative is at least each of them. */
  lemma {:induction false} TermWithinSum(r: seq<real>, k: nat)
    requires k < |r| && forall i :: 0 <= i < |r| ==> r[i] >= 0.0
    ensures Sum(r) >= r[k]
  {
    var i := |r| - 1;
    if i > 0 { TermWithinSum(r[..i], if k < i then k else 0); }
  }

  /** A sum of squares is not negative, and vanishes only when every residual does. */
  lemma SquaresVanish(e: seq<real>, k: nat)
    requires k < |e|
    ensures Dot(e, e) >= 0.0 && (Dot(e, e) == 0.0 ==> e[k] == 0.0)
  {
    forall i | 0 <= i < |e| ensures Times(e, e)[i] >= 0.0 {
      Signs(e[i], e[i]);
    }
    TermWithinSum(Times(e, e), k);
    Signs(e[k], e[k]);
  }

  // ---------------------------------------------------------------- spreads

  predicate Varies(x: seq<real>) {
    |x| >= 2 && x[0] != x[1]
  }

  /** A series that varies has a positive spread. */
  lemma SpreadPositive(x: seq<real>)
    requires Varies(x)
    ensures CoSpread(x, x) > 0.0
  {
    SquaresVanish(Centered(x), 0);
    SquaresVanish(Centered(x), 1);
  }

  lemma GapOf(f: real, g: real, h: real)
    ensures Scaling(g * g)(f) - Scaling(2.0 * (g * h))(h) + Scaling(h * h)(g) == g * (f * g - h * h)
  {
    Associate(g, g, f);
    Associate(2.0, g * h, h);
    Associate(g, h, h);
    Distribute(g, f * g, -(h * h));
  }

  /** The samples lie on one line: with p = u.u and q = u.v it is the regression of y on x. */
  predicate OnLine(u: seq<real>, v: seq<real>, p: real, q: real, k: nat)
    requires k < |u| == |v|
  {
    p * u[k] == q * v[k]
  }

  /** Cauchy-Schwarz, with its equality case. */
  lemma CauchySchwarz(u: seq<real>, v: seq<real>, f: real, g: real, h: real, k: nat)
    requires k < |u| == |v| && f == Dot(u, u) && g == Dot(v, v) > 0.0 && h == Dot(u, v)
    ensures h * h <= f * g && (h * h == f * g ==> OnLine(u, v, g, h, k))
  {
    var e := Residuals(u, v, g, h);
    ResidualsExpand(u, v, g, h, Scaling(g * g), Scaling(2.0 * (g * h)), Scaling(h * h));
    GapOf(f, g, h);
    SquaresVanish(e, k);
    Signs(g, f * g - h * h);
  }

  // ---------------------------------------------------------------- correlations

  lemma SignFromSquare(r: real, p: real, q: real)
    requires p > 0.0 && r * r * p == q * q && r * q >= 0.0
    ensures (r > 0.0 <==> q > 0.0) && (r == 0.0 <==> q == 0.0)
  {
    Signs(q, q);
    Signs(r, r);
    Signs(r * r, p);
    Signs(r, q);
  }

  lemma UnitFromSquare(r: real, p: real, s: real)
    requires p > 0.0 && r * r * p == s && s <= p
    ensures -1.0 <= r <= 1.0 && (r == 1.0 || r == -1.0 ==> s == p)
  {
    LessOne(r * r, p);
    Signs(r * r - 1.0, p);
    DifferenceOfSquares(r);
    Signs(r - 1.0, r + 1.0);
  }

  /** Pearson on two varying series. */
  function Correlation(estimate: Estimator, x: seq<real>, y: seq<real>): real {
    estimate(x, y).GetOr(0.0)
  }

  lemma VaryingEstimate(estimate: Estimator, size: nat, x: seq<real>, y: seq<real>)
    requires size >= 2 && PearsonOn(estimate, size) && |x| == |y| == size && Varies(x) && Varies(y)
    ensures estimate(x, y).Some? && IsCorrelation(Correlation(estimate, x, y), x, y)
    ensures CoSpread(x, x) * CoSpread(y, y) > 0.0
  {
    SpreadPositive(x);
    SpreadPositive(y);
    Signs(CoSpread(x, x), CoSpread(y, y));
  }

  /** The correlation has the sign of the covariance. */
  lemma CorrelationSign(estimate: Estimator, size: nat, x: seq<real>, y: seq<real>)
    requires size >= 2 && PearsonOn(estimate, size) && |x| == |y| == size && Varies(x) && Varies(y)
    ensures estimate(x, y).Some?
    ensures Correlation(estimate, x, y) > 0.0 <==> CoSpread(x, y) > 0.0
    ensures Correlation(estimate, x, y) == 0.0 <==> CoSpread(x, y) == 0.0
  {
    VaryingEstimate(estimate, size, x, y);
    SignFromSquare(Correlation(estimate, x, y), CoSpread(x, x) * CoSpread(y, y), CoSpread(x, y));
  }

  /** It lies between -1 and 1, and reaches neither unless one series is an affine image of the other. */
  lemma CorrelationBound(estimate: Estimator, size: nat, x: seq<real>, y: seq<real>, k: nat)
    requires size >= 2 && PearsonOn(estimate, size) && |x| == |y| == size && Varies(x) && Varies(y) && k < size
    ensures estimate(x, y).Some? && -1.0 <= Correlation(estimate, x, y) <= 1.0
    ensures Correlation(estimate, x, y) == 1.0 || Correlation(estimate, x, y) == -1.0 ==>
              OnLine(Centered(x), Centered(y), CoSpread(y, y), CoSpread(x, y), k)
  {
    VaryingEstimate(estimate, size, x, y);
    SpreadPositive(y);
    var f, g, h := CoSpread(x, x), CoSpread(y, y), CoSpread(x, y);
    CauchySchwarz(Centered(x), Centered(y), f, g, h, k);
    UnitFromSquare(Correlation(estimate, x, y), f * g, h * h);
  }

  lemma SelfCorrelation(r: real, x: seq<real>, q: real)
    requires x != [] && IsCorrelation(r, x, x) && q == CoSpread(x, x) > 0.0
    ensures r == 1.0
  {
    Signs(q, q);
    SquareOne(r, q * q, q);
  }

  /** A varying series has correlation 1 with itself. */
  lemma CorrelationWithItself(estimate: Estimator, x: seq<real>)
    requires Varies(x) && PearsonOn(estimate, |x|)
    ensures estimate(x, x) == Some(1.0)
  {
    VaryingEstimate(estimate, |x|, x, x);
    SpreadPositive(x);
    SelfCorrelation(Correlation(estimate, x, x), x, CoSpread(x, x));
  }

  // ---------------------------------------------------------------- contrasts

  /** A target that sees only the first step of the series paired with it. */
  function Step(size: nat): (y: seq<real>)
    requires size >= 2
    ensures |y| == size && Varies(y)
  {
    seq(size, i => if i == 0 then -1.0 else if i == 1 then 1.0 else 0.0)
  }

  /** And one that sees only the change from the first step to the second. */
  function Bend(size: nat): (y: seq<real>)
    requires size >= 3
    ensures |y| == size && Varies(y)
  {
    seq(size, i => if i == 0 || i == 2 then 1.0 else if i == 1 then -2.0 else 0.0)
  }

  /** Zeros at the end contribute nothing. */
  lemma {:induction false} ZeroTail(r: seq<real>, count: nat)
    requires count <= |r| && forall i :: count <= i < |r| ==> r[i] == 0.0
    ensures Sum(r) == Sum(r[..count])
  {
    if count == |r| {
      assert r[..count] == r;
    } else {
      ZeroTail(r[..|r| - 1], count);
      assert r[..|r| - 1][..count] == r[..count];
    }
  }

  lemma SumOfThree(a: real, b: real, c: real)
    ensures Sum([a, b, c]) == a + b + c
  {
    SumOfTwo(a, b);
    assert [a, b, c][..2] == [a, b];
  }

  /** The covariance with the step target is the first step of the series. */
  lemma StepCoSpread(x: seq<real>)
    requires |x| >= 2
    ensures CoSpread(x, Step(|x|)) == x[1] - x[0]
  {
    var u, y := Centered(x), Step(|x|);
    ZeroTail(y, 2);
    SumOfTwo(-1.0, 1.0);
    assert y[..2] == [-1.0, 1.0];
    assert Centered(y) == y;
    ZeroTail(Times(u, y), 2);
    var w := Times(u, y);
    SumOfTwo(w[0], w[1]);
    assert w[..2] == [w[0], w[1]];
  }

  /** And with the bend target it is the change from the first step to the second. */
  lemma BendCoSpread(x: seq<real>)
    requires |x| >= 3
    ensures CoSpread(x, Bend(|x|)) == (x[2] - x[1]) - (x[1] - x[0])
  {
    var u, y := Centered(x), Bend(|x|);
    ZeroTail(y, 3);
    SumOfThree(1.0, -2.0, 1.0);
    assert y[..3] == [1.0, -2.0, 1.0];
    assert Centered(y) == y;
    ZeroTail(Times(u, y), 3);
    SumOfThree(u[0], u[1] * -2.0, u[2]);
    assert Times(u, y)[..3] == [u[0], u[1] * -2.0, u[2]];
  }

  // ---------------------------------------------------------------- the quotient

  lemma EqualBySquares(a: real, b: real)
    requires a * a == b * b && a * b >= 0.0
    ensures a == b
  {
    assert (a - b) * (a + b) == 0.0;
  }

  lemma ScaledSquare(r: real, root: real)
    ensures (r * root) * (r * root) == r * r * (root * root)
  {
  }

  lemma SignedProduct(r: real, root: real, c: real)
    requires root > 0.0
    ensures (r * root) * c == (r * c) * root && ((r * c) * root >= 0.0 <==> r * c >= 0.0)
  {
    var p := r * c;
    assert (r * root) * c == p * root;
  }

  lemma SquareNotNegative(c: real)
    ensures c * c >= 0.0
  {
  }

  lemma QuotientIs(r: real, root: real, c: real)
    requires root > 0.0
    ensures r * r * (root * root) == c * c && r * c >= 0.0 <==> r * root == c
  {
    ScaledSquare(r, root);
    SignedProduct(r, root, c);
    SquareNotNegative(c);
    if r * r * (root * root) == c * c && r * c >= 0.0 { EqualBySquares(r * root, c); }
  }

  /** The correlation of two series is the covariance over the root of the product of their spreads, and only that. */
  lemma CorrelationIs(x: seq<real>, y: seq<real>, root: real, r: real)
    requires |x| == |y| > 0 && root > 0.0 && root * root == CoSpread(x, x) * CoSpread(y, y)
    ensures IsCorrelation(r, x, y) <==> r * root == CoSpread(x, y)
  {
    hide CoSpread;
    QuotientIs(r, root, CoSpread(x, y));
  }
}
