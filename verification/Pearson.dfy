/** The lagged Pearson correlation on real series, and its values on a support of two samples. */
module Pearson {
  import opened Wrappers
  import opened Plans

  function Sum(x: seq<real>): real {
    if x == [] then 0.0 else Sum(x[..|x| - 1]) + x[|x| - 1]
  }

  function Mean(x: seq<real>): real
    requires x != []
  {
    Sum(x) / |x| as real
  }

  /** The deviations from the mean. */
  function Centered(x: seq<real>): (u: seq<real>)
    requires x != []
    ensures |u| == |x| && forall i :: 0 <= i < |u| ==> u[i] == x[i] - Mean(x)
  {
    seq(|x|, i requires 0 <= i < |x| => x[i] - Mean(x))
  }

  function Times(u: seq<real>, v: seq<real>): (w: seq<real>)
    requires |u| == |v|
    ensures |w| == |u| && forall i :: 0 <= i < |w| ==> w[i] == u[i] * v[i]
  {
    seq(|u|, i requires 0 <= i < |u| => u[i] * v[i])
  }

  function Dot(u: seq<real>, v: seq<real>): real
    requires |u| == |v|
  {
    Sum(Times(u, v))
  }

  function CoSpread(x: seq<real>, y: seq<real>): real
    requires |x| == |y| > 0
  {
    Dot(Centered(x), Centered(y))
  }

  /** r is the covariance over the root of the product of the variances: its square and its sign determine it. */
  predicate IsCorrelation(r: real, x: seq<real>, y: seq<real>)
    requires |x| == |y| > 0
  {
    r * r * (CoSpread(x, x) * CoSpread(y, y)) == CoSpread(x, y) * CoSpread(x, y) && r * CoSpread(x, y) >= 0.0
  }

  /** The estimator is Pearson on supports of the given size, and fails on a constant series. */
  ghost predicate PearsonOn(estimate: Estimator, size: nat)
    requires size >= 2
  {
    forall x: seq<real>, y: seq<real> {:trigger estimate(x, y)} :: |x| == |y| == size ==>
      if CoSpread(x, x) == 0.0 || CoSpread(y, y) == 0.0 then estimate(x, y).None?
      else estimate(x, y).Some? && IsCorrelation(estimate(x, y).value, x, y)
  }

  lemma SumOfTwo(a: real, b: real)
    ensures Sum([a, b]) == a + b
  {
    assert [a, b][..1] == [a] && [a][..0] == [];
    assert Sum([a]) == a;
  }

  lemma DotOfTwo(a: real, b: real, c: real, d: real)
    ensures Dot([a, b], [c, d]) == a * c + b * d
  {
    var w := Times([a, b], [c, d]);
    assert w == [w[0], w[1]];
    SumOfTwo(w[0], w[1]);
  }

  /** Two samples lie half their step below and above their mean. */
  lemma PairCentered(a: real, b: real)
    ensures Centered([a, b]) == [-(b - a) / 2.0, (b - a) / 2.0]
  {
    SumOfTwo(a, b);
  }

  lemma HalfProducts(s: real, t: real)
    ensures (-s / 2.0) * (-t / 2.0) + (s / 2.0) * (t / 2.0) == s * t / 2.0
  {
  }

  lemma PairSpread(a: real, b: real, c: real, d: real)
    ensures CoSpread([a, b], [c, d]) == (b - a) * (d - c) / 2.0
  {
    var s, t := b - a, d - c;
    PairCentered(a, b);
    PairCentered(c, d);
    DotOfTwo(-s / 2.0, s / 2.0, -t / 2.0, t / 2.0);
    HalfProducts(s, t);
  }

  lemma ProductNotZero(a: real, b: real)
    requires a != 0.0 && b != 0.0
    ensures a * b != 0.0
  {
  }

  lemma LessOne(x: real, p: real)
    ensures (x - 1.0) * p == x * p - p
  {
  }

  lemma DifferenceOfSquares(r: real)
    ensures (r - 1.0) * (r + 1.0) == r * r - 1.0
  {
  }

  /** A root of the equation x * p == p is 1. */
  lemma FactorIsOne(x: real, p: real)
    requires x * p == p && p != 0.0
    ensures x == 1.0
  {
    LessOne(x, p);
    var y := x - 1.0;
    if y != 0.0 { ProductNotZero(y, p); }
  }

  lemma RootOfOne(r: real)
    requires r * r == 1.0
    ensures r == 1.0 || r == -1.0
  {
    DifferenceOfSquares(r);
    var y, z := r - 1.0, r + 1.0;
    if y != 0.0 && z != 0.0 { ProductNotZero(y, z); }
  }

  lemma SquareOne(r: real, p: real, q: real)
    requires p != 0.0 && r * r * p == p && r * q >= 0.0 && q != 0.0
    ensures r == if q > 0.0 then 1.0 else -1.0
  {
    FactorIsOne(r * r, p);
    RootOfOne(r);
  }

  lemma Associate(a: real, b: real, c: real)
    ensures (a * b) * c == a * (b * c)
  {
  }

  lemma SquaresOfProduct(u: real, v: real)
    ensures (u * u) * (v * v) == (u * v) * (u * v)
  {
    Associate(u, u, v * v);
    Associate(u, v, v);
    Associate(u, v, u * v);
  }

  lemma Quarter(a: real, b: real)
    ensures (a / 2.0) * (b / 2.0) == a * b / 4.0
  {
  }

  lemma HalfSpreads(p: real, r: real, s: real, x: real, y: real, q: real)
    requires p != 0.0 && r != 0.0 && s != 0.0 && p * r == s * s && x == p / 2.0 && y == r / 2.0 && q == s / 2.0
    requires (p / 2.0) * (r / 2.0) == p * r / 4.0 && (s / 2.0) * (s / 2.0) == s * s / 4.0
    ensures x != 0.0 && y != 0.0 && q != 0.0 && x * y == q * q && (q > 0.0 <==> s > 0.0)
  {
  }

  /** The spreads of two samples with steps u and v. */
  lemma PairSpreads(u: real, v: real, x: real, y: real, q: real)
    requires u != 0.0 && v != 0.0 && x == u * u / 2.0 && y == v * v / 2.0 && q == u * v / 2.0
    ensures x != 0.0 && y != 0.0 && q != 0.0 && x * y == q * q && (q > 0.0 <==> u * v > 0.0)
  {
    ProductNotZero(u, u);
    ProductNotZero(v, v);
    ProductNotZero(u, v);
    SquaresOfProduct(u, v);
    Quarter(u * u, v * v);
    Quarter(u * v, u * v);
    HalfSpreads(u * u, v * v, u * v, x, y, q);
  }

  lemma PairCoSpreads(a: real, b: real, c: real, d: real)
    requires a != b && c != d
    ensures var x, y := [a, b], [c, d];
      && CoSpread(x, x) != 0.0 && CoSpread(y, y) != 0.0 && CoSpread(x, y) != 0.0
      && CoSpread(x, x) * CoSpread(y, y) == CoSpread(x, y) * CoSpread(x, y)
      && (CoSpread(x, y) > 0.0 <==> (b - a) * (d - c) > 0.0)
  {
    PairSpread(a, b, a, b);
    PairSpread(c, d, c, d);
    PairSpread(a, b, c, d);
    PairSpreads(b - a, d - c, CoSpread([a, b], [a, b]), CoSpread([c, d], [c, d]), CoSpread([a, b], [c, d]));
  }

  lemma CorrelationIsSign(r: real, p: real, square: real, q: real)
    requires p != 0.0 && p == square && r * r * p == square && r * q >= 0.0 && q != 0.0
    ensures r == if q > 0.0 then 1.0 else -1.0
  {
    SquareOne(r, p, q);
  }

  /** Two samples are perfectly correlated: the value is the sign of the product of the two differences. */
  lemma PairCorrelation(estimate: Estimator, a: real, b: real, c: real, d: real)
    requires PearsonOn(estimate, 2) && a != b && c != d
    ensures estimate([a, b], [c, d]) == Some(if (b - a) * (d - c) > 0.0 then 1.0 else -1.0)
  {
    var x, y := [a, b], [c, d];
    PairCoSpreads(a, b, c, d);
    var r := estimate(x, y);
    assert r.Some? && IsCorrelation(r.value, x, y);
    ProductNotZero(CoSpread(x, x), CoSpread(y, y));
    CorrelationIsSign(r.value, CoSpread(x, x) * CoSpread(y, y), CoSpread(x, y) * CoSpread(x, y), CoSpread(x, y));
  }

  /** Pearson on two samples exists: it compares the directions of the two steps. */
  function PairSign(): Estimator {
    (x: seq<real>, y: seq<real>) =>
      if |x| == |y| == 2 && x[0] != x[1] && y[0] != y[1]
      then Some(if (x[1] - x[0]) * (y[1] - y[0]) > 0.0 then 1.0 else -1.0)
      else None
  }

  lemma PairSignCorrelates(a: real, b: real, c: real, d: real)
    requires a != b && c != d
    ensures CoSpread([a, b], [a, b]) != 0.0 && CoSpread([c, d], [c, d]) != 0.0
    ensures IsCorrelation(if (b - a) * (d - c) > 0.0 then 1.0 else -1.0, [a, b], [c, d])
  {
    PairCoSpreads(a, b, c, d);
  }

  lemma PairSignAt(a: real, b: real, c: real, d: real)
    ensures var x, y := [a, b], [c, d];
      if CoSpread(x, x) == 0.0 || CoSpread(y, y) == 0.0 then PairSign()(x, y).None?
      else PairSign()(x, y).Some? && IsCorrelation(PairSign()(x, y).value, x, y)
  {
    if a != b && c != d {
      PairSignCorrelates(a, b, c, d);
    } else {
      PairSpread(a, b, a, b);
      PairSpread(c, d, c, d);
    }
  }

  lemma PairSignIsPearson()
    ensures PearsonOn(PairSign(), 2)
  {
    forall x: seq<real>, y: seq<real> | |x| == |y| == 2
      ensures if CoSpread(x, x) == 0.0 || CoSpread(y, y) == 0.0 then PairSign()(x, y).None?
              else PairSign()(x, y).Some? && IsCorrelation(PairSign()(x, y).value, x, y)
    {
      assert x == [x[0], x[1]] && y == [y[0], y[1]];
      PairSignAt(x[0], x[1], y[0], y[1]);
    }
  }
}
