/** Elementary facts about products and remainders that the solver does not find by itself. */
module Arithmetic {

  lemma MulMonotone(a: int, b: int, m: int)
    requires a <= b && m >= 0
    ensures a * m <= b * m
  {
  }

  lemma MulSucc(a: int, m: int)
    ensures (a + 1) * m == a * m + m
  {
  }

  /** Quotient and remainder are determined by the division equation. */
  lemma DivModUnique(x: int, m: int, q: int, s: int)
    requires 0 <= s < m && x == q * m + s
    ensures x / m == q && x % m == s
  {
    var q', s' := x / m, x % m;
    assert x == q' * m + s';
    if q < q' {
      MulMonotone(q + 1, q', m);
      MulSucc(q, m);
    } else if q' < q {
      MulMonotone(q' + 1, q, m);
      MulSucc(q', m);
    }
  }

  lemma ModSmall(x: int, m: int)
    requires 0 <= x < m
    ensures x % m == x
  {
    DivModUnique(x, m, 0, x);
  }

  /** Adding or removing one period does not change the remainder. */
  lemma ModPeriod(x: int, m: int)
    requires m > 0
    ensures (x + m) % m == x % m
    ensures (x - m) % m == x % m
  {
    var q, s := x / m, x % m;
    assert x == q * m + s;
    MulSucc(q, m);
    MulSucc(q - 1, m);
    DivModUnique(x + m, m, q + 1, s);
    DivModUnique(x - m, m, q - 1, s);
  }

  /** The remainder, by adding or removing periods: linear to reason about near 0..n-1. */
  function Wrap(x: int, n: int): (r: int)
    requires n > 0
    ensures 0 <= r < n
    decreases x < 0, if x < 0 then -x else x
  {
    if x < 0 then Wrap(x + n, n) else if x < n then x else Wrap(x - n, n)
  }

  lemma WrapNear(x: int, n: int)
    requires n > 0 && -n <= x < 2 * n
    ensures Wrap(x, n) == if x < 0 then x + n else if x < n then x else x - n
  {
  }

  lemma {:induction false} WrapIs(x: int, n: int)
    requires n > 0
    ensures Wrap(x, n) == x % n
    decreases x < 0, if x < 0 then -x else x
  {
    if x < 0 {
      WrapIs(x + n, n);
      ModPeriod(x, n);
    } else if x < n {
      ModSmall(x, n);
    } else {
      WrapIs(x - n, n);
      ModPeriod(x, n);
    }
  }
}
