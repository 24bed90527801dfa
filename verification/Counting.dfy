/** Finite counting: words over an alphabet, hits in a subset, powers, factorials and binomials. */
module Counting {

  function Pow(b: nat, e: nat): nat {
    if e == 0 then 1 else b * Pow(b, e - 1)
  }

  function Factorial(n: nat): (f: nat)
    ensures f >= 1
  {
    if n == 0 then 1 else n * Factorial(n - 1)
  }

  function Choose(n: nat, k: nat): nat {
    if k == 0 then 1
    else if n == 0 then 0
    else Choose(n - 1, k - 1) + Choose(n - 1, k)
  }

  /** Multiplication by repeated addition, to keep the counting proofs linear. */
  ghost function Times(a: nat, b: nat): nat {
    if a == 0 then 0 else b + Times(a - 1, b)
  }

  lemma {:induction false} TimesIs(a: nat, b: nat)
    ensures Times(a, b) == a * b
  {
    if a > 0 { TimesIs(a - 1, b); }
  }

  lemma {:induction false} PowPositive(b: nat, e: nat)
    requires b > 0
    ensures Pow(b, e) > 0
  {
    if e > 0 { PowPositive(b, e - 1); }
  }

  lemma {:induction false} PowAdd(b: nat, x: nat, y: nat)
    ensures Pow(b, x + y) == Pow(b, x) * Pow(b, y)
  {
    if x > 0 {
      PowAdd(b, x - 1, y);
      MulAssociative(b, Pow(b, x - 1), Pow(b, y));
    }
  }

  lemma MulAssociative(a: int, b: int, c: int)
    ensures a * (b * c) == (a * b) * c
  {
  }

  lemma {:induction false} ChooseOutside(n: nat, k: nat)
    requires k > n
    ensures Choose(n, k) == 0
  {
    if n > 0 { ChooseOutside(n - 1, k - 1); ChooseOutside(n - 1, k); }
  }

  // ---------------------------------------------------------------- sets

  /** The integers a..b-1. */
  ghost function Range(a: int, b: int): (r: set<int>)
    ensures forall i :: i in r <==> a <= i < b
    ensures |r| == if a <= b then b - a else 0
    decreases b - a
  {
    if a >= b then {} else Range(a, b - 1) + {b - 1}
  }

  lemma AnyMember<T>(s: set<T>) returns (x: T)
    requires s != {}
    ensures x in s
  {
    x :| x in s;
  }

  lemma SubsetSize<T>(a: set<T>, b: set<T>)
    requires a <= b
    ensures |a| <= |b|
  {
    assert b == a + (b - a);
  }

  lemma SubsetSameSize<T>(a: set<T>, b: set<T>)
    requires a <= b && |a| == |b|
    ensures a == b
  {
    assert b == a + (b - a);
  }

  lemma DisjointUnionSize<T>(a: set<T>, b: set<T>)
    requires a !! b
    ensures |a + b| == |a| + |b|
  {
  }

  /** An injective map into b bounds |a| by |b|. */
  lemma {:induction false} InjectionSize<T, U>(a: set<T>, b: set<U>, f: T -> U)
    requires forall x :: x in a ==> f(x) in b
    requires forall x, y :: x in a && y in a && f(x) == f(y) ==> x == y
    ensures |a| <= |b|
    decreases |a|
  {
    if a != {} {
      var x :| x in a;
      InjectionSize(a - {x}, b - {f(x)}, f);
    }
  }

  /** A map into b with a left inverse bounds |a| by |b|. */
  lemma InverseSize<T, U>(a: set<T>, b: set<U>, f: T -> U, g: U -> T)
    requires forall x :: x in a ==> f(x) in b && g(f(x)) == x
    ensures |a| <= |b|
  {
    InjectionSize(a, b, f);
  }

  // ---------------------------------------------------------------- words

  /** All sequences of the given length over the given letters. */
  ghost function Words(len: nat, letters: set<nat>): set<seq<nat>> {
    if len == 0 then {[]} else Prepend(letters, Words(len - 1, letters))
  }

  ghost function Letters(size: nat): (r: set<nat>)
    ensures forall x: nat :: x in r <==> x < size
    ensures |r| == size
  {
    if size == 0 then {} else Letters(size - 1) + {size - 1}
  }

  ghost function Prepend(heads: set<nat>, tails: set<seq<nat>>): (r: set<seq<nat>>)
    ensures forall u :: u in r <==> u != [] && u[0] in heads && u[1..] in tails
  {
    var r := set x, w | x in heads && w in tails :: [x] + w;
    assert forall u :: u in r <==> u != [] && u[0] in heads && u[1..] in tails by {
      forall u | u != [] && u[0] in heads && u[1..] in tails ensures u in r {
        assert u == [u[0]] + u[1..];
      }
    }
    r
  }

  lemma {:induction false} PrependOneSize(x: nat, tails: set<seq<nat>>)
    ensures |Prepend({x}, tails)| == |tails|
    decreases |tails|
  {
    if tails == {} {
      assert Prepend({x}, tails) == {};
    } else {
      var w :| w in tails;
      PrependOneSize(x, tails - {w});
      PrependSplitTail(x, tails, w);
    }
  }

  lemma PrependSplitTail(x: nat, tails: set<seq<nat>>, w: seq<nat>)
    requires w in tails
    ensures Prepend({x}, tails) == Prepend({x}, tails - {w}) + {[x] + w}
    ensures [x] + w !in Prepend({x}, tails - {w})
  {
    assert ([x] + w)[1..] == w;
    forall u | u in Prepend({x}, tails) && u[1..] == w ensures u == [x] + w {
      assert u == [u[0]] + u[1..];
    }
  }

  lemma PrependSplitHead(heads: set<nat>, tails: set<seq<nat>>, x: nat)
    requires x in heads
    ensures |Prepend(heads, tails)| == |tails| + |Prepend(heads - {x}, tails)|
  {
    PrependOneSize(x, tails);
    var one, part := Prepend({x}, tails), Prepend(heads - {x}, tails);
    assert Prepend(heads, tails) == one + part;
    assert one !! part;
  }

  lemma {:induction false} PrependSize(heads: set<nat>, tails: set<seq<nat>>)
    ensures |Prepend(heads, tails)| == Times(|heads|, |tails|)
    decreases |heads|
  {
    if heads == {} {
      assert Prepend(heads, tails) == {};
    } else {
      var x :| x in heads;
      var rest := heads - {x};
      PrependSize(rest, tails);
      PrependSplitHead(heads, tails, x);
    }
  }

  lemma {:induction false} WordsAre(len: nat, letters: set<nat>, w: seq<nat>)
    ensures w in Words(len, letters) <==> |w| == len && forall i :: 0 <= i < len ==> w[i] in letters
  {
    if len > 0 && |w| > 0 {
      WordsAre(len - 1, letters, w[1..]);
    }
  }

  lemma {:induction false} WordsSize(len: nat, letters: set<nat>)
    ensures |Words(len, letters)| == Pow(|letters|, len)
  {
    if len > 0 {
      WordsSize(len - 1, letters);
      PrependSize(letters, Words(len - 1, letters));
      TimesIs(|letters|, Pow(|letters|, len - 1));
    }
  }

  // ---------------------------------------------------------------- hits

  /** How many letters of the word fall into c. */
  ghost function Hits(w: seq<nat>, c: set<nat>): nat {
    if w == [] then 0 else (if w[0] in c then 1 else 0) + Hits(w[1..], c)
  }

  ghost function Hitting(ws: set<seq<nat>>, c: set<nat>, j: int): set<seq<nat>> {
    set w | w in ws && Hits(w, c) == j
  }

  ghost function HittingBelow(ws: set<seq<nat>>, c: set<nat>, k: nat): set<seq<nat>> {
    set w | w in ws && Hits(w, c) < k
  }

  /** Words of length n with j hits, counted letter by letter. */
  ghost function HitCount(n: nat, c: nat, rest: nat, j: int): nat {
    if n == 0 then (if j == 0 then 1 else 0)
    else Times(c, HitCount(n - 1, c, rest, j - 1)) + Times(rest, HitCount(n - 1, c, rest, j))
  }

  function BinomialTerm(n: nat, c: nat, rest: nat, j: nat): nat {
    if j > n then 0 else Choose(n, j) * Pow(c, j) * Pow(rest, n - j)
  }

  /** The sum over j < k of Choose(n, j) * c^j * rest^(n - j). */
  function BinomialSum(n: nat, c: nat, rest: nat, k: nat): nat {
    if k == 0 then 0 else BinomialSum(n, c, rest, k - 1) + BinomialTerm(n, c, rest, k - 1)
  }

  lemma {:induction false} BinomialTermStep(n: nat, c: nat, rest: nat, j: nat)
    requires n > 0
    ensures BinomialTerm(n, c, rest, j)
         == (if j == 0 then 0 else c * BinomialTerm(n - 1, c, rest, j - 1))
          + rest * BinomialTerm(n - 1, c, rest, j)
  {
    if j > n {
    } else if j == 0 {
    } else {
      var p, q := Pow(c, j - 1), Pow(rest, n - j);
      assert Pow(c, j) == c * p;
      var x := c * BinomialTerm(n - 1, c, rest, j - 1);
      assert x == Choose(n - 1, j - 1) * (c * p) * q by {
        assert BinomialTerm(n - 1, c, rest, j - 1) == Choose(n - 1, j - 1) * p * q;
        MulSwap(c, Choose(n - 1, j - 1), p, q);
      }
      var y := rest * BinomialTerm(n - 1, c, rest, j);
      assert y == Choose(n - 1, j) * (c * p) * q by {
        if j > n - 1 {
          ChooseOutside(n - 1, j);
        } else {
          var t := Pow(rest, n - 1 - j);
          assert q == rest * t;
          assert BinomialTerm(n - 1, c, rest, j) == Choose(n - 1, j) * (c * p) * t;
          MulOut(rest, Choose(n - 1, j) * (c * p), t);
        }
      }
      Distribute(Choose(n - 1, j - 1), Choose(n - 1, j), c * p, q);
    }
  }

  lemma MulSwap(c: nat, a: nat, p: nat, q: nat)
    ensures c * (a * p * q) == a * (c * p) * q
  {
    assert c * (a * p * q) == c * (a * p) * q;
    assert c * (a * p) == a * (c * p);
  }

  lemma MulOut(r: nat, a: nat, t: nat)
    ensures r * (a * t) == a * (r * t)
  {
  }

  lemma Distribute(a: nat, b: nat, x: nat, y: nat)
    ensures a * x * y + b * x * y == (a + b) * x * y
  {
    assert a * x + b * x == (a + b) * x;
    assert (a * x) * y + (b * x) * y == (a * x + b * x) * y;
  }

  lemma {:induction false} HitCountNegative(n: nat, c: nat, rest: nat, j: int)
    requires j < 0
    ensures HitCount(n, c, rest, j) == 0
  {
    if n > 0 {
      HitCountNegative(n - 1, c, rest, j - 1);
      HitCountNegative(n - 1, c, rest, j);
      TimesIs(c, 0);
      TimesIs(rest, 0);
    }
  }

  lemma {:induction false} HitCountIs(n: nat, c: nat, rest: nat, j: nat)
    ensures HitCount(n, c, rest, j) == BinomialTerm(n, c, rest, j)
  {
    if n > 0 {
      HitCountIs(n - 1, c, rest, j);
      TimesIs(rest, HitCount(n - 1, c, rest, j));
      if j > 0 { HitCountIs(n - 1, c, rest, j - 1); } else { HitCountNegative(n - 1, c, rest, -1); }
      TimesIs(c, HitCount(n - 1, c, rest, j - 1));
      BinomialTermStep(n, c, rest, j);
    }
  }

  /** Words with exactly j hits in a subset c of the alphabet. */
  lemma {:induction false} HittingSize(len: nat, letters: set<nat>, c: set<nat>, j: int)
    requires c <= letters
    ensures |Hitting(Words(len, letters), c, j)| == HitCount(len, |c|, |letters - c|, j)
  {
    if len == 0 {
      HittingEmpty(c, j);
    } else {
      HittingSize(len - 1, letters, c, j);
      HittingSize(len - 1, letters, c, j - 1);
      HittingStep(letters, Words(len - 1, letters), c, j);
    }
  }

  lemma HittingEmpty(c: set<nat>, j: int)
    ensures |Hitting({[]}, c, j)| == if j == 0 then 1 else 0
  {
    assert Hitting({[]}, c, j) == if j == 0 then {[]} else {};
  }

  /** The words with j hits, counted by whether the first letter is a hit. */
  lemma HittingStep(letters: set<nat>, tails: set<seq<nat>>, c: set<nat>, j: int)
    requires c <= letters
    ensures |Hitting(Prepend(letters, tails), c, j)|
         == Times(|c|, |Hitting(tails, c, j - 1)|) + Times(|letters - c|, |Hitting(tails, c, j)|)
  {
    var hit, miss := Prepend(c, Hitting(tails, c, j - 1)), Prepend(letters - c, Hitting(tails, c, j));
    assert Hitting(Prepend(letters, tails), c, j) == hit + miss by {
      forall w { FirstLetter(letters, tails, c, j, w); }
    }
    assert hit !! miss;
    PrependSize(letters - c, Hitting(tails, c, j));
    PrependSize(c, Hitting(tails, c, j - 1));
  }

  lemma FirstLetter(letters: set<nat>, tails: set<seq<nat>>, c: set<nat>, j: int, w: seq<nat>)
    requires c <= letters
    ensures w in Hitting(Prepend(letters, tails), c, j)
       <==> w in Prepend(c, Hitting(tails, c, j - 1)) || w in Prepend(letters - c, Hitting(tails, c, j))
  {
  }

  ghost function HitSum(n: nat, c: nat, rest: nat, k: nat): nat {
    if k == 0 then 0 else HitSum(n, c, rest, k - 1) + HitCount(n, c, rest, k - 1)
  }

  lemma {:induction false} HitSumIs(n: nat, c: nat, rest: nat, k: nat)
    ensures HitSum(n, c, rest, k) == BinomialSum(n, c, rest, k)
  {
    if k > 0 {
      HitSumIs(n, c, rest, k - 1);
      HitCountIs(n, c, rest, k - 1);
    }
  }

  lemma {:induction false} HittingBelowHitSum(len: nat, letters: set<nat>, c: set<nat>, k: nat)
    requires c <= letters
    ensures |HittingBelow(Words(len, letters), c, k)| == HitSum(len, |c|, |letters - c|, k)
  {
    if k == 0 {
      assert HittingBelow(Words(len, letters), c, 0) == {};
    } else {
      HittingBelowHitSum(len, letters, c, k - 1);
      HittingSize(len, letters, c, k - 1);
      HittingBelowStep(Words(len, letters), c, k - 1);
    }
  }

  /** Words with fewer than k hits in a subset c of the alphabet. */
  lemma HittingBelowSize(len: nat, letters: set<nat>, c: set<nat>, k: nat)
    requires c <= letters
    ensures |HittingBelow(Words(len, letters), c, k)| == BinomialSum(len, |c|, |letters - c|, k)
  {
    HittingBelowHitSum(len, letters, c, k);
    HitSumIs(len, |c|, |letters - c|, k);
  }

  lemma HittingBelowStep(ws: set<seq<nat>>, c: set<nat>, k: nat)
    ensures |HittingBelow(ws, c, k + 1)| == |HittingBelow(ws, c, k)| + |Hitting(ws, c, k)|
  {
    assert HittingBelow(ws, c, k + 1) == HittingBelow(ws, c, k) + Hitting(ws, c, k);
    DisjointUnionSize(HittingBelow(ws, c, k), Hitting(ws, c, k));
  }

  lemma {:induction false} HitsAtMost(w: seq<nat>, c: set<nat>)
    ensures Hits(w, c) <= |w|
  {
    if w != [] { HitsAtMost(w[1..], c); }
  }

  /** The whole binomial sum is the number of all words. */
  lemma BinomialTheorem(n: nat, c: nat, rest: nat, k: nat)
    requires k > n
    ensures BinomialSum(n, c, rest, k) == Pow(c + rest, n)
  {
    var letters, some := Letters(c + rest), Letters(c);
    assert letters == some + (letters - some);
    HittingBelowSize(n, letters, some, k);
    assert HittingBelow(Words(n, letters), some, k) == Words(n, letters) by {
      forall w | w in Words(n, letters) ensures Hits(w, some) < k {
        WordsAre(n, letters, w);
        HitsAtMost(w, some);
      }
    }
    WordsSize(n, letters);
  }
}
