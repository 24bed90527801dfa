/** Circular shifts of the source, lag slices on the common support, and the shift state space. */
module Circular {
  import opened Arithmetic
  import opened Counting

  // ---------------------------------------------------------------- shifts

  function Rotate(source: seq<real>, shift: int): (r: seq<real>)
    ensures |r| == |source|
  {
    seq(|source|, i requires 0 <= i < |source| => source[Wrap(i - shift, |source|)])
  }

  /** Fills a new source by index, as the oracle and the null both do. */
  method CircularPair(source: array<real>, shift: int) returns (r: array<real>)
    ensures fresh(r) && r[..] == Rotate(source[..], shift)
  {
    r := new real[source.Length];
    for index := 0 to r.Length
      invariant forall k :: 0 <= k < index ==> r[k] == Rotate(source[..], shift)[k]
    {
      WrapIs(index - shift, source.Length);
      r[index] := source[(index - shift) % source.Length];
    }
  }

  /** The source values paired with the target tail at one lag. */
  function LagSlice(source: seq<real>, maxLag: nat, lag: int): (r: seq<real>)
    requires 0 < lag <= maxLag < |source|
    ensures |r| == |source| - maxLag
  {
    source[maxLag - lag..|source| - lag]
  }

  /** Shifting by the lag difference puts lag's slice where the other lag's slice was observed. */
  lemma ShiftMapsLag(source: seq<real>, maxLag: nat, observed: int, lag: int)
    requires 0 < lag <= maxLag < |source| && 0 < observed <= maxLag
    ensures LagSlice(Rotate(source, Wrap(observed - lag, |source|)), maxLag, lag) == LagSlice(source, maxLag, observed)
  {
    var n := |source|;
    var s := Wrap(observed - lag, n);
    forall t | 0 <= t < n - maxLag
      ensures LagSlice(Rotate(source, s), maxLag, lag)[t] == LagSlice(source, maxLag, observed)[t]
    {
      WrapNear(observed - lag, n);
      WrapNear(maxLag - lag + t - s, n);
    }
  }

  function Compose(a: int, b: int, n: nat): int
    requires n > 0
  {
    Wrap(a + b, n)
  }

  lemma RotateZero(source: seq<real>)
    ensures Rotate(source, 0) == source
  {
    forall i | 0 <= i < |source| ensures Rotate(source, 0)[i] == source[i] {
      assert Wrap(i - 0, |source|) == i;
    }
  }

  /** Shifts compose by adding modulo the length. */
  lemma RotateCompose(source: seq<real>, a: nat, b: nat)
    requires a < |source| && b < |source|
    ensures Rotate(Rotate(source, a), b) == Rotate(source, Compose(a, b, |source|))
  {
    var n := |source|;
    forall i | 0 <= i < n ensures Rotate(Rotate(source, a), b)[i] == Rotate(source, Compose(a, b, n))[i] {
      assert Wrap(Wrap(i - b, n) - a, n) == Wrap(i - Wrap(a + b, n), n);
    }
  }

  // ---------------------------------------------------------------- the state space

  /** The identity and the admitted shifts, as attainability tests them. */
  predicate InStateSpace(shift: int, n: int, minShift: int) {
    shift == 0 || minShift <= shift <= n - minShift
  }

  ghost function StateSet(n: nat, minShift: nat): (s: set<int>)
    ensures forall x :: x in s <==> InStateSpace(x, n, minShift)
  {
    {0} + Range(minShift, n - minShift + 1)
  }

  function StateCount(n: int, minShift: int): int {
    n - 2 * minShift + 2
  }

  lemma StatesSize(n: nat, minShift: nat)
    requires 1 <= minShift && 2 * minShift <= n
    ensures |StateSet(n, minShift)| == StateCount(n, minShift)
  {
    assert 0 !in Range(minShift, n - minShift + 1);
  }

  /** The shift a sampled index stands for. */
  function ShiftOfIndex(index: nat, minShift: nat): nat {
    if index == 0 then 0 else minShift + index - 1
  }

  /** Composing two states gives a state. */
  ghost predicate Closed(n: nat, minShift: nat)
    requires n > 0
  {
    forall a, b {:trigger Compose(a, b, n)} :: InStateSpace(a, n, minShift) && InStateSpace(b, n, minShift) ==>
      InStateSpace(Compose(a, b, n), n, minShift)
  }

  /** The shift spaces ClosedIff shows to be groups. */
  predicate Group(n: nat, minShift: nat) {
    1 <= minShift && 2 * minShift <= n && (minShift == 1 || n == 2 * minShift)
  }

  /** The state space is a group exactly for min_shift 1 and for the single half-turn. */
  lemma ClosedIff(n: nat, minShift: nat)
    requires 1 <= minShift && 2 * minShift <= n
    ensures Closed(n, minShift) <==> Group(n, minShift)
  {
    if Group(n, minShift) {
      forall a, b {:trigger Compose(a, b, n)} | InStateSpace(a, n, minShift) && InStateSpace(b, n, minShift)
        ensures InStateSpace(Compose(a, b, n), n, minShift)
      {
        WrapNear(a + b, n);
      }
    } else {
      WrapNear(n + 1, n);
      assert Compose(n - minShift, minShift + 1, n) == 1;
    }
  }

  /** Where the state space is a group, two states differ by a state. */
  lemma StateDifference(a: int, b: int, n: nat, minShift: nat)
    requires Group(n, minShift)
    requires InStateSpace(a, n, minShift) && InStateSpace(b, n, minShift)
    ensures InStateSpace(Wrap(b - a, n), n, minShift) && Compose(a, Wrap(b - a, n), n) == b
  {
    WrapNear(b - a, n);
    WrapNear(a + Wrap(b - a, n), n);
  }

  // ---------------------------------------------------------------- ranks on an orbit

  /** The states whose shift of the data already shifted by r scores at least as high; t lists the scores by shift. */
  ghost function AtLeast(t: seq<real>, minShift: nat, r: int): set<int>
    requires 0 <= r < |t|
  {
    set s | s in StateSet(|t|, minShift) && t[Compose(r, s, |t|)] >= t[r]
  }

  ghost function Rank(t: seq<real>, minShift: nat, r: int): nat
    requires 0 <= r < |t|
  {
    |AtLeast(t, minShift, r)|
  }

  /** The shifts of the data within the state space whose rank is at most k. */
  ghost function RankedWithin(t: seq<real>, minShift: nat, k: nat): set<int> {
    set r | r in StateSet(|t|, minShift) && 0 <= r < |t| && Rank(t, minShift, r) <= k
  }

  /** At every level, no more than k members of the orbit reach rank k. */
  ghost predicate OrbitValid(n: nat, minShift: nat) {
    forall t: seq<real>, k: nat :: |t| == n ==> |RankedWithin(t, minShift, k)| <= k
  }

  ghost predicate AllAbove(t: seq<real>, minShift: nat, low: int, rs: set<int>)
    requires 0 <= low < |t|
  {
    forall r :: r in rs ==> InStateSpace(r, |t|, minShift) && 0 <= r < |t| && t[low] <= t[r]
  }

  lemma LowestMember(t: seq<real>, rs: set<int>, some: int) returns (low: int)
    requires some in rs && forall r :: r in rs ==> 0 <= r < |t|
    ensures low in rs && forall r :: r in rs ==> t[low] <= t[r]
    decreases |rs|
  {
    low := some;
    var rest := rs - {some};
    if next :| next in rest {
      var other := LowestMember(t, rest, next);
      if t[other] < t[some] { low := other; }
    }
    forall r | r in rs ensures t[low] <= t[r] {
      if r != some { assert r in rest; }
    }
  }

  /** Distinct positions lie at distinct differences from low. */
  lemma {:induction false} DifferencesSize(rs: set<int>, differences: set<int>, low: int, n: nat)
    requires 0 <= low < n && forall r :: r in rs ==> 0 <= r < n && Wrap(r - low, n) in differences
    ensures |rs| <= |differences|
    decreases |rs|
  {
    if r :| r in rs {
      var rest := rs - {r};
      forall q | q in rest ensures Wrap(q - low, n) in differences - {Wrap(r - low, n)} {
        WrapNear(q - low, n);
        WrapNear(r - low, n);
      }
      DifferencesSize(rest, differences - {Wrap(r - low, n)}, low, n);
    } else {
      assert rs == {};
    }
  }

  lemma DifferenceReaches(t: seq<real>, minShift: nat, low: int, r: int)
    requires Group(|t|, minShift) && 0 <= low < |t| && 0 <= r < |t|
    requires InStateSpace(low, |t|, minShift) && InStateSpace(r, |t|, minShift) && t[low] <= t[r]
    ensures Wrap(r - low, |t|) in AtLeast(t, minShift, low)
  {
    StateDifference(low, r, |t|, minShift);
  }

  lemma RankAboveLow(t: seq<real>, minShift: nat, low: int, rs: set<int>)
    requires Group(|t|, minShift) && 0 <= low < |t|
    requires InStateSpace(low, |t|, minShift) && AllAbove(t, minShift, low, rs)
    ensures |rs| <= Rank(t, minShift, low)
  {
    var above := AtLeast(t, minShift, low);
    forall r | r in rs ensures 0 <= r < |t| && Wrap(r - low, |t|) in above {
      DifferenceReaches(t, minShift, low, r);
    }
    DifferencesSize(rs, above, low, |t|);
  }

  lemma RankBound(t: seq<real>, minShift: nat, k: nat)
    requires Group(|t|, minShift)
    ensures |RankedWithin(t, minShift, k)| <= k
  {
    var rs := RankedWithin(t, minShift, k);
    if some :| some in rs {
      var low := LowestMember(t, rs, some);
      assert AllAbove(t, minShift, low, rs);
      RankAboveLow(t, minShift, low, rs);
    } else {
      assert rs == {};
    }
  }

  /** Every position but two neighbouring ones lies below position r. */
  predicate Below(t: seq<real>, minShift: nat, r: int)
    requires 0 <= r < |t|
  {
    forall x :: 0 <= x < |t| && x != minShift && x != minShift + 1 ==> t[x] < t[r]
  }

  /** A peak is compared with no neighbouring peak when 1 is not a state. */
  lemma PeakAlone(t: seq<real>, minShift: nat, r: int)
    requires 2 <= minShift && 2 * minShift < |t| && (r == minShift || r == minShift + 1) && Below(t, minShift, r)
    ensures Rank(t, minShift, r) == 1
  {
    var above := AtLeast(t, minShift, r);
    forall s ensures s in above <==> s in {0} {
      if InStateSpace(s, |t|, minShift) { WrapNear(r + s, |t|); }
    }
    assert above == {0};
  }

  function TwoPeaks(n: nat, minShift: nat): (t: seq<real>)
    ensures |t| == n
  {
    seq(n, s => if s == minShift || s == minShift + 1 then 1.0 else 0.0)
  }

  /** Two neighbouring states beat everything they are compared with when 1 is not a state. */
  lemma NeighboursViolate(n: nat, minShift: nat)
    requires 2 <= minShift && 2 * minShift < n
    ensures |RankedWithin(TwoPeaks(n, minShift), minShift, 1)| >= 2
  {
    var t := TwoPeaks(n, minShift);
    PeakAlone(t, minShift, minShift);
    PeakAlone(t, minShift, minShift + 1);
    hide Rank;
    SubsetSize({minShift as int, minShift + 1}, RankedWithin(t, minShift, 1));
  }

  /** Enumerating the states gives a valid rank test on the orbit exactly when they form a group. */
  lemma OrbitValidIff(n: nat, minShift: nat)
    requires 1 <= minShift && 2 * minShift <= n
    ensures OrbitValid(n, minShift) <==> Group(n, minShift)
  {
    if Group(n, minShift) {
      forall t: seq<real>, k: nat | |t| == n ensures |RankedWithin(t, minShift, k)| <= k {
        RankBound(t, minShift, k);
      }
    } else {
      NeighboursViolate(n, minShift);
    }
  }

  // ---------------------------------------------------------------- collisions

  /** Lags whose collision with the selected lag lies in the state space, counted as attainability does. */
  function CollidingWith(candidates: seq<int>, selected: int, n: nat, minShift: nat): (c: nat)
    requires n > 0
    ensures c <= |candidates|
  {
    if candidates == [] then 0
    else
      var last := candidates[|candidates| - 1];
      CollidingWith(candidates[..|candidates| - 1], selected, n, minShift)
      + if InStateSpace(Wrap(selected - last, n), n, minShift) then 1 else 0
  }

  /** The least number of collisions over the lags that may be selected. */
  function Colliding(candidates: seq<int>, family: seq<int>, n: nat, minShift: nat): (c: nat)
    requires candidates != [] && n > 0
    ensures forall i :: 0 <= i < |candidates| ==> c <= CollidingWith(family, candidates[i], n, minShift)
    ensures exists i :: 0 <= i < |candidates| && c == CollidingWith(family, candidates[i], n, minShift)
  {
    var last := |candidates| - 1;
    var here := CollidingWith(family, candidates[last], n, minShift);
    if last == 0 then here
    else
      var before := Colliding(candidates[..last], family, n, minShift);
      assert forall i :: 0 <= i < last ==> candidates[i] == candidates[..last][i];
      assert before < here ==> exists i ::
        0 <= i < last && before == CollidingWith(family, candidates[..last][i], n, minShift)
        && candidates[..last][i] == candidates[i];
      if here <= before then here else before
  }

  /** The colliding shifts themselves. */
  ghost function CollisionShifts(candidates: seq<int>, selected: int, n: nat, minShift: nat): set<int>
    requires n > 0
  {
    if candidates == [] then {}
    else
      var shift := Wrap(selected - candidates[|candidates| - 1], n);
      CollisionShifts(candidates[..|candidates| - 1], selected, n, minShift)
      + if InStateSpace(shift, n, minShift) then {shift} else {}
  }

  lemma {:induction false} CollisionShiftsAre(candidates: seq<int>, selected: int, n: nat, minShift: nat, x: int)
    requires n > 0
    ensures x in CollisionShifts(candidates, selected, n, minShift)
       <==> InStateSpace(x, n, minShift)
            && exists i :: 0 <= i < |candidates| && x == Wrap(selected - candidates[i], n)
  {
    if candidates != [] {
      var last := |candidates| - 1;
      CollisionShiftsAre(candidates[..last], selected, n, minShift, x);
      assert forall i :: 0 <= i < last ==> candidates[i] == candidates[..last][i];
    }
  }

  /** Distinct lags below the length collide at distinct shifts, so counting lags counts shifts. */
  lemma {:induction false} CollisionShiftsSize(candidates: seq<int>, selected: int, n: nat, minShift: nat)
    requires forall i :: 0 <= i < |candidates| ==> 0 < candidates[i] < n
    requires forall i, j :: 0 <= i < j < |candidates| ==> candidates[i] != candidates[j]
    requires 0 < selected < n
    ensures |CollisionShifts(candidates, selected, n, minShift)| == CollidingWith(candidates, selected, n, minShift)
  {
    if candidates != [] {
      var last := |candidates| - 1;
      var shift := Wrap(selected - candidates[last], n);
      CollisionShiftsSize(candidates[..last], selected, n, minShift);
      CollisionShiftsAre(candidates[..last], selected, n, minShift, shift);
      WrapNear(selected - candidates[last], n);
      forall i | 0 <= i < last ensures Wrap(selected - candidates[..last][i], n) != shift {
        WrapNear(selected - candidates[i], n);
      }
    }
  }
}
