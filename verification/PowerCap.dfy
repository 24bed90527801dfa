/** The power cap of a sampled circular plan: how many of its draw sequences can reject at all. */
module PowerCap {
  import opened Wrappers
  import opened Counting
  import opened Contracts
  import opened Circular
  import opened Plans
  import opened ExactOracle
  import opened Attainability
  import opened Collisions

  // ---------------------------------------------------------------- a run over drawn indices

  /** What the state drawn by an index decides. */
  function Drawn(t: seq<Option<real>>, minShift: nat, index: nat): Option<real> {
    var s := ShiftOfIndex(index, minShift);
    if s < |t| then t[s] else None
  }

  /** The exceedances of a run whose replicates draw the given indices. */
  function DrawExceedances(t: seq<Option<real>>, minShift: nat, draws: seq<nat>): (e: nat)
    requires t != []
    ensures e <= |draws|
  {
    if draws == [] then 0
    else (if Reaches(Drawn(t, minShift, draws[0]), t[0].GetOr(0.0)) then 1 else 0)
         + DrawExceedances(t, minShift, draws[1..])
  }

  predicate AllDrawn(t: seq<Option<real>>, minShift: nat, draws: seq<nat>) {
    forall i :: 0 <= i < |draws| ==> Drawn(t, minShift, draws[i]).Some?
  }

  /** A run rejects when it completes and its p-value does not exceed alpha. */
  predicate DrawsReject(div: Division, alpha: real, t: seq<Option<real>>, minShift: nat, draws: seq<nat>)
    requires t != []
  {
    && t[0].Some? && AllDrawn(t, minShift, draws)
    && Rejects(div, alpha, |draws|, DrawExceedances(t, minShift, draws))
  }

  // ---------------------------------------------------------------- unavoidable indices

  /** The indices that stand for the given shifts. */
  ghost function IndexSet(shifts: set<int>, states: nat, minShift: nat): set<nat> {
    set x | x in Letters(states) && ShiftOfIndex(x, minShift) in shifts
  }

  ghost predicate InSpace(shifts: set<int>, n: nat, minShift: nat) {
    forall s :: s in shifts ==> InStateSpace(s, n, minShift)
  }

  lemma IndexSetStep(shifts: set<int>, n: nat, minShift: nat, s: int)
    requires 1 <= minShift && 2 * minShift <= n && InSpace(shifts, n, minShift) && s in shifts
    ensures |IndexSet(shifts, StateCount(n, minShift), minShift)|
         == |IndexSet(shifts - {s}, StateCount(n, minShift), minShift)| + 1
  {
    var states := StateCount(n, minShift);
    var x: nat := if s == 0 then 0 else s - minShift + 1;
    assert ShiftOfIndex(x, minShift) == s;
    assert IndexSet(shifts, states, minShift) == IndexSet(shifts - {s}, states, minShift) + {x};
  }

  lemma {:induction false} IndexSetSize(shifts: set<int>, n: nat, minShift: nat)
    requires 1 <= minShift && 2 * minShift <= n && InSpace(shifts, n, minShift)
    ensures |IndexSet(shifts, StateCount(n, minShift), minShift)| == |shifts|
    decreases |shifts|
  {
    if shifts == {} {
      assert IndexSet(shifts, StateCount(n, minShift), minShift) == {};
    } else {
      var s := AnyMember(shifts);
      IndexSetSize(shifts - {s}, n, minShift);
      IndexSetStep(shifts, n, minShift, s);
    }
  }

  lemma {:induction false} SubsetOfSize(a: set<nat>, c: nat) returns (b: set<nat>)
    requires c <= |a|
    ensures b <= a && |b| == c
    decreases |a|
  {
    b := a;
    if c < |a| {
      var x :| x in a;
      b := SubsetOfSize(a - {x}, c);
    }
  }

  /** Every draw of a set of indices that decides is an exceedance. */
  ghost predicate AllHit(t: seq<Option<real>>, minShift: nat, indices: set<nat>)
    requires t != []
  {
    forall x :: x in indices ==>
      (t[0].Some? && Drawn(t, minShift, x).Some? ==> Reaches(Drawn(t, minShift, x), t[0].GetOr(0.0)))
  }

  lemma {:induction false} HitsAreExceedances(t: seq<Option<real>>, minShift: nat, indices: set<nat>, draws: seq<nat>)
    requires t != [] && t[0].Some? && AllHit(t, minShift, indices) && AllDrawn(t, minShift, draws)
    ensures Hits(draws, indices) <= DrawExceedances(t, minShift, draws)
  {
    if draws != [] {
      HitsAreExceedances(t, minShift, indices, draws[1..]);
      assert Drawn(t, minShift, draws[0]).Some?;
    }
  }

  ghost function RejectingDraws(
    div: Division, alpha: real, t: seq<Option<real>>, minShift: nat, replicates: nat, states: nat): set<seq<nat>>
    requires t != []
  {
    set w | w in Words(replicates, Letters(states)) && DrawsReject(div, alpha, t, minShift, w)
  }

  lemma RejectingHasFewHits(
    div: Division, alpha: real, t: seq<Option<real>>, minShift: nat, indices: set<nat>, w: seq<nat>)
    requires div.Sound() && t != [] && AllHit(t, minShift, indices) && DrawsReject(div, alpha, t, minShift, w)
    ensures Hits(w, indices) < Allowed(div, alpha, |w|)
  {
    HitsAreExceedances(t, minShift, indices, w);
    AllowedIs(div, alpha, |w|);
  }

  /** With c unavoidable indices, a draw sequence rejects only with fewer than k hits among them. */
  lemma CapFromIndices(
    div: Division, alpha: real, t: seq<Option<real>>, minShift: nat, replicates: nat, states: nat, indices: set<nat>)
    requires div.Sound() && t != [] && AllHit(t, minShift, indices) && indices <= Letters(states)
    ensures |RejectingDraws(div, alpha, t, minShift, replicates, states)|
         <= BinomialSum(replicates, |indices|, |Letters(states) - indices|, Allowed(div, alpha, replicates))
  {
    var letters, k := Letters(states), Allowed(div, alpha, replicates);
    var rejecting := RejectingDraws(div, alpha, t, minShift, replicates, states);
    forall w | w in rejecting ensures w in HittingBelow(Words(replicates, letters), indices, k) {
      WordsAre(replicates, letters, w);
      RejectingHasFewHits(div, alpha, t, minShift, indices, w);
    }
    SubsetSize(rejecting, HittingBelow(Words(replicates, letters), indices, k));
    HittingBelowSize(replicates, letters, indices, k);
  }

  lemma ComplementSize(letters: set<nat>, some: set<nat>)
    requires some <= letters
    ensures |letters - some| == |letters| - |some|
  {
    assert letters == some + (letters - some);
  }

  // ---------------------------------------------------------------- the cap of a plan

  /** The draw sequences on which a sampled circular plan rejects data with the given decisions. */
  ghost function PlanRejects(div: Division, plan: Plan, t: seq<Option<real>>): set<seq<nat>>
    requires PlanOk(plan) && t != [] && 2 * plan.nullParameter <= |t|
  {
    RejectingDraws(div, plan.alpha, t, plan.nullParameter, plan.replicates, StateCount(|t|, plan.nullParameter))
  }

  lemma ReachingIndicesHit(t: seq<Option<real>>, minShift: nat, shifts: set<int>, states: nat)
    requires t != [] && AllReach(t, minShift, shifts)
    ensures AllHit(t, minShift, IndexSet(shifts, states, minShift))
  {
  }

  /** As many unavoidable indices as the plan report counts. */
  lemma UnavoidableIndices(
    plan: Plan, adapter: Adapter, estimate: Estimator, source: seq<real>, target: seq<real>)
    returns (indices: set<nat>)
    requires PlanOk(plan) && Bindable(plan, adapter, source, target)
    requires Lagged(adapter, plan.candidates, estimate) && 2 * plan.nullParameter <= |source|
    ensures indices <= Letters(StateCount(|source|, plan.nullParameter))
    ensures |indices| == Colliding(plan.candidates, plan.candidates, |source|, plan.nullParameter)
    ensures AllHit(DecisionTable(plan, adapter, source, target), plan.nullParameter, indices)
  {
    var n, m, t := |source|, plan.nullParameter, DecisionTable(plan, adapter, source, target);
    var star := CollidingStatesReach(plan, adapter, estimate, source, target, m);
    var shifts := CollisionShifts(plan.candidates, plan.candidates[star], n, m);
    CollidingStatesMany(plan, n, m, star);
    IndexSetSize(shifts, n, m);
    ReachingIndicesHit(t, m, shifts, StateCount(n, m));
    indices := SubsetOfSize(IndexSet(shifts, StateCount(n, m), m), Colliding(plan.candidates, plan.candidates, n, m));
  }

  lemma CapFromSize(div: Division, plan: Plan, t: seq<Option<real>>, n: nat, indices: set<nat>)
    requires div.Sound() && PlanOk(plan) && |t| == n && n > 0 && 2 * plan.nullParameter <= n
    requires AllHit(t, plan.nullParameter, indices) && indices <= Letters(PlanStates(plan, n))
    requires |indices| == Unavoidable(plan, n)
    ensures Unavoidable(plan, n) <= PlanStates(plan, n)
    ensures |PlanRejects(div, plan, t)| <= CapCount(div, plan, n)
  {
    CapFromIndices(div, plan.alpha, t, plan.nullParameter, plan.replicates, PlanStates(plan, n), indices);
    ComplementSize(Letters(PlanStates(plan, n)), indices);
  }

  /** For every data set, at most the counted draw sequences can reject. */
  lemma PowerCapHolds(
    div: Division, plan: Plan, adapter: Adapter, estimate: Estimator, source: seq<real>, target: seq<real>)
    requires div.Sound() && PlanOk(plan) && Bindable(plan, adapter, source, target)
    requires Lagged(adapter, plan.candidates, estimate) && 2 * plan.nullParameter <= |source|
    ensures Unavoidable(plan, |source|) <= PlanStates(plan, |source|)
    ensures |PlanRejects(div, plan, DecisionTable(plan, adapter, source, target))| <= CapCount(div, plan, |source|)
  {
    var indices := UnavoidableIndices(plan, adapter, estimate, source, target);
    CapFromSize(div, plan, DecisionTable(plan, adapter, source, target), |source|, indices);
  }
}
