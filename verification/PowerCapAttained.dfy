/** When the power cap is attained: exactly the unavoidable collisions reach the observed decision. */
module PowerCapAttained {
  import opened Wrappers
  import opened Arithmetic
  import opened Counting
  import opened Contracts
  import opened Circular
  import opened Plans
  import opened ExactOracle
  import opened Attainability
  import opened PowerCap

  /** Some candidate collides with star's at shift s. */
  predicate Collides(plan: Plan, n: nat, star: nat, s: int)
    requires n > 0 && star < |plan.candidates|
  {
    exists i :: 0 <= i < |plan.candidates| && s == Wrap(plan.candidates[star] - plan.candidates[i], n)
  }

  // ---------------------------------------------------------------- counting the rejecting draws

  /** The given indices are exactly those whose state reaches the observed decision, and every state decides. */
  ghost predicate ExactlyHit(t: seq<Option<real>>, minShift: nat, states: nat, indices: set<nat>)
    requires t != []
  {
    && t[0].Some? && indices <= Letters(states)
    && forall x: nat :: x < states ==>
         Drawn(t, minShift, x).Some? && (Reaches(Drawn(t, minShift, x), t[0].GetOr(0.0)) <==> x in indices)
  }

  lemma {:induction false} ExceedancesAreHits(
    t: seq<Option<real>>, minShift: nat, states: nat, indices: set<nat>, w: seq<nat>)
    requires t != [] && ExactlyHit(t, minShift, states, indices)
    requires forall i :: 0 <= i < |w| ==> w[i] < states
    ensures AllDrawn(t, minShift, w) && DrawExceedances(t, minShift, w) == Hits(w, indices)
  {
    if w != [] { ExceedancesAreHits(t, minShift, states, indices, w[1..]); }
  }

  lemma RejectsIffFewHits(
    div: Division, alpha: real, t: seq<Option<real>>, minShift: nat, states: nat, indices: set<nat>, w: seq<nat>)
    requires div.Sound() && t != [] && ExactlyHit(t, minShift, states, indices)
    requires forall i :: 0 <= i < |w| ==> w[i] < states
    ensures DrawsReject(div, alpha, t, minShift, w) <==> Hits(w, indices) < Allowed(div, alpha, |w|)
  {
    ExceedancesAreHits(t, minShift, states, indices, w);
    AllowedIs(div, alpha, |w|);
  }

  lemma ExactCap(
    div: Division, alpha: real, t: seq<Option<real>>, minShift: nat, replicates: nat, states: nat, indices: set<nat>)
    requires div.Sound() && t != [] && ExactlyHit(t, minShift, states, indices)
    ensures |RejectingDraws(div, alpha, t, minShift, replicates, states)|
         == BinomialSum(replicates, |indices|, |Letters(states) - indices|, Allowed(div, alpha, replicates))
  {
    var k, words := Allowed(div, alpha, replicates), Words(replicates, Letters(states));
    var rejecting, few := RejectingDraws(div, alpha, t, minShift, replicates, states), HittingBelow(words, indices, k);
    forall w ensures w in rejecting <==> w in few {
      WordsAre(replicates, Letters(states), w);
      if w in words { RejectsIffFewHits(div, alpha, t, minShift, states, indices, w); }
    }
    assert rejecting == few;
    HittingBelowSize(replicates, Letters(states), indices, k);
  }

  /** Every state decides, and exactly the collision shifts reach the observed decision. */
  predicate Detects(plan: Plan, star: nat, t: seq<Option<real>>)
    requires star < |plan.candidates|
  {
    t != [] && forall s :: 0 <= s < |t| ==>
      t[s].Some? && (Reaches(t[s], t[0].GetOr(0.0)) <==> Collides(plan, |t|, star, s))
  }

  lemma TableExactlyHit(plan: Plan, star: nat, t: seq<Option<real>>, m: nat, shifts: set<int>)
    requires star < |plan.candidates| && 1 <= m && 2 * m <= |t| && Detects(plan, star, t)
    requires shifts == CollisionShifts(plan.candidates, plan.candidates[star], |t|, m)
    ensures ExactlyHit(t, m, StateCount(|t|, m), IndexSet(shifts, StateCount(|t|, m), m))
  {
    forall x: nat | x < StateCount(|t|, m)
      ensures Drawn(t, m, x).Some?
      ensures Reaches(Drawn(t, m, x), t[0].GetOr(0.0)) <==> ShiftOfIndex(x, m) in shifts
    {
      CollisionShiftsAre(plan.candidates, plan.candidates[star], |t|, m, ShiftOfIndex(x, m));
    }
  }

  /** The candidate with the fewest collisions, and its collision shifts. */
  lemma FewestCollisions(plan: Plan, n: nat, m: nat) returns (star: nat)
    requires PlanOk(plan) && MaxLag(plan.candidates) < n
    ensures star < |plan.candidates|
    ensures var shifts := CollisionShifts(plan.candidates, plan.candidates[star], n, m);
      |shifts| == Colliding(plan.candidates, plan.candidates, n, m) && InSpace(shifts, n, m)
  {
    star :| 0 <= star < |plan.candidates|
            && Colliding(plan.candidates, plan.candidates, n, m)
               == CollidingWith(plan.candidates, plan.candidates[star], n, m);
    CollisionShiftsSize(plan.candidates, plan.candidates[star], n, m);
    forall s | s in CollisionShifts(plan.candidates, plan.candidates[star], n, m) ensures InStateSpace(s, n, m) {
      CollisionShiftsAre(plan.candidates, plan.candidates[star], n, m, s);
    }
  }

  lemma AttainedOn(
    div: Division, plan: Plan, star: nat, t: seq<Option<real>>, shifts: set<int>, n: nat, c: nat, states: int)
    requires div.Sound() && PlanOk(plan) && star < |plan.candidates| && |t| == n && 2 * plan.nullParameter <= n
    requires Detects(plan, star, t) && InSpace(shifts, n, plan.nullParameter) && |shifts| == c
    requires shifts == CollisionShifts(plan.candidates, plan.candidates[star], n, plan.nullParameter)
    requires states == PlanStates(plan, n)
    ensures c <= states
    ensures |PlanRejects(div, plan, t)|
         == BinomialSum(plan.replicates, c, states - c, Allowed(div, plan.alpha, plan.replicates))
  {
    IndexSetSize(shifts, n, plan.nullParameter);
    TableExactlyHit(plan, star, t, plan.nullParameter, shifts);
    var indices := IndexSet(shifts, states, plan.nullParameter);
    ExactCap(div, plan.alpha, t, plan.nullParameter, plan.replicates, states, indices);
    ComplementSize(Letters(states), indices);
  }

  lemma CapCountIs(div: Division, plan: Plan, n: nat, c: nat, states: int, size: nat)
    requires PlanOk(plan) && n > 0 && 2 * plan.nullParameter <= n
    requires c == Unavoidable(plan, n) <= states == PlanStates(plan, n)
    requires size == BinomialSum(plan.replicates, c, states - c, Allowed(div, plan.alpha, plan.replicates))
    ensures size == CapCount(div, plan, n)
  {
  }
}
