/** Lag collisions: shifts that carry one lag's slice onto another reproduce the observed maximum. */
module Collisions {
  import opened Wrappers
  import opened Arithmetic
  import opened Counting
  import opened Contracts
  import opened Selection
  import opened Circular
  import opened Plans
  import opened ExactOracle

  /** The vector behind a decision is fully estimated, the decision bounds its scores and some candidate attains it. */
  lemma DecisionMeaning(plan: Plan, adapter: Adapter, source: seq<real>, target: seq<real>) returns (star: nat)
    requires Canonical(plan.candidates) && Decision(plan, adapter, source, target).Some?
    ensures var v, d := adapter.evaluate(source, target), Decision(plan, adapter, source, target).value;
      && |v| == |plan.candidates| > star && AllEstimated(v)
      && (forall i :: 0 <= i < |v| ==> Score(plan.rule, v[i].estimate.value) <= d)
      && Score(plan.rule, v[star].estimate.value) == d
  {
    var v := adapter.evaluate(source, target);
    RawVectorEstimated(v, plan.candidates);
    var scores := Scores(v, plan.rule);
    SelectionMeaning(plan.candidates, scores, plan.tieTolerance);
    star :| 0 <= star < |scores| && scores[star] == MaxOf(scores);
  }

  /** The pair is long enough for the statistic to bind. */
  predicate Bindable(plan: Plan, adapter: Adapter, source: seq<real>, target: seq<real>)
    requires Canonical(plan.candidates)
  {
    |source| == |target| && adapter.minSupport >= 1 && |source| >= MaxLag(plan.candidates) + adapter.minSupport
  }

  /** Shifting by star's lag minus another lag gives that candidate star's observed estimate. */
  lemma CollisionEstimate(
    plan: Plan, adapter: Adapter, estimate: Estimator, source: seq<real>, target: seq<real>, star: nat, i: nat)
    requires Canonical(plan.candidates) && Bindable(plan, adapter, source, target)
    requires Lagged(adapter, plan.candidates, estimate) && star < |plan.candidates| && i < |plan.candidates|
    ensures var s := Wrap(plan.candidates[star] - plan.candidates[i], |source|);
      var v, w := adapter.evaluate(source, target), adapter.evaluate(Rotate(source, s), target);
      |v| == |plan.candidates| && |w| == |plan.candidates| ==> w[i].estimate == v[star].estimate
  {
    ShiftMapsLag(source, MaxLag(plan.candidates), plan.candidates[star], plan.candidates[i]);
  }

  /** A decided colliding shift reaches the observed decision, for every rule, tolerance and data set. */
  lemma CollisionReaches(
    plan: Plan, adapter: Adapter, estimate: Estimator, source: seq<real>, target: seq<real>, star: nat, i: nat)
    requires Canonical(plan.candidates) && Bindable(plan, adapter, source, target)
    requires Lagged(adapter, plan.candidates, estimate) && star < |plan.candidates| && i < |plan.candidates|
    requires Decision(plan, adapter, source, target).Some?
    requires var v := adapter.evaluate(source, target);
      |v| == |plan.candidates| && v[star].estimate.Some?
      && Score(plan.rule, v[star].estimate.value) == Decision(plan, adapter, source, target).value
    ensures var shifted := Rotate(source, Wrap(plan.candidates[star] - plan.candidates[i], |source|));
      Decision(plan, adapter, shifted, target).Some? ==>
        Decision(plan, adapter, shifted, target).value >= Decision(plan, adapter, source, target).value
  {
    var shifted := Rotate(source, Wrap(plan.candidates[star] - plan.candidates[i], |source|));
    if Decision(plan, adapter, shifted, target).Some? {
      CollisionEstimate(plan, adapter, estimate, source, target, star, i);
      var other := DecisionMeaning(plan, adapter, shifted, target);
    }
  }

  function DecisionTable(plan: Plan, adapter: Adapter, source: seq<real>, target: seq<real>): seq<Option<real>> {
    Decisions(ScanOf(plan, adapter), source, target)
  }

  /** Every state of a set that decides reaches the observed decision. */
  ghost predicate AllReach(t: seq<Option<real>>, minShift: nat, shifts: set<int>)
    requires t != []
  {
    forall s :: s in shifts ==>
      InStateSpace(s, |t|, minShift) && 0 <= s < |t| && (t[s].Some? && t[0].Some? ==> t[s].value >= t[0].value)
  }

  /** A candidate attaining the observed maximum, if the data decides at all. */
  predicate Attains(plan: Plan, adapter: Adapter, source: seq<real>, target: seq<real>, star: nat) {
    star < |plan.candidates|
    && (Decision(plan, adapter, source, target).Some? ==>
          var v := adapter.evaluate(source, target);
          |v| == |plan.candidates| && v[star].estimate.Some?
          && Score(plan.rule, v[star].estimate.value) == Decision(plan, adapter, source, target).value)
  }

  lemma SomeAttains(plan: Plan, adapter: Adapter, source: seq<real>, target: seq<real>) returns (star: nat)
    requires Canonical(plan.candidates)
    ensures Attains(plan, adapter, source, target, star)
  {
    star := 0;
    if Decision(plan, adapter, source, target).Some? { star := DecisionMeaning(plan, adapter, source, target); }
  }

  lemma TableAt(plan: Plan, adapter: Adapter, source: seq<real>, target: seq<real>, s: int)
    requires 0 <= s < |source|
    ensures DecisionTable(plan, adapter, source, target)[s] == Decision(plan, adapter, Rotate(source, s), target)
    ensures DecisionTable(plan, adapter, source, target)[0] == Decision(plan, adapter, source, target)
  {
    RotateZero(source);
  }

  lemma CollisionInTable(
    plan: Plan, adapter: Adapter, estimate: Estimator, source: seq<real>, target: seq<real>, star: nat, i: nat)
    requires PlanOk(plan) && Bindable(plan, adapter, source, target) && Lagged(adapter, plan.candidates, estimate)
    requires Attains(plan, adapter, source, target, star) && i < |plan.candidates|
    ensures var t, s := DecisionTable(plan, adapter, source, target),
                        Wrap(plan.candidates[star] - plan.candidates[i], |source|);
      0 <= s < |t| && (t[s].Some? && t[0].Some? ==> t[s].value >= t[0].value)
  {
    TableAt(plan, adapter, source, target, Wrap(plan.candidates[star] - plan.candidates[i], |source|));
    if Decision(plan, adapter, source, target).Some? {
      CollisionReaches(plan, adapter, estimate, source, target, star, i);
    }
  }

  /** The unavoidable exceedances of the data: the collisions of the candidate attaining the observed maximum. */
  lemma CollidingStatesReach(
    plan: Plan, adapter: Adapter, estimate: Estimator, source: seq<real>, target: seq<real>, minShift: nat)
    returns (star: nat)
    requires PlanOk(plan) && Bindable(plan, adapter, source, target) && Lagged(adapter, plan.candidates, estimate)
    ensures star < |plan.candidates|
    ensures AllReach(DecisionTable(plan, adapter, source, target), minShift,
                     CollisionShifts(plan.candidates, plan.candidates[star], |source|, minShift))
  {
    star := SomeAttains(plan, adapter, source, target);
    var t := DecisionTable(plan, adapter, source, target);
    var shifts := CollisionShifts(plan.candidates, plan.candidates[star], |source|, minShift);
    forall s | s in shifts
      ensures InStateSpace(s, |t|, minShift) && 0 <= s < |t| && (t[s].Some? && t[0].Some? ==> t[s].value >= t[0].value)
    {
      CollisionShiftsAre(plan.candidates, plan.candidates[star], |source|, minShift, s);
      var i :| 0 <= i < |plan.candidates| && s == Wrap(plan.candidates[star] - plan.candidates[i], |source|);
      CollisionInTable(plan, adapter, estimate, source, target, star, i);
    }
  }

  /** There are at least as many of them as the plan report counts. */
  lemma CollidingStatesMany(plan: Plan, n: nat, minShift: nat, star: nat)
    requires PlanOk(plan) && MaxLag(plan.candidates) < n && star < |plan.candidates|
    ensures |CollisionShifts(plan.candidates, plan.candidates[star], n, minShift)|
         >= Colliding(plan.candidates, plan.candidates, n, minShift)
  {
    CollisionShiftsSize(plan.candidates, plan.candidates[star], n, minShift);
  }

  /** Collision floor of the oracle: 1 + E is at least the number of colliding states. */
  lemma CollisionFloor(
    plan: Plan, adapter: Adapter, estimate: Estimator, source: seq<real>, target: seq<real>, minShift: nat)
    requires PlanOk(plan) && Bindable(plan, adapter, source, target) && Lagged(adapter, plan.candidates, estimate)
    requires 1 <= minShift && 2 * minShift <= |source|
    requires Evaluable(DecisionTable(plan, adapter, source, target), minShift)
    ensures 1 + Exceedances(DecisionTable(plan, adapter, source, target), minShift)
         >= Colliding(plan.candidates, plan.candidates, |source|, minShift)
  {
    var t, n := DecisionTable(plan, adapter, source, target), |source|;
    var star := CollidingStatesReach(plan, adapter, estimate, source, target, minShift);
    CollidingStatesMany(plan, n, minShift, star);
    ShiftsAmongReached(t, minShift, CollisionShifts(plan.candidates, plan.candidates[star], n, minShift));
  }

  lemma ShiftsAmongReached(t: seq<Option<real>>, minShift: nat, shifts: set<int>)
    requires 1 <= minShift && 2 * minShift <= |t| && Evaluable(t, minShift) && AllReach(t, minShift, shifts)
    ensures |shifts| <= 1 + Exceedances(t, minShift)
  {
    var high := |t| - minShift + 1;
    var reached := Reached(t, t[0].GetOr(0.0), minShift, high);
    ExceedingIs(t, t[0].GetOr(0.0), minShift, high);
    forall s | s in shifts ensures s in {0} + reached {}
    SubsetSize(shifts, {0} + reached);
  }
}
