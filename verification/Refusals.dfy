/** What the plan report promises about every run, and where its promise is not kept. */
module Refusals {
  import opened Wrappers
  import opened Circular
  import opened Counting
  import opened Contracts
  import opened Plans
  import opened ExactOracle
  import opened BinomialTail
  import opened Attainability
  import opened Collisions
  import opened PowerCap

  // ---------------------------------------------------------------- enumerated plans

  lemma TooFewStates(div: Division, plan: Plan, n: nat, e: nat)
    requires div.Sound() && PlanOk(plan) && plan.nullName == CircularShiftExactV1 && n > 0
    requires Assess(div, plan, true, n).status == RefuseNullStatesTooFew && 1 + e >= Unavoidable(plan, n)
    ensures plan.replicates + 1 == n && !Rejects(div, plan.alpha, plan.replicates, e)
  {
    assert div.of(Unavoidable(plan, n), n) <= div.of(1 + e, n);
  }

  /** An enumerated plan refused for too few states never rejects, whatever the data. */
  lemma EnumeratedRefusalSound(
    div: Division, plan: Plan, adapter: Adapter, estimate: Estimator, source: seq<real>, target: seq<real>)
    requires div.Sound() && PlanOk(plan) && plan.nullName == CircularShiftExactV1
    requires Bindable(plan, adapter, source, target) && Lagged(adapter, plan.candidates, estimate)
    requires Assess(div, plan, true, |source|).status == RefuseNullStatesTooFew
    requires 2 <= |source| && Evaluable(DecisionTable(plan, adapter, source, target), 1)
    ensures plan.replicates + 1 == |source|
    ensures !Rejects(div, plan.alpha, plan.replicates, Exceedances(DecisionTable(plan, adapter, source, target), 1))
  {
    CollisionFloor(plan, adapter, estimate, source, target, 1);
    TooFewStates(div, plan, |source|, Exceedances(DecisionTable(plan, adapter, source, target), 1));
  }

  // ---------------------------------------------------------------- sampled plans

  lemma ShareBound(size: nat, count: nat, draws: nat)
    requires size <= count && draws > 0
    ensures size as real / draws as real <= count as real / draws as real
  {
  }

  lemma ReportedBound(div: Division, plan: Plan, n: nat, size: nat)
    requires PlanOk(plan) && plan.nullName == CircularShiftV2 && 2 * plan.nullParameter <= n
    requires Unavoidable(plan, n) <= PlanStates(plan, n) && size <= CapCount(div, plan, n)
    ensures DrawCount(plan, n) > 0 && size as real / DrawCount(plan, n) as real <= Cap(div, plan, n)
  {
    CapIsShare(div, plan, n);
    ShareBound(size, CapCount(div, plan, n), DrawCount(plan, n));
  }

  /** The reported cap bounds the share of draw sequences that reject, for every data set. */
  lemma ReportedCapHolds(
    div: Division, plan: Plan, adapter: Adapter, estimate: Estimator, source: seq<real>, target: seq<real>,
    rejecting: set<seq<nat>>)
    requires div.Sound() && PlanOk(plan) && plan.nullName == CircularShiftV2 && 2 * plan.nullParameter <= |source|
    requires Bindable(plan, adapter, source, target) && Lagged(adapter, plan.candidates, estimate)
    requires rejecting == PlanRejects(div, plan, DecisionTable(plan, adapter, source, target))
    ensures DrawCount(plan, |source|) > 0
    ensures |rejecting| as real / DrawCount(plan, |source|) as real <= Cap(div, plan, |source|)
  {
    PowerCapHolds(div, plan, adapter, estimate, source, target);
    ReportedBound(div, plan, |source|, |rejecting|);
  }

  lemma {:induction false} SumGrows(n: nat, c: nat, rest: nat, k: nat)
    requires k > 0 && rest > 0
    ensures BinomialSum(n, c, rest, k) > 0
  {
    if k == 1 {
      PowPositive(rest, n);
      assert BinomialTerm(n, c, rest, 0) == Pow(rest, n);
    } else {
      SumGrows(n, c, rest, k - 1);
    }
  }

  /** The cap is zero exactly when no count rejects, or when every state is unavoidable and not every count rejects. */
  lemma CapZeroIff(n: nat, c: nat, rest: nat, k: nat)
    requires c + rest > 0
    ensures BinomialSum(n, c, rest, k) == 0 <==> k == 0 || (rest == 0 && k <= n)
  {
    if k > 0 {
      if rest > 0 {
        SumGrows(n, c, rest, k);
      } else if k <= n {
        SumAllHits(n, c, k);
      } else {
        BinomialTheorem(n, c, rest, k);
        PowPositive(c + rest, n);
      }
    }
  }

  // ---------------------------------------------------------------- the fields of the report

  /** Some state moves the series. */
  ghost predicate HasShift(plan: Plan, n: nat) {
    exists s :: s != 0 && InStateSpace(s, n, plan.nullParameter)
  }

  /** What a report says besides its cap and the last four statuses. */
  lemma ReportFields(div: Division, plan: Plan, lagged: bool, n: nat)
    requires div.Sound() && PlanOk(plan)
    ensures var r := Assess(div, plan, lagged, n);
      && r.monteCarloFloor == div.of(1 + 0, plan.replicates + 1)
      && (forall e: nat {:trigger div.of(1 + e, plan.replicates + 1)} ::
            r.monteCarloFloor <= div.of(1 + e, plan.replicates + 1))
      && (r.status == NotAssessed <==> plan.nullName == BlockShuffleV2 || !lagged)
      && (r.status == EmptyNullStateSpace <==> r.status != NotAssessed && !HasShift(plan, n))
      && (r.status == RefuseEnumerationReplicateCount
          <==> r.status != NotAssessed && HasShift(plan, n) && plan.nullName == CircularShiftExactV1
               && plan.replicates != n - 1)
      && (r.powerCap.None? <==> r.status in {NotAssessed, EmptyNullStateSpace, RefuseEnumerationReplicateCount})
      && (r.stateCount.None? <==> r.status in {NotAssessed, EmptyNullStateSpace})
      && (r.stateCount.Some? ==>
            var states := |StateSet(n, plan.nullParameter)|;
            states > 0 && r.stateCount == Some(states)
            && r.stateFloor == Some(Unavoidable(plan, n) as real / states as real))
  {
    if 2 * plan.nullParameter <= n {
      assert InStateSpace(plan.nullParameter, n, plan.nullParameter);
      StatesSize(n, plan.nullParameter);
    }
  }
}
