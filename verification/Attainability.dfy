/** Plan-time arithmetic: the rejection count, the binomial cap and the refusal statuses. */
module Attainability {
  import opened Wrappers
  import opened Counting
  import opened BinomialTail
  import opened Contracts
  import opened Circular
  import opened Plans

  // ---------------------------------------------------------------- the number of rejecting counts

  predicate Rejects(div: Division, alpha: real, replicates: nat, e: int) {
    div.of(1 + e, replicates + 1) <= alpha
  }

  /** k separates the exceedance counts that reject from those that do not. */
  predicate IsAllowed(div: Division, alpha: real, replicates: nat, k: int) {
    && 0 <= k <= replicates + 1
    && forall e :: 0 <= e <= replicates ==> (Rejects(div, alpha, replicates, e) <==> e < k)
  }

  /** The largest count up to n whose quotient does not exceed alpha. */
  function AllowedUpTo(div: Division, alpha: real, replicates: nat, n: nat): (k: nat)
    ensures k <= n
  {
    if n == 0 || div.of(n, replicates + 1) <= alpha then n else AllowedUpTo(div, alpha, replicates, n - 1)
  }

  function Allowed(div: Division, alpha: real, replicates: nat): nat {
    AllowedUpTo(div, alpha, replicates, replicates + 1)
  }

  lemma {:induction false} AllowedUpToIs(div: Division, alpha: real, replicates: nat, n: nat)
    requires div.Sound()
    ensures var k := AllowedUpTo(div, alpha, replicates, n);
      forall e :: 0 <= e < n ==> (Rejects(div, alpha, replicates, e) <==> e < k)
  {
    if n > 0 {
      if div.of(n, replicates + 1) <= alpha {
        forall e | 0 <= e < n ensures Rejects(div, alpha, replicates, e) {
          assert div.of(1 + e, replicates + 1) <= div.of(n, replicates + 1);
        }
      } else {
        AllowedUpToIs(div, alpha, replicates, n - 1);
        assert !Rejects(div, alpha, replicates, n - 1);
      }
    }
  }

  lemma AllowedIs(div: Division, alpha: real, replicates: nat)
    requires div.Sound()
    ensures IsAllowed(div, alpha, replicates, Allowed(div, alpha, replicates))
  {
    AllowedUpToIs(div, alpha, replicates, replicates + 1);
  }

  lemma AllowedUnique(div: Division, alpha: real, replicates: nat, j: int, k: int)
    requires IsAllowed(div, alpha, replicates, j) && IsAllowed(div, alpha, replicates, k)
    ensures j == k
  {
    var least := if j < k then j else k;
    var e := if least <= replicates then least else 0;
    assert Rejects(div, alpha, replicates, e) || !Rejects(div, alpha, replicates, e);
  }

  /** Whatever value the floating-point floor supplies, the two fix-up loops end at the exact count. */
  method AllowedExceedances(div: Division, alpha: real, replicates: nat, floored: int) returns (count: int)
    requires div.Sound()
    ensures IsAllowed(div, alpha, replicates, count) && count == Allowed(div, alpha, replicates)
  {
    var least := if floored < replicates + 1 then floored else replicates + 1;
    count := if least > 0 then least else 0;
    while count > 0 && !(div.of(count, replicates + 1) <= alpha)
      invariant 0 <= count <= replicates + 1
    {
      count := count - 1;
    }
    while count <= replicates && div.of(count + 1, replicates + 1) <= alpha
      invariant 0 <= count <= replicates + 1
      invariant count > 0 ==> Rejects(div, alpha, replicates, count - 1)
    {
      count := count + 1;
    }
    forall e | 0 <= e <= replicates ensures Rejects(div, alpha, replicates, e) <==> e < count {
      if e < count {
        assert div.of(1 + e, replicates + 1) <= div.of(1 + (count - 1), replicates + 1);
      } else {
        assert div.of(1 + count, replicates + 1) <= div.of(1 + e, replicates + 1);
      }
    }
    AllowedIs(div, alpha, replicates);
    AllowedUnique(div, alpha, replicates, count, Allowed(div, alpha, replicates));
  }

  // ---------------------------------------------------------------- the plan report

  datatype Status =
    | NotAssessed
    | EmptyNullStateSpace
    | RefuseEnumerationReplicateCount
    | RefuseReplicatesTooFew
    | RefuseNonGroupNull
    | RefuseNullStatesTooFew
    | Pass

  datatype Report = Report(
    status: Status,
    monteCarloFloor: real,
    stateCount: Option<int>,
    stateFloor: Option<real>,
    powerCap: Option<real>)

  /** The least number of states that reproduce the observed maximum, whichever candidate attains it. */
  function Unavoidable(plan: Plan, n: nat): (c: nat)
    requires PlanOk(plan) && n > 0
  {
    Colliding(plan.candidates, plan.candidates, n, plan.nullParameter)
  }

  function PlanStates(plan: Plan, n: nat): int {
    StateCount(n, plan.nullParameter)
  }

  function Cap(div: Division, plan: Plan, n: nat): real
    requires PlanOk(plan) && 2 * plan.nullParameter <= n
  {
    if plan.nullName == CircularShiftExactV1
    then (if div.of(Unavoidable(plan, n), PlanStates(plan, n)) <= plan.alpha then 1.0 else 0.0)
    else CdfBelow(Allowed(div, plan.alpha, plan.replicates), plan.replicates,
                  Unavoidable(plan, n) as real / PlanStates(plan, n) as real)
  }

  /** The number of draw sequences behind the cap: those with too few unavoidable draws to be kept from rejecting. */
  function CapCount(div: Division, plan: Plan, n: nat): nat
    requires PlanOk(plan) && 2 * plan.nullParameter <= n
  {
    BinomialSum(plan.replicates, Unavoidable(plan, n), Avoidable(plan, n), Allowed(div, plan.alpha, plan.replicates))
  }

  function Avoidable(plan: Plan, n: nat): nat
    requires PlanOk(plan) && n > 0
  {
    var rest := PlanStates(plan, n) - Unavoidable(plan, n);
    if rest >= 0 then rest else 0
  }

  /** All draw sequences of a sampled plan. */
  function DrawCount(plan: Plan, n: nat): nat
    requires PlanOk(plan) && 2 * plan.nullParameter <= n
  {
    Pow(PlanStates(plan, n), plan.replicates)
  }

  lemma ShareFromProduct(share: real, draws: nat, count: nat)
    requires draws > 0 && share * draws as real == count as real
    ensures share == count as real / draws as real
  {
  }

  lemma TailShare(k: nat, replicates: nat, c: nat, states: nat)
    requires 0 < states && c <= states
    ensures Pow(states, replicates) > 0
    ensures CdfBelow(k, replicates, c as real / states as real)
         == BinomialSum(replicates, c, states - c, k) as real / Pow(states, replicates) as real
  {
    PowPositive(states, replicates);
    CdfBelowCounts(k, replicates, c, states);
    ShareFromProduct(CdfBelow(k, replicates, c as real / states as real), Pow(states, replicates),
                     BinomialSum(replicates, c, states - c, k));
  }

  /** The cap is the share of those sequences among all of them. */
  lemma CapIsShare(div: Division, plan: Plan, n: nat)
    requires PlanOk(plan) && plan.nullName != CircularShiftExactV1 && 2 * plan.nullParameter <= n
    requires Unavoidable(plan, n) <= PlanStates(plan, n)
    ensures DrawCount(plan, n) > 0
    ensures Cap(div, plan, n) == CapCount(div, plan, n) as real / DrawCount(plan, n) as real
  {
    TailShare(Allowed(div, plan.alpha, plan.replicates), plan.replicates, Unavoidable(plan, n), PlanStates(plan, n));
  }

  function Verdict(div: Division, plan: Plan, n: nat): Status
    requires PlanOk(plan) && 2 * plan.nullParameter <= n
  {
    if !(div.of(1, plan.replicates + 1) <= plan.alpha) then RefuseReplicatesTooFew
    else if plan.nullParameter > 1 && |plan.candidates| > 1 then RefuseNonGroupNull
    else if !(div.of(Unavoidable(plan, n), PlanStates(plan, n)) <= plan.alpha) then RefuseNullStatesTooFew
    else Pass
  }

  /** The report; lagged says that the plan's statistic is the lagged Pearson correlation. */
  function Assess(div: Division, plan: Plan, lagged: bool, n: nat): Report
    requires PlanOk(plan)
  {
    var floor := div.of(1, plan.replicates + 1);
    if plan.nullName == BlockShuffleV2 || !lagged then Report(NotAssessed, floor, None, None, None)
    else if 2 * plan.nullParameter > n then Report(EmptyNullStateSpace, floor, None, None, None)
    else
      var states := PlanStates(plan, n);
      var share := Unavoidable(plan, n) as real / states as real;
      if plan.nullName == CircularShiftExactV1 && plan.replicates != states - 1
      then Report(RefuseEnumerationReplicateCount, floor, Some(states), Some(share), None)
      else Report(Verdict(div, plan, n), floor, Some(states), Some(share), Some(Cap(div, plan, n)))
  }

  /** A refused replicate count rejects nothing: no count, run or data set reaches alpha. */
  lemma ReplicatesTooFewSound(div: Division, plan: Plan, lagged: bool, n: nat, e: nat)
    requires div.Sound() && PlanOk(plan)
    requires Assess(div, plan, lagged, n).status == RefuseReplicatesTooFew
    ensures !Rejects(div, plan.alpha, plan.replicates, e) && Allowed(div, plan.alpha, plan.replicates) == 0
  {
    assert div.of(1, plan.replicates + 1) <= div.of(1 + e, plan.replicates + 1);
    AllowedIs(div, plan.alpha, plan.replicates);
    assert !Rejects(div, plan.alpha, plan.replicates, 0);
  }

  /** Conversely, an assessed plan that is not refused for its replicate count can reject with no exceedances. */
  lemma ReplicatesEnough(div: Division, plan: Plan, n: nat)
    requires div.Sound() && PlanOk(plan) && 2 * plan.nullParameter <= n
    ensures Verdict(div, plan, n) != RefuseReplicatesTooFew <==> Allowed(div, plan.alpha, plan.replicates) >= 1
  {
    AllowedIs(div, plan.alpha, plan.replicates);
    assert Rejects(div, plan.alpha, plan.replicates, 0) <==> 0 < Allowed(div, plan.alpha, plan.replicates);
  }

  /**
   * When the states of a sampled plan are not a group, it is refused exactly if it searches two or more lags, has too
   * few replicates or too few states; and with the group status exactly if it searches two or more lags and its
   * replicate count is large enough.
   */
  lemma NonGroupRefusedIff(div: Division, plan: Plan, n: nat)
    requires PlanOk(plan) && plan.nullName != BlockShuffleV2 && 2 * plan.nullParameter <= n
    requires !Closed(n, plan.nullParameter)
    ensures Assess(div, plan, true, n).status != Pass
       <==> |plan.candidates| > 1 || !(div.of(1, plan.replicates + 1) <= plan.alpha)
            || !(div.of(Unavoidable(plan, n), PlanStates(plan, n)) <= plan.alpha)
    ensures Assess(div, plan, true, n).status == RefuseNonGroupNull
       <==> |plan.candidates| > 1 && div.of(1, plan.replicates + 1) <= plan.alpha
  {
    ClosedIff(n, plan.nullParameter);
  }

  /** Two lags with min_shift 2, used on four samples. */
  function HalfTurnPlan(): Plan {
    Plan([1, 2], MaxUpper, CircularShiftV2, 2, 19, 0.05, 0.0)
  }

  /** One lag with min_shift 2, used on thirty samples. */
  function SingleLagPlan(): Plan {
    Plan([1], MaxUpper, CircularShiftV2, 2, 19, 0.05, 0.0)
  }

  /** The refusal is not exact: it also refuses the half-turn group. */
  lemma HalfTurnRefused(div: Division)
    requires div.Sound() && forall a, n :: n > 0 ==> div.of(a, n) == a as real / n as real
    ensures PlanOk(HalfTurnPlan()) && Closed(4, 2)
    ensures Assess(div, HalfTurnPlan(), true, 4).status == RefuseNonGroupNull
  {
    hide Cap, Colliding, CollidingWith;
    ClosedIff(4, 2);
  }

  /** And a single-lag plan passes although its states are not a group. */
  lemma SingleLagPasses(div: Division)
    requires div.Sound() && forall a, n :: n > 0 ==> div.of(a, n) == a as real / n as real
    ensures PlanOk(SingleLagPlan()) && !Closed(30, 2)
    ensures Assess(div, SingleLagPlan(), true, 30).status == Pass
  {
    ClosedIff(30, 2);
    assert CollidingWith([1], 1, 30, 2) <= 1;
  }

  /** Two lags and min_shift 1, sampled, on four samples. */
  function SampledPlan(): Plan {
    Plan([1, 2], MaxUpper, CircularShiftV2, 1, 99, 0.05, 0.0)
  }

  /** A sampled plan refused for too few states: two of its four states are unavoidable, alpha is out of reach. */
  lemma SampledRefusal(div: Division)
    requires div.Sound() && forall a, n :: n > 0 ==> div.of(a, n) == a as real / n as real
    ensures PlanOk(SampledPlan()) && Unavoidable(SampledPlan(), 4) == 2 && PlanStates(SampledPlan(), 4) == 4
    ensures Assess(div, SampledPlan(), true, 4).status == RefuseNullStatesTooFew
  {
    assert [1, 2][..1] == [1];
    assert CollidingWith([1, 2], 1, 4, 1) == 2 && CollidingWith([1, 2], 2, 4, 1) == 2;
  }
}
