/** The power cap under the lagged Pearson correlation itself: the data that attain it, and when nothing rejects. */
module PearsonPower {
  import opened Wrappers
  import opened Arithmetic
  import opened Counting
  import opened Contracts
  import opened Selection
  import opened Circular
  import opened Plans
  import opened ExactOracle
  import opened Attainability
  import opened Collisions
  import opened PowerCap
  import opened PowerCapAttained
  import opened Refusals
  import opened Pearson
  import opened Sawtooth

  /** The adapter evaluates the estimator on the lag slices, and n samples are enough for it to bind. */
  ghost predicate Evaluates(adapter: Adapter, plan: Plan, estimate: Estimator, n: nat)
    requires Canonical(plan.candidates)
  {
    && AdapterOk(adapter, plan.candidates) && adapter.minSupport == 2 && Lagged(adapter, plan.candidates, estimate)
    && MaxLag(plan.candidates) + 2 <= n
  }

  /** What the adapter estimates for the i-th candidate. */
  function EstimateAt(plan: Plan, estimate: Estimator, source: seq<real>, target: seq<real>, i: nat): Option<real>
    requires Canonical(plan.candidates) && MaxLag(plan.candidates) < |source| == |target| && i < |plan.candidates|
  {
    var maxLag := MaxLag(plan.candidates);
    estimate(LagSlice(source, maxLag, plan.candidates[i]), target[maxLag..])
  }

  function Estimates(plan: Plan, estimate: Estimator, source: seq<real>, target: seq<real>): (es: seq<Option<real>>)
    requires Canonical(plan.candidates) && MaxLag(plan.candidates) < |source| == |target|
    ensures |es| == |plan.candidates|
    ensures forall i :: 0 <= i < |es| ==> es[i] == EstimateAt(plan, estimate, source, target, i)
  {
    seq(|plan.candidates|, i requires 0 <= i < |plan.candidates| => EstimateAt(plan, estimate, source, target, i))
  }

  /** A pair all of whose candidates have an estimate is decided by the greatest of their scores. */
  lemma EstimatesDecide(
    plan: Plan, adapter: Adapter, estimate: Estimator, n: nat, source: seq<real>, target: seq<real>,
    es: seq<Option<real>>)
    returns (best: nat)
    requires PlanOk(plan) && Evaluates(adapter, plan, estimate, n) && |source| == |target| == n
    requires es == Estimates(plan, estimate, source, target) && forall i :: 0 <= i < |es| ==> es[i].Some?
    ensures best < |es| && Decision(plan, adapter, source, target) == Some(Score(plan.rule, es[best].value))
    ensures forall i :: 0 <= i < |es| ==>
      Score(plan.rule, es[i].value) <= Decision(plan, adapter, source, target).value
  {
    var v := adapter.evaluate(source, target);
    forall i | 0 <= i < |v| ensures v[i].estimate == es[i] && !v[i].validity.AnalyticFailure? {
      assert RawResult(v[i], plan.candidates[i], adapter);
    }
    RawSelectable(v, plan, adapter);
    best := DecisionMeaning(plan, adapter, source, target);
  }

  // ---------------------------------------------------------------- data that attain the cap

  function Reference(plan: Plan, n: nat): (target: seq<real>)
    requires Canonical(plan.candidates) && MaxLag(plan.candidates) + 2 <= n
    ensures |target| == n
    ensures target[MaxLag(plan.candidates)..] == Matching(plan.rule, n, n - MaxLag(plan.candidates))
  {
    seq(MaxLag(plan.candidates), _ => 0.0) + Matching(plan.rule, n, n - MaxLag(plan.candidates))
  }

  /** The countdown whose window from 0 is the slice of star's lag. */
  predicate IsStarSource(plan: Plan, n: nat, star: nat, source: seq<real>)
    requires Canonical(plan.candidates) && 0 < n && star < |plan.candidates|
  {
    var low := MaxLag(plan.candidates) - plan.candidates[star];
    0 <= low && source == Countdown(Falling(), n, low)
  }

  /** A lag's slice is the window from c, and c is 0 exactly at the shift that carries it onto the wanted lag's. */
  lemma SliceStart(n: nat, maxLag: nat, wanted: int, lag: int, s: nat) returns (c: nat)
    requires 0 < lag <= maxLag < n && 0 < wanted <= maxLag && s < n
    ensures c < n && (c == 0 <==> s == Wrap(wanted - lag, n))
    ensures LagSlice(Rotate(Countdown(Falling(), n, maxLag - wanted), s), maxLag, lag)
         == Window(Falling(), n, n - maxLag, c)
  {
    SliceIsWindow(Falling(), n, maxLag - wanted, maxLag, lag, s);
    c := Wrap(maxLag - wanted - maxLag + lag + s, n);
    WrapNear(maxLag - wanted - maxLag + lag + s, n);
    WrapNear(wanted - lag, n);
  }

  lemma StarEstimate(
    plan: Plan, estimate: Estimator, n: nat, star: nat, source: seq<real>, i: nat, s: nat, e: Option<real>, top: real)
    requires PlanOk(plan) && MaxLag(plan.candidates) + 2 <= n && star < |plan.candidates| && i < |plan.candidates|
    requires s < n && RanksWindows(estimate, plan.rule, n, n - MaxLag(plan.candidates))
    requires IsStarSource(plan, n, star, source)
    requires e == EstimateAt(plan, estimate, Rotate(source, s), Reference(plan, n), i)
    requires top == WindowScore(estimate, plan.rule, n, n - MaxLag(plan.candidates), 0)
    ensures e.Some?
    ensures if s == Wrap(plan.candidates[star] - plan.candidates[i], n) then Score(plan.rule, e.value) == top
            else Score(plan.rule, e.value) < top
  {
    var maxLag := MaxLag(plan.candidates);
    var wanted, lag, y := plan.candidates[star], plan.candidates[i], Reference(plan, n)[maxLag..];
    var c := SliceStart(n, maxLag, wanted, lag, s);
    assert source == Countdown(Falling(), n, maxLag - wanted);
    assert LagSlice(Rotate(source, s), maxLag, lag) == Window(Falling(), n, n - maxLag, c);
  }

  /** Scores that are top for the colliding candidates and lower for the others. */
  predicate TopAtCollisions(plan: Plan, n: nat, star: nat, s: int, estimates: seq<Option<real>>, top: real)
    requires n > 0 && star < |plan.candidates| == |estimates|
  {
    forall i :: 0 <= i < |estimates| ==>
      estimates[i].Some?
      && if s == Wrap(plan.candidates[star] - plan.candidates[i], n) then Score(plan.rule, estimates[i].value) == top
         else Score(plan.rule, estimates[i].value) < top
  }

  lemma DecisionFromTop(
    plan: Plan, n: nat, star: nat, s: int, estimates: seq<Option<real>>, top: real, best: nat, decision: real)
    requires n > 0 && star < |plan.candidates| == |estimates| && TopAtCollisions(plan, n, star, s, estimates, top)
    requires best < |estimates| && decision == Score(plan.rule, estimates[best].value)
    requires forall i :: 0 <= i < |estimates| ==> Score(plan.rule, estimates[i].value) <= decision
    ensures if Collides(plan, n, star, s) then decision == top else decision < top
  {
    if i :| 0 <= i < |plan.candidates| && s == Wrap(plan.candidates[star] - plan.candidates[i], n) {
      assert Score(plan.rule, estimates[i].value) == top;
    }
  }

  lemma StarDecision(
    plan: Plan, adapter: Adapter, estimate: Estimator, n: nat, star: nat, source: seq<real>, s: nat, top: real)
    requires PlanOk(plan) && Evaluates(adapter, plan, estimate, n) && star < |plan.candidates| && s < n
    requires IsStarSource(plan, n, star, source)
    requires RanksWindows(estimate, plan.rule, n, n - MaxLag(plan.candidates))
    requires top == WindowScore(estimate, plan.rule, n, n - MaxLag(plan.candidates), 0)
    ensures var d := Decision(plan, adapter, Rotate(source, s), Reference(plan, n));
      d.Some? && if Collides(plan, n, star, s) then d.value == top else d.value < top
  {
    var shifted := Rotate(source, s);
    var es := Estimates(plan, estimate, shifted, Reference(plan, n));
    forall i | 0 <= i < |es|
      ensures es[i].Some?
      ensures if s == Wrap(plan.candidates[star] - plan.candidates[i], n) then Score(plan.rule, es[i].value) == top
              else Score(plan.rule, es[i].value) < top
    {
      StarEstimate(plan, estimate, n, star, source, i, s, es[i], top);
    }
    var best := EstimatesDecide(plan, adapter, estimate, n, shifted, Reference(plan, n), es);
    DecisionFromTop(plan, n, star, s, es, top, best, Decision(plan, adapter, shifted, Reference(plan, n)).value);
  }

  /** On this pair exactly the collision shifts of star reach the observed decision. */
  lemma StarDetects(plan: Plan, adapter: Adapter, estimate: Estimator, n: nat, star: nat, source: seq<real>)
    requires PlanOk(plan) && Evaluates(adapter, plan, estimate, n) && star < |plan.candidates|
    requires IsStarSource(plan, n, star, source)
    requires RanksWindows(estimate, plan.rule, n, n - MaxLag(plan.candidates))
    ensures Detects(plan, star, DecisionTable(plan, adapter, source, Reference(plan, n)))
  {
    var t := DecisionTable(plan, adapter, source, Reference(plan, n));
    assert 0 == Wrap(plan.candidates[star] - plan.candidates[star], n);
    assert Collides(plan, n, star, 0);
    var top := WindowScore(estimate, plan.rule, n, n - MaxLag(plan.candidates), 0);
    StarDecision(plan, adapter, estimate, n, star, source, 0, top);
    forall s | 0 <= s < n ensures t[s].Some? && (Reaches(t[s], t[0].GetOr(0.0)) <==> Collides(plan, n, star, s)) {
      StarDecision(plan, adapter, estimate, n, star, source, s, top);
    }
  }

  lemma StarAttainsCap(div: Division, plan: Plan, adapter: Adapter, estimate: Estimator, n: nat)
    returns (source: seq<real>, target: seq<real>)
    requires div.Sound() && PlanOk(plan) && Evaluates(adapter, plan, estimate, n) && 2 * plan.nullParameter <= n
    requires RanksWindows(estimate, plan.rule, n, n - MaxLag(plan.candidates))
    ensures |source| == |target| == n && Unavoidable(plan, n) <= PlanStates(plan, n)
    ensures |PlanRejects(div, plan, DecisionTable(plan, adapter, source, target))| == CapCount(div, plan, n)
  {
    var star := FewestCollisions(plan, n, plan.nullParameter);
    source, target := Countdown(Falling(), n, MaxLag(plan.candidates) - plan.candidates[star]), Reference(plan, n);
    StarDetects(plan, adapter, estimate, n, star, source);
    var t, c, states := DecisionTable(plan, adapter, source, target), Unavoidable(plan, n), PlanStates(plan, n);
    AttainedOn(div, plan, star, t, CollisionShifts(plan.candidates, plan.candidates[star], n, plan.nullParameter),
               n, c, states);
    CapCountIs(div, plan, n, c, states, |PlanRejects(div, plan, t)|);
  }

  /** Some data attain the cap of the plan report exactly, unless two samples are scored by absolute value. */
  lemma PearsonAttainsCap(div: Division, plan: Plan, adapter: Adapter, estimate: Estimator, n: nat)
    returns (source: seq<real>, target: seq<real>)
    requires div.Sound() && PlanOk(plan) && Evaluates(adapter, plan, estimate, n) && 2 * plan.nullParameter <= n
    requires PearsonOn(estimate, n - MaxLag(plan.candidates))
    requires n - MaxLag(plan.candidates) == 2 ==> plan.rule.MaxUpper?
    ensures |source| == |target| == n && Unavoidable(plan, n) <= PlanStates(plan, n)
    ensures |PlanRejects(div, plan, DecisionTable(plan, adapter, source, target))| == CapCount(div, plan, n)
  {
    PearsonRanksWindows(estimate, plan.rule, n, n - MaxLag(plan.candidates));
    source, target := StarAttainsCap(div, plan, adapter, estimate, n);
  }

  // ---------------------------------------------------------------- two samples scored by absolute value

  /** Every estimate from two samples is 1 or -1. */
  ghost predicate UnitPairs(estimate: Estimator) {
    forall x: seq<real>, y: seq<real> {:trigger estimate(x, y)} ::
      |x| == |y| == 2 && estimate(x, y).Some? ==> Abs(estimate(x, y).value) == 1.0
  }

  lemma PearsonUnitPair(estimate: Estimator, a: real, b: real, c: real, d: real)
    requires PearsonOn(estimate, 2) && estimate([a, b], [c, d]).Some?
    ensures Abs(estimate([a, b], [c, d]).value) == 1.0
  {
    PairSpread(a, b, a, b);
    PairSpread(c, d, c, d);
    if a != b && c != d { PairCorrelation(estimate, a, b, c, d); }
  }

  lemma PearsonUnitPairs(estimate: Estimator)
    requires PearsonOn(estimate, 2)
    ensures UnitPairs(estimate)
  {
    forall x: seq<real>, y: seq<real> {:trigger estimate(x, y)} | |x| == |y| == 2 && estimate(x, y).Some?
      ensures Abs(estimate(x, y).value) == 1.0
    {
      assert x == [x[0], x[1]] && y == [y[0], y[1]];
      PearsonUnitPair(estimate, x[0], x[1], y[0], y[1]);
    }
  }

  lemma UnitDecision(
    plan: Plan, adapter: Adapter, estimate: Estimator, n: nat, source: seq<real>, target: seq<real>)
    requires PlanOk(plan) && Evaluates(adapter, plan, estimate, n) && plan.rule.MaxAbsolute? && UnitPairs(estimate)
    requires n - MaxLag(plan.candidates) == 2 && |source| == |target| == n
    ensures var d := Decision(plan, adapter, source, target); d.Some? ==> d.value == 1.0
  {
    if Decision(plan, adapter, source, target).Some? {
      var best := DecisionMeaning(plan, adapter, source, target);
      assert adapter.evaluate(source, target)[best].estimate == EstimateAt(plan, estimate, source, target, best);
    }
  }

  /** Every state that decides, decides 1. */
  predicate Unit(t: seq<Option<real>>) {
    t != [] && forall s :: 0 <= s < |t| && t[s].Some? ==> t[s].value == 1.0
  }

  lemma {:induction false} UnitExceedances(t: seq<Option<real>>, minShift: nat, draws: seq<nat>)
    requires Unit(t) && t[0].Some? && AllDrawn(t, minShift, draws)
    ensures DrawExceedances(t, minShift, draws) == |draws|
  {
    if draws != [] {
      UnitExceedances(t, minShift, draws[1..]);
      assert Drawn(t, minShift, draws[0]).Some?;
    }
  }

  /** Every draw is an exceedance, so nothing rejects unless every count does. */
  lemma UnitNeverRejects(div: Division, plan: Plan, t: seq<Option<real>>)
    requires div.Sound() && PlanOk(plan) && Unit(t) && 2 * plan.nullParameter <= |t|
    requires Allowed(div, plan.alpha, plan.replicates) <= plan.replicates
    ensures |PlanRejects(div, plan, t)| == 0
  {
    var states := StateCount(|t|, plan.nullParameter);
    forall w | w in PlanRejects(div, plan, t) ensures false {
      WordsAre(plan.replicates, Letters(states), w);
      UnitExceedances(t, plan.nullParameter, w);
      AllowedIs(div, plan.alpha, plan.replicates);
      assert false;
    }
    assert PlanRejects(div, plan, t) == {};
  }

  lemma UnitHits(t: seq<Option<real>>, m: nat, states: nat)
    requires Unit(t) && (forall s :: 0 <= s < |t| ==> t[s].Some?) && 1 <= m && 2 * m <= |t|
    requires states == StateCount(|t|, m)
    ensures ExactlyHit(t, m, states, Letters(states))
  {
  }

  lemma UnitRejects(div: Division, plan: Plan, t: seq<Option<real>>)
    requires div.Sound() && PlanOk(plan) && Unit(t) && 2 * plan.nullParameter <= |t|
    requires forall s :: 0 <= s < |t| ==> t[s].Some?
    requires Allowed(div, plan.alpha, plan.replicates) > plan.replicates
    ensures |PlanRejects(div, plan, t)| > 0
  {
    var states := StateCount(|t|, plan.nullParameter);
    UnitHits(t, plan.nullParameter, states);
    ExactCap(div, plan.alpha, t, plan.nullParameter, plan.replicates, states, Letters(states));
    assert Letters(states) - Letters(states) == {};
    CapZeroIff(plan.replicates, states, 0, Allowed(div, plan.alpha, plan.replicates));
  }

  lemma UnitTable(
    plan: Plan, adapter: Adapter, estimate: Estimator, n: nat, source: seq<real>, target: seq<real>)
    requires PlanOk(plan) && Evaluates(adapter, plan, estimate, n) && plan.rule.MaxAbsolute? && UnitPairs(estimate)
    requires n - MaxLag(plan.candidates) == 2 && |source| == |target| == n
    ensures Unit(DecisionTable(plan, adapter, source, target))
  {
    forall s | 0 <= s < n
      ensures var d := DecisionTable(plan, adapter, source, target)[s]; d.Some? ==> d.value == 1.0
    {
      UnitDecision(plan, adapter, estimate, n, Rotate(source, s), target);
    }
  }

  /** The estimator answers on every window of the countdown. */
  ghost predicate AnswersAll(estimate: Estimator, plan: Plan, n: nat)
    requires Canonical(plan.candidates) && MaxLag(plan.candidates) + 2 <= n
  {
    var size := n - MaxLag(plan.candidates);
    AnswersWindows(estimate, n, size, Matching(plan.rule, n, size))
  }

  lemma StarDecides(plan: Plan, adapter: Adapter, estimate: Estimator, n: nat, source: seq<real>, s: nat)
    requires PlanOk(plan) && Evaluates(adapter, plan, estimate, n) && s < n && IsStarSource(plan, n, 0, source)
    requires AnswersAll(estimate, plan, n)
    ensures Decision(plan, adapter, Rotate(source, s), Reference(plan, n)).Some?
  {
    var shifted, maxLag := Rotate(source, s), MaxLag(plan.candidates);
    var es := Estimates(plan, estimate, shifted, Reference(plan, n));
    forall i | 0 <= i < |es| ensures es[i].Some? {
      var c := SliceStart(n, maxLag, plan.candidates[0], plan.candidates[i], s);
      assert source == Countdown(Falling(), n, maxLag - plan.candidates[0]);
      assert LagSlice(shifted, maxLag, plan.candidates[i]) == Window(Falling(), n, n - maxLag, c);
    }
    var best := EstimatesDecide(plan, adapter, estimate, n, shifted, Reference(plan, n), es);
  }

  lemma DecidedTable(plan: Plan, adapter: Adapter, estimate: Estimator, n: nat) returns (source: seq<real>)
    requires PlanOk(plan) && Evaluates(adapter, plan, estimate, n)
    requires AnswersAll(estimate, plan, n)
    ensures |source| == n
    ensures forall s :: 0 <= s < n ==> DecisionTable(plan, adapter, source, Reference(plan, n))[s].Some?
  {
    source := Countdown(Falling(), n, MaxLag(plan.candidates) - plan.candidates[0]);
    forall s | 0 <= s < n ensures DecisionTable(plan, adapter, source, Reference(plan, n))[s].Some? {
      StarDecides(plan, adapter, estimate, n, source, s);
    }
  }

  // ---------------------------------------------------------------- when nothing rejects

  /** No data set and no draw sequence make the sampled plan reject. */
  ghost predicate NeverRejectsWith(div: Division, plan: Plan, adapter: Adapter, n: nat)
    requires PlanOk(plan) && 2 * plan.nullParameter <= n && n > 0
  {
    forall source: seq<real>, target: seq<real> {:trigger DecisionTable(plan, adapter, source, target)} ::
      |source| == |target| == n ==> |PlanRejects(div, plan, DecisionTable(plan, adapter, source, target))| == 0
  }

  lemma UnitNeverRejectsIff(div: Division, plan: Plan, adapter: Adapter, estimate: Estimator, n: nat)
    requires div.Sound() && PlanOk(plan) && Evaluates(adapter, plan, estimate, n) && 2 * plan.nullParameter <= n
    requires n - MaxLag(plan.candidates) == 2 && plan.rule.MaxAbsolute? && UnitPairs(estimate)
    requires AnswersAll(estimate, plan, n)
    ensures NeverRejectsWith(div, plan, adapter, n) <==> Allowed(div, plan.alpha, plan.replicates) <= plan.replicates
  {
    if Allowed(div, plan.alpha, plan.replicates) <= plan.replicates {
      forall source: seq<real>, target: seq<real> {:trigger DecisionTable(plan, adapter, source, target)}
        | |source| == |target| == n
        ensures |PlanRejects(div, plan, DecisionTable(plan, adapter, source, target))| == 0
      {
        UnitTable(plan, adapter, estimate, n, source, target);
        UnitNeverRejects(div, plan, DecisionTable(plan, adapter, source, target));
      }
    } else {
      var source := DecidedTable(plan, adapter, estimate, n);
      UnitTable(plan, adapter, estimate, n, source, Reference(plan, n));
      UnitRejects(div, plan, DecisionTable(plan, adapter, source, Reference(plan, n)));
    }
  }

  lemma RankedNeverRejectsIff(div: Division, plan: Plan, adapter: Adapter, estimate: Estimator, n: nat)
    requires div.Sound() && PlanOk(plan) && Evaluates(adapter, plan, estimate, n) && 2 * plan.nullParameter <= n
    requires RanksWindows(estimate, plan.rule, n, n - MaxLag(plan.candidates))
    ensures NeverRejectsWith(div, plan, adapter, n) <==>
      var k := Allowed(div, plan.alpha, plan.replicates);
      k == 0 || (k <= plan.replicates && Unavoidable(plan, n) == PlanStates(plan, n))
  {
    var source, target := StarAttainsCap(div, plan, adapter, estimate, n);
    CapZeroIff(plan.replicates, Unavoidable(plan, n), Avoidable(plan, n), Allowed(div, plan.alpha, plan.replicates));
    if CapCount(div, plan, n) == 0 {
      forall s: seq<real>, t: seq<real> {:trigger DecisionTable(plan, adapter, s, t)} | |s| == |t| == n
        ensures |PlanRejects(div, plan, DecisionTable(plan, adapter, s, t))| == 0
      {
        PowerCapHolds(div, plan, adapter, estimate, s, t);
      }
    }
  }

  /**
   * A sampled lagged-Pearson plan rejects on no data exactly when no count is allowed, or not every count is allowed
   * and either every state is unavoidable or two samples are scored by absolute value.
   */
  lemma PearsonNeverRejectsIff(div: Division, plan: Plan, adapter: Adapter, estimate: Estimator, n: nat)
    requires div.Sound() && PlanOk(plan) && Evaluates(adapter, plan, estimate, n) && 2 * plan.nullParameter <= n
    requires PearsonOn(estimate, n - MaxLag(plan.candidates))
    ensures NeverRejectsWith(div, plan, adapter, n) <==>
      var k := Allowed(div, plan.alpha, plan.replicates);
      k == 0 || (k <= plan.replicates
                 && (Unavoidable(plan, n) == PlanStates(plan, n)
                     || (n - MaxLag(plan.candidates) == 2 && plan.rule.MaxAbsolute?)))
  {
    var size := n - MaxLag(plan.candidates);
    if size == 2 && plan.rule.MaxAbsolute? {
      PearsonUnitPairs(estimate);
      PearsonAnswersWindows(estimate, n, size, Matching(plan.rule, n, size));
      UnitNeverRejectsIff(div, plan, adapter, estimate, n);
    } else {
      PearsonRanksWindows(estimate, plan.rule, n, size);
      RankedNeverRejectsIff(div, plan, adapter, estimate, n);
    }
  }

  /** So the refusal for too few states is not sound for sampling: this refused plan rejects on some data. */
  lemma SampledRefusalUnsound(div: Division, adapter: Adapter, estimate: Estimator)
    requires div.Sound() && forall a, n :: n > 0 ==> div.of(a, n) == a as real / n as real
    requires Evaluates(adapter, SampledPlan(), estimate, 4) && PearsonOn(estimate, 2)
    ensures Assess(div, SampledPlan(), true, 4).status == RefuseNullStatesTooFew
    ensures !NeverRejectsWith(div, SampledPlan(), adapter, 4)
  {
    SampledRefusal(div);
    ReplicatesEnough(div, SampledPlan(), 4);
    PearsonNeverRejectsIff(div, SampledPlan(), adapter, estimate, 4);
  }
}
