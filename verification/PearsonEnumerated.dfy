/** The reported cap of an enumerated plan: 0.0 when no run can reject, 1.0 when some lagged-Pearson run does. */
module PearsonEnumerated {
  import opened Wrappers
  import opened Arithmetic
  import opened Contracts
  import opened Circular
  import opened Plans
  import opened ExactOracle
  import opened Attainability
  import opened Collisions
  import opened PowerCapAttained
  import opened Execution
  import opened Agreement
  import opened RunLaws
  import opened Pearson
  import opened Sawtooth
  import opened PearsonPower
  import opened PearsonOrbit

  /** An exact enumeration of n samples with the one replicate count it admits. */
  predicate Enumerates(plan: Plan, n: nat) {
    PlanOk(plan) && plan.nullName == CircularShiftExactV1 && n >= 2 && plan.replicates == n - 1
  }

  /** The exact test decides on every state of the pair and its p does not exceed alpha. */
  predicate TestRejects(div: Division, plan: Plan, t: seq<Option<real>>)
    requires PlanOk(plan) && 2 <= |t|
  {
    Evaluable(t, 1) && Rejects(div, plan.alpha, plan.replicates, Exceedances(t, 1))
  }

  // ---------------------------------------------------------------- what the report says

  /** The report of an enumerated plan: cap and verdict are two forms of one comparison. */
  lemma ReportIs(div: Division, plan: Plan, n: nat)
    requires div.Sound() && Enumerates(plan, n) && Unavoidable(plan, n) >= 1
    ensures var report := Assess(div, plan, true, n);
      var within := div.of(Unavoidable(plan, n), n) <= plan.alpha;
      && report.powerCap == Some(if within then 1.0 else 0.0)
      && (report.status == Pass <==> within)
      && (report.status != Pass ==> report.status == RefuseReplicatesTooFew || report.status == RefuseNullStatesTooFew)
  {
    assert div.of(1, n) <= div.of(Unavoidable(plan, n), n);
  }

  /** Every candidate collides with itself. */
  lemma {:induction false} SelfCollision(candidates: seq<int>, selected: int, n: nat, minShift: nat)
    requires n > 0 && selected in candidates
    ensures CollidingWith(candidates, selected, n, minShift) >= 1
  {
    var last := |candidates| - 1;
    if candidates[last] == selected {
      assert Wrap(selected - selected, n) == 0;
    } else {
      assert selected in candidates[..last];
      SelfCollision(candidates[..last], selected, n, minShift);
    }
  }

  lemma UnavoidablePositive(plan: Plan, n: nat)
    requires PlanOk(plan) && n > 0
    ensures Unavoidable(plan, n) >= 1
  {
    var i :| 0 <= i < |plan.candidates|
             && Unavoidable(plan, n) == CollidingWith(plan.candidates, plan.candidates[i], n, plan.nullParameter);
    SelfCollision(plan.candidates, plan.candidates[i], n, plan.nullParameter);
  }

  // ---------------------------------------------------------------- no data reject

  lemma MoreIsNoLess(div: Division, u: nat, count: nat, n: nat)
    requires div.Sound() && u <= count && n > 0
    ensures div.of(u, n) <= div.of(count, n)
  {
  }

  /** Above alpha, the unavoidable collisions keep every data set from rejecting. */
  lemma NoneRejects(
    div: Division, plan: Plan, adapter: Adapter, estimate: Estimator, source: seq<real>, target: seq<real>)
    requires div.Sound() && Enumerates(plan, |source|) && Bindable(plan, adapter, source, target)
    requires Lagged(adapter, plan.candidates, estimate)
    requires !(div.of(Unavoidable(plan, |source|), |source|) <= plan.alpha)
    ensures !TestRejects(div, plan, DecisionTable(plan, adapter, source, target))
  {
    hide Exceedances, CollidingWith, Lagged, Bindable, Evaluable;
    var t := DecisionTable(plan, adapter, source, target);
    if Evaluable(t, 1) {
      CollisionFloor(plan, adapter, estimate, source, target, 1);
      MoreIsNoLess(div, Unavoidable(plan, |source|), 1 + Exceedances(t, 1), |source|);
    }
  }

  // ---------------------------------------------------------------- some data reject

  /** When exactly the collision shifts reach the observed decision, 1 + E is their number. */
  lemma DetectedExceedances(plan: Plan, star: nat, t: seq<Option<real>>, shifts: set<int>)
    requires star < |plan.candidates| && 2 <= |t| && Detects(plan, star, t)
    requires shifts == CollisionShifts(plan.candidates, plan.candidates[star], |t|, 1)
    ensures Evaluable(t, 1) && 1 + Exceedances(t, 1) == |shifts|
  {
    var reached := Reached(t, t[0].GetOr(0.0), 1, |t|);
    ExceedingIs(t, t[0].GetOr(0.0), 1, |t|);
    assert Wrap(plan.candidates[star] - plan.candidates[star], |t|) == 0;
    forall s ensures s in shifts <==> s == 0 || s in reached {
      CollisionShiftsAre(plan.candidates, plan.candidates[star], |t|, 1, s);
    }
    OneMore(shifts, reached);
  }

  /** On the countdown with the fewest collisions, 1 + E is exactly the reported number of unavoidable states. */
  lemma CountdownExceedances(plan: Plan, adapter: Adapter, estimate: Estimator, n: nat)
    returns (source: seq<real>, target: seq<real>)
    requires Enumerates(plan, n) && Evaluates(adapter, plan, estimate, n)
    requires RanksWindows(estimate, plan.rule, n, n - MaxLag(plan.candidates))
    ensures |source| == |target| == n
    ensures var t := DecisionTable(plan, adapter, source, target);
      Evaluable(t, 1) && 1 + Exceedances(t, 1) == Unavoidable(plan, n)
  {
    var star := FewestCollisions(plan, n, 1);
    source, target := Countdown(Falling(), n, MaxLag(plan.candidates) - plan.candidates[star]), Reference(plan, n);
    StarDetects(plan, adapter, estimate, n, star, source);
    DetectedExceedances(plan, star, DecisionTable(plan, adapter, source, target),
                        CollisionShifts(plan.candidates, plan.candidates[star], n, 1));
  }

  lemma TestAt(div: Division, plan: Plan, t: seq<Option<real>>, c: int)
    requires Enumerates(plan, |t|) && Evaluable(t, 1) && 1 + Exceedances(t, 1) == c && div.of(c, |t|) <= plan.alpha
    ensures TestRejects(div, plan, t)
  {
  }

  lemma SomeRejects(div: Division, plan: Plan, adapter: Adapter, estimate: Estimator, n: nat)
    returns (source: seq<real>, target: seq<real>)
    requires div.Sound() && Enumerates(plan, n) && Evaluates(adapter, plan, estimate, n)
    requires RanksWindows(estimate, plan.rule, n, n - MaxLag(plan.candidates))
    requires div.of(Unavoidable(plan, n), n) <= plan.alpha
    ensures |source| == |target| == n && TestRejects(div, plan, DecisionTable(plan, adapter, source, target))
  {
    source, target := CountdownExceedances(plan, adapter, estimate, n);
    TestAt(div, plan, DecisionTable(plan, adapter, source, target), Unavoidable(plan, n));
  }

  // ---------------------------------------------------------------- two samples scored by absolute value

  lemma UnitTest(div: Division, plan: Plan, t: seq<Option<real>>)
    requires Enumerates(plan, |t|) && Unit(t)
    ensures TestRejects(div, plan, t) <==> Evaluable(t, 1) && div.of(|t|, |t|) <= plan.alpha
  {
    if Evaluable(t, 1) { UnitExceeding(t, 1, |t|); }
  }

  // ---------------------------------------------------------------- the exact condition

  ghost predicate NoDataReject(div: Division, plan: Plan, adapter: Adapter, n: nat)
    requires Enumerates(plan, n)
  {
    forall source: seq<real>, target: seq<real> {:trigger DecisionTable(plan, adapter, source, target)} ::
      |source| == |target| == n ==> !TestRejects(div, plan, DecisionTable(plan, adapter, source, target))
  }

  lemma NoDataRejectRanked(div: Division, plan: Plan, adapter: Adapter, estimate: Estimator, n: nat)
    requires div.Sound() && Enumerates(plan, n) && Evaluates(adapter, plan, estimate, n)
    requires RanksWindows(estimate, plan.rule, n, n - MaxLag(plan.candidates))
    ensures NoDataReject(div, plan, adapter, n) <==> !(div.of(Unavoidable(plan, n), n) <= plan.alpha)
  {
    if div.of(Unavoidable(plan, n), n) <= plan.alpha {
      var source, target := SomeRejects(div, plan, adapter, estimate, n);
    } else {
      forall source: seq<real>, target: seq<real> {:trigger DecisionTable(plan, adapter, source, target)}
        | |source| == |target| == n
        ensures !TestRejects(div, plan, DecisionTable(plan, adapter, source, target))
      {
        NoneRejects(div, plan, adapter, estimate, source, target);
      }
    }
  }

  lemma NoDataRejectUnit(div: Division, plan: Plan, adapter: Adapter, estimate: Estimator, n: nat)
    requires Enumerates(plan, n) && Evaluates(adapter, plan, estimate, n) && plan.rule.MaxAbsolute?
    requires n - MaxLag(plan.candidates) == 2 && UnitPairs(estimate) && AnswersAll(estimate, plan, n)
    ensures NoDataReject(div, plan, adapter, n) <==> !(div.of(n, n) <= plan.alpha)
  {
    if div.of(n, n) <= plan.alpha {
      var source := DecidedTable(plan, adapter, estimate, n);
      UnitTable(plan, adapter, estimate, n, source, Reference(plan, n));
      UnitTest(div, plan, DecisionTable(plan, adapter, source, Reference(plan, n)));
    } else {
      forall source: seq<real>, target: seq<real> {:trigger DecisionTable(plan, adapter, source, target)}
        | |source| == |target| == n
        ensures !TestRejects(div, plan, DecisionTable(plan, adapter, source, target))
      {
        UnitTable(plan, adapter, estimate, n, source, target);
        UnitTest(div, plan, DecisionTable(plan, adapter, source, target));
      }
    }
  }

  /**
   * An enumerated lagged-Pearson plan rejects on no data exactly when its least share of unavoidable states exceeds
   * alpha; with two samples scored by absolute value every state is unavoidable.
   */
  lemma EnumeratedNeverRejectsIff(div: Division, plan: Plan, adapter: Adapter, estimate: Estimator, n: nat)
    requires div.Sound() && Enumerates(plan, n) && Evaluates(adapter, plan, estimate, n)
    requires PearsonOn(estimate, n - MaxLag(plan.candidates))
    ensures var pair := n - MaxLag(plan.candidates) == 2 && plan.rule.MaxAbsolute?;
      var least := if pair then n else Unavoidable(plan, n);
      NoDataReject(div, plan, adapter, n) <==> !(div.of(least, n) <= plan.alpha)
  {
    var size := n - MaxLag(plan.candidates);
    if size == 2 && plan.rule.MaxAbsolute? {
      PearsonUnitPairs(estimate);
      PearsonAnswersWindows(estimate, n, size, Matching(plan.rule, n, size));
      NoDataRejectUnit(div, plan, adapter, estimate, n);
    } else {
      PearsonRanksWindows(estimate, plan.rule, n, size);
      NoDataRejectRanked(div, plan, adapter, estimate, n);
    }
  }

  /**
   * The report decides it: its cap is 0.0 and it refuses the plan exactly when no data reject, and its cap is 1.0 and
   * it passes the plan exactly when some data do.
   */
  lemma ReportDecides(div: Division, plan: Plan, adapter: Adapter, estimate: Estimator, n: nat)
    requires div.Sound() && Enumerates(plan, n) && Evaluates(adapter, plan, estimate, n)
    requires PearsonOn(estimate, n - MaxLag(plan.candidates))
    requires n - MaxLag(plan.candidates) == 2 ==> plan.rule.MaxUpper?
    ensures var report := Assess(div, plan, true, n);
      && (report.powerCap == Some(0.0) <==> NoDataReject(div, plan, adapter, n))
      && (report.powerCap == Some(1.0) <==> !NoDataReject(div, plan, adapter, n))
      && (NoDataReject(div, plan, adapter, n)
          <==> report.status == RefuseReplicatesTooFew || report.status == RefuseNullStatesTooFew)
      && (report.status == Pass <==> !NoDataReject(div, plan, adapter, n))
  {
    UnavoidablePositive(plan, n);
    ReportIs(div, plan, n);
    EnumeratedNeverRejectsIff(div, plan, adapter, estimate, n);
  }

  /** One lag on three samples, scored by absolute value, enumerated. */
  function PairPlan(): Plan {
    Plan([1], MaxAbsolute, CircularShiftExactV1, 1, 2, 0.5, 0.0)
  }

  /** So a plan that passes with cap 1.0 may still reject on no data: two samples are always perfectly correlated. */
  lemma PairPlanNeverRejects(div: Division, adapter: Adapter, estimate: Estimator)
    requires div.Sound() && forall a, n :: n > 0 ==> div.of(a, n) == a as real / n as real
    requires Evaluates(adapter, PairPlan(), estimate, 3) && PearsonOn(estimate, 2)
    ensures Assess(div, PairPlan(), true, 3).status == Pass && Assess(div, PairPlan(), true, 3).powerCap == Some(1.0)
    ensures NoDataReject(div, PairPlan(), adapter, 3)
  {
    assert CollidingWith([1], 1, 3, 1) == 1;
    EnumeratedNeverRejectsIff(div, PairPlan(), adapter, estimate, 3);
  }

  // ---------------------------------------------------------------- whole runs

  lemma CompleteRejectsIff(
    div: Division, run: Run, observed: seq<StatisticResult>, selection: SelectionResult, diagnostics: seq<string>,
    outcomes: seq<ReplicateOutcome>, t: seq<Option<real>>)
    requires PlanOk(run.plan) && 2 <= |t|
    requires CountFailures(outcomes) == 0 <==> Evaluable(t, 1)
    requires Evaluable(t, 1) ==> CountExceedances(outcomes, selection.decisionStatistic) == Exceedances(t, 1)
    ensures FinalResult(div, run, observed, selection, diagnostics, outcomes).rejectNull == Some(true)
       <==> TestRejects(div, run.plan, t)
  {
  }

  lemma PreparedRejectsIff(div: Division, run: Run, draws: seq<seq<int>>)
    requires Registered(run) && DrawsOk(run, draws) && Enumerates(run.plan, run.Length())
    requires Prepare(run).Ok? && Prepare(run).value.Prepared?
    ensures RunRejects(div, run, draws) <==> Admitted(run) && TestRejects(div, run.plan, Table(run))
  {
    EnumeratedOutcomes(run, draws);
    var p := Prepare(run).value;
    var outcomes := Outcomes(run, draws, p.selection.decisionStatistic).value;
    CompleteRejectsIff(div, run, p.observed, p.selection, p.diagnostics, outcomes, Table(run));
  }

  /** An enumerated run rejects exactly when it is admitted and the exact test on its rotations rejects. */
  lemma EnumeratedRunRejectsIff(div: Division, run: Run, draws: seq<seq<int>>)
    requires Registered(run) && DrawsOk(run, draws) && Enumerates(run.plan, run.Length())
    ensures RunRejects(div, run, draws) <==> Admitted(run) && TestRejects(div, run.plan, Table(run))
  {
    VectorOfRun(run, run.source);
    if Prepare(run).value.Prepared? {
      PreparedRejectsIff(div, run, draws);
    } else {
      UnpreparedUndecided(run);
    }
  }

  /** An enumeration draws nothing. */
  function NoDraws(count: nat): (draws: seq<seq<int>>)
    ensures |draws| == count && forall i :: 0 <= i < count ==> draws[i] == []
  {
    seq(count, _ => [])
  }

  lemma RunOnRejecting(div: Division, run: Run, n: nat)
    requires Registered(run) && run.Length() == n && Enumerates(run.plan, n)
    requires ReportedBudget(run.plan, n) == Some(true)
    requires TestRejects(div, run.plan, Table(run))
    ensures DrawsOk(run, NoDraws(run.plan.replicates)) && RunRejects(div, run, NoDraws(run.plan.replicates))
  {
    ReportedBudgetIsGuard(run);
    EnumeratedRunRejectsIff(div, run, NoDraws(run.plan.replicates));
  }

  /** A plan whose reported cap is 1.0 has an admitted run of lagged Pearson that rejects. */
  lemma PassingPlanRejects(
    div: Division, plan: Plan, digests: Digests, adapter: Adapter, estimate: Estimator, n: nat) returns (run: Run)
    requires div.Sound() && Enumerates(plan, n) && Evaluates(adapter, plan, estimate, n)
    requires PearsonOn(estimate, n - MaxLag(plan.candidates))
    requires n - MaxLag(plan.candidates) == 2 ==> plan.rule.MaxUpper?
    requires ReportedBudget(plan, n) == Some(true) && Assess(div, plan, true, n).powerCap == Some(1.0)
    ensures run.plan == plan && run.adapter == adapter && run.Length() == n && Registered(run)
    ensures DrawsOk(run, NoDraws(plan.replicates)) && RunRejects(div, run, NoDraws(plan.replicates))
  {
    UnavoidablePositive(plan, n);
    ReportIs(div, plan, n);
    PearsonRanksWindows(estimate, plan.rule, n, n - MaxLag(plan.candidates));
    var source, target := SomeRejects(div, plan, adapter, estimate, n);
    run := Run(plan, digests, adapter, source, target);
    RunOnRejecting(div, run, n);
  }

  /** A plan whose reported cap is 0.0 has no run that rejects, whatever the lagged statistic and the data. */
  lemma RefusedPlanNeverRejects(div: Division, run: Run, draws: seq<seq<int>>, estimate: Estimator)
    requires div.Sound() && Registered(run) && DrawsOk(run, draws) && Enumerates(run.plan, run.Length())
    requires Lagged(run.adapter, run.plan.candidates, estimate)
    requires Assess(div, run.plan, true, run.Length()).powerCap == Some(0.0)
    ensures !RunRejects(div, run, draws)
  {
    UnavoidablePositive(run.plan, run.Length());
    ReportIs(div, run.plan, run.Length());
    NoneRejects(div, run.plan, run.adapter, estimate, run.source, run.target);
    EnumeratedRunRejectsIff(div, run, draws);
  }
}
