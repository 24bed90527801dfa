/** Laws of whole block-shuffle runs: the order each replicate draws, and what the run counts. */
module BlockRuns {
  import opened Wrappers
  import opened BlockShuffle
  import opened BlockMapping
  import opened Contracts
  import opened Plans
  import opened ExactOracle
  import opened Attainability
  import opened NullModels
  import opened Execution
  import opened Agreement
  import opened RunLaws

  // ---------------------------------------------------------------- one replicate

  /** A block plan on a source of n samples that its null binds to: between 2 and 4096 whole blocks. */
  predicate Blocked(plan: Plan, n: nat) {
    PlanOk(plan) && plan.nullName == BlockShuffleV2 && n % plan.nullParameter == 0
    && 2 <= n / plan.nullParameter <= 4096
  }

  /** An order of all the blocks. */
  predicate IsBlockOrder(plan: Plan, n: nat, order: seq<int>)
    requires PlanOk(plan)
  {
    |order| == n / plan.nullParameter && IsOrder(order)
  }

  /** The answers of the index source that produce an order make the replicate take exactly that order. */
  lemma OrderIsDrawn(plan: Plan, n: nat, replicate: nat, order: seq<int>)
    requires Blocked(plan, n) && IsBlockOrder(plan, n, order)
    ensures BindNull(plan, n) == Bound([], |order|)
    ensures DrawOk(plan, n, AnswersFor(order))
    ensures StateOf(plan, n, replicate, AnswersFor(order)) == BlockShuffleState(order)
  {
    EveryOrderSampled(order);
  }

  /** And any answers the source gives make it take the order their swaps produce. */
  lemma DrawnOrder(plan: Plan, n: nat, replicate: nat, draw: seq<int>)
    requires Blocked(plan, n) && DrawOk(plan, n, draw)
    ensures StateOf(plan, n, replicate, draw) == BlockShuffleState(Shuffled(draw))
    ensures IsBlockOrder(plan, n, Shuffled(draw)) && AnswersFor(Shuffled(draw)) == draw
  {
    OneAnswerVectorPerOrder(draw);
  }

  /** The decision of the source with its blocks rearranged. */
  function OrderDecision(run: Run, order: seq<int>): Option<real>
    requires Blocked(run.plan, run.Length()) && IsBlockOrder(run.plan, run.Length(), order)
  {
    BlocksCover(run.Length(), run.plan.nullParameter, order);
    Decision(run.plan, run.adapter, Rearrange(run.source, order, run.plan.nullParameter), run.target)
  }

  /** The data of an order other than the identity may still be the data themselves. */
  predicate SameData(run: Run, order: seq<int>)
    requires Blocked(run.plan, run.Length()) && IsBlockOrder(run.plan, run.Length(), order)
  {
    BlocksCover(run.Length(), run.plan.nullParameter, order);
    order != Ascending(|order|) && Rearrange(run.source, order, run.plan.nullParameter) == run.source
  }

  /** The outcome retains the order, and records the decision of the source rearranged by it. */
  predicate RecordsOrder(run: Run, outcome: ReplicateOutcome, order: seq<int>)
    requires Blocked(run.plan, run.Length()) && IsBlockOrder(run.plan, run.Length(), order)
  {
    && outcome.transformToken.state == BlockShuffleState(order)
    && outcome.transformToken.isIdentity == (order == Ascending(|order|))
    && Records(outcome, OrderDecision(run, order))
    && outcome.diagnostics
       == (if SameData(run, order) then ["nonidentity_data_equivalent_v2"] else [])
          + (if OrderDecision(run, order).None? then ["replicate_statistic_scan_analytical_failure_v2"] else [])
  }

  lemma OrderOutcome(run: Run, replicate: nat, order: seq<int>, observed: real)
    requires RunOk(run) && Blocked(run.plan, run.Length()) && IsBlockOrder(run.plan, run.Length(), order)
    requires StateReady(run, BlockShuffleState(order))
    requires OutcomeOf(run, replicate, BlockShuffleState(order), observed).Ok?
    ensures RecordsOrder(run, OutcomeOf(run, replicate, BlockShuffleState(order), observed).value, order)
  {
    var state := BlockShuffleState(order);
    BlockTransform(run.plan, run.source, order);
    RawRecords(run, replicate, state, run.adapter.evaluate(Transform(run.plan, run.source, state), run.target),
               TransformDiagnostics(run, state), observed);
  }

  // ---------------------------------------------------------------- whole runs

  /** One order per planned replicate. */
  predicate OrdersOk(run: Run, orders: seq<seq<int>>)
    requires PlanOk(run.plan)
  {
    |orders| == run.plan.replicates
    && forall i :: 0 <= i < |orders| ==> IsBlockOrder(run.plan, run.Length(), orders[i])
  }

  /** The answers of the index source behind the orders. */
  function DrawsOf(orders: seq<seq<int>>): (draws: seq<seq<int>>)
    requires forall i :: 0 <= i < |orders| ==> orders[i] != []
    ensures |draws| == |orders| && forall i :: 0 <= i < |draws| ==> draws[i] == AnswersFor(orders[i])
  {
    seq(|orders|, i requires 0 <= i < |orders| => AnswersFor(orders[i]))
  }

  lemma OrdersAreDraws(run: Run, orders: seq<seq<int>>)
    requires RunOk(run) && Blocked(run.plan, run.Length()) && OrdersOk(run, orders)
    ensures forall i :: 0 <= i < |orders| ==> orders[i] != []
    ensures DrawsOk(run, DrawsOf(orders))
  {
    forall i | 0 <= i < |orders| ensures DrawOk(run.plan, run.Length(), AnswersFor(orders[i])) {
      OrderIsDrawn(run.plan, run.Length(), i, orders[i]);
    }
  }

  /** The outcomes of a run, position by position. */
  predicate RecordsOrders(run: Run, outcomes: seq<ReplicateOutcome>, orders: seq<seq<int>>)
    requires Blocked(run.plan, run.Length()) && OrdersOk(run, orders)
  {
    |outcomes| == |orders| && forall i :: 0 <= i < |outcomes| ==> RecordsOrder(run, outcomes[i], orders[i])
  }

  lemma BlockRecord(run: Run, orders: seq<seq<int>>, i: nat, outcomes: seq<ReplicateOutcome>, observed: real)
    requires Registered(run) && Blocked(run.plan, run.Length()) && OrdersOk(run, orders) && i < |orders|
    requires forall k :: 0 <= k < |orders| ==> orders[k] != []
    requires LoopReady(run, DrawsOf(orders)) && Outcomes(run, DrawsOf(orders), observed) == Ok(outcomes)
    ensures |outcomes| == |orders| && RecordsOrder(run, outcomes[i], orders[i])
  {
    OrderIsDrawn(run.plan, run.Length(), i, orders[i]);
    TableAtIndex(run, DrawsOf(orders), i, observed);
    OrderOutcome(run, i, orders[i], observed);
  }

  /** The loop of a prepared block run records the drawn orders in order. */
  lemma BlockRunRecords(run: Run, orders: seq<seq<int>>) returns (outcomes: seq<ReplicateOutcome>)
    requires Registered(run) && Blocked(run.plan, run.Length()) && OrdersOk(run, orders)
    requires Prepare(run).Ok? && Prepare(run).value.Prepared?
    ensures forall i :: 0 <= i < |orders| ==> orders[i] != []
    ensures LoopReady(run, DrawsOf(orders))
    ensures Outcomes(run, DrawsOf(orders), Prepare(run).value.selection.decisionStatistic) == Ok(outcomes)
    ensures RecordsOrders(run, outcomes, orders)
  {
    OrdersAreDraws(run, orders);
    LoopCompletes(run, DrawsOf(orders));
    var observed := Prepare(run).value.selection.decisionStatistic;
    outcomes := Outcomes(run, DrawsOf(orders), observed).value;
    forall i | 0 <= i < |outcomes| ensures RecordsOrder(run, outcomes[i], orders[i]) {
      BlockRecord(run, orders, i, outcomes, observed);
    }
  }

  // ---------------------------------------------------------------- counts

  /** The decision each order leads to. */
  function OrderDecisions(run: Run, orders: seq<seq<int>>): (ds: seq<Option<real>>)
    requires Blocked(run.plan, run.Length()) && OrdersOk(run, orders)
    ensures |ds| == |orders| && forall i :: 0 <= i < |ds| ==> ds[i] == OrderDecision(run, orders[i])
  {
    seq(|orders|, i requires 0 <= i < |orders| => OrderDecision(run, orders[i]))
  }

  /** How many decisions reach the observed one. */
  function Reaching(ds: seq<Option<real>>, observed: real): (e: nat)
    ensures e <= |ds|
  {
    if ds == [] then 0
    else Reaching(ds[..|ds| - 1], observed) + if Reaches(ds[|ds| - 1], observed) then 1 else 0
  }

  predicate AllDecide(ds: seq<Option<real>>) {
    forall i :: 0 <= i < |ds| ==> ds[i].Some?
  }

  predicate RecordsAll(outcomes: seq<ReplicateOutcome>, ds: seq<Option<real>>) {
    |outcomes| == |ds| && forall i :: 0 <= i < |ds| ==> Records(outcomes[i], ds[i])
  }

  lemma {:induction false} RecordedCounts(outcomes: seq<ReplicateOutcome>, ds: seq<Option<real>>, observed: real)
    requires RecordsAll(outcomes, ds)
    ensures CountExceedances(outcomes, observed) == Reaching(ds, observed)
    ensures CountFailures(outcomes) == 0 <==> AllDecide(ds)
    decreases |ds|
  {
    if ds != [] {
      var last := |ds| - 1;
      RecordedCounts(outcomes[..last], ds[..last], observed);
      RecordCounts(outcomes[last], ds[last], observed);
    }
  }

  /** The observed decision of a prepared run is the decision of the data as they are. */
  lemma PreparedDecides(run: Run)
    requires Registered(run) && Prepare(run).Ok? && Prepare(run).value.Prepared?
    ensures Decision(run.plan, run.adapter, run.source, run.target)
         == Some(Prepare(run).value.selection.decisionStatistic)
  {
    PreparedFrom(run);
  }

  lemma UnpreparedDecidesNothing(run: Run)
    requires Registered(run) && Blocked(run.plan, run.Length()) && Prepare(run).Ok? && Prepare(run).value.Terminal?
    ensures Decision(run.plan, run.adapter, run.source, run.target).None?
  {
    VectorOfRun(run, run.source);
    RawSelectable(run.adapter.evaluate(run.source, run.target), run.plan, run.adapter);
  }

  /** What a block run reports: its count, and the p and the decision it gives. */
  predicate ReportsCount(div: Division, plan: Plan, result: CalibrationResult, ds: seq<Option<real>>, observed: real)
    requires PlanOk(plan)
  {
    var p := div.of(1 + Reaching(ds, observed), plan.replicates + 1);
    && result.exceedanceCount == Reaching(ds, observed)
    && (result.status.Complete? <==> AllDecide(ds))
    && result.pValue == (if AllDecide(ds) then Some(p) else None)
    && result.rejectNull == (if AllDecide(ds) then Some(p <= plan.alpha) else None)
  }

  lemma FinalReportsCount(
    div: Division, run: Run, p: Preparation, outcomes: seq<ReplicateOutcome>, ds: seq<Option<real>>)
    requires RunOk(run) && p.Prepared? && RecordsAll(outcomes, ds)
    ensures ReportsCount(div, run.plan, FinalResult(div, run, p.observed, p.selection, p.diagnostics, outcomes), ds,
                         p.selection.decisionStatistic)
  {
    RecordedCounts(outcomes, ds, p.selection.decisionStatistic);
  }

  lemma OrdersRecorded(run: Run, outcomes: seq<ReplicateOutcome>, orders: seq<seq<int>>)
    requires Blocked(run.plan, run.Length()) && OrdersOk(run, orders) && RecordsOrders(run, outcomes, orders)
    ensures RecordsAll(outcomes, OrderDecisions(run, orders))
  {
    forall i | 0 <= i < |outcomes| ensures Records(outcomes[i], OrderDecisions(run, orders)[i]) {
      assert RecordsOrder(run, outcomes[i], orders[i]);
    }
  }

  /**
   * The run on given orders: it is evaluated exactly when the data decide, and then it retains every order in its
   * place, counts the orders that reach the observed decision and reports p over them.
   */
  lemma BlockRunReports(div: Division, run: Run, orders: seq<seq<int>>, result: CalibrationResult)
    requires Registered(run) && Blocked(run.plan, run.Length()) && OrdersOk(run, orders)
    requires forall i :: 0 <= i < |orders| ==> orders[i] != []
    requires DrawsOk(run, DrawsOf(orders)) && Calibrated(div, run, DrawsOf(orders)) == Ok(result)
    ensures match Decision(run.plan, run.adapter, run.source, run.target)
      case None => result.status.NotEvaluable? && result.replicates == [] && result.rejectNull.None?
      case Some(observed) => RecordsOrders(run, result.replicates, orders)
                             && ReportsCount(div, run.plan, result, OrderDecisions(run, orders), observed)
  {
    VectorOfRun(run, run.source);
    if Prepare(run).value.Prepared? {
      PreparedDecides(run);
      var outcomes := BlockRunRecords(run, orders);
      OrdersRecorded(run, outcomes, orders);
      FinalReportsCount(div, run, Prepare(run).value, outcomes, OrderDecisions(run, orders));
    } else {
      UnpreparedDecidesNothing(run);
    }
  }

  lemma BlockRunReturns(div: Division, run: Run, draws: seq<seq<int>>)
    requires Registered(run) && Blocked(run.plan, run.Length()) && DrawsOk(run, draws)
    ensures Calibrated(div, run, draws).Ok?
       <==> Admitted(run) || Decision(run.plan, run.adapter, run.source, run.target).None?
  {
    VectorOfRun(run, run.source);
    if Prepare(run).value.Prepared? {
      PreparedDecides(run);
      var outcomes := PreparedReturns(div, run, draws);
    } else {
      UnpreparedDecidesNothing(run);
    }
  }

  lemma CountDecides(
    div: Division, plan: Plan, result: CalibrationResult, ds: seq<Option<real>>, observed: real)
    requires PlanOk(plan) && ReportsCount(div, plan, result, ds, observed)
    ensures result.rejectNull == Some(true)
       <==> AllDecide(ds) && Rejects(div, plan.alpha, plan.replicates, Reaching(ds, observed))
  {
  }

  /** A block run rejects exactly when it is admitted, everything decides and few enough orders reach the decision. */
  lemma BlockRunRejectsIff(div: Division, run: Run, orders: seq<seq<int>>, ds: seq<Option<real>>)
    requires Registered(run) && Blocked(run.plan, run.Length()) && OrdersOk(run, orders)
    requires ds == OrderDecisions(run, orders)
    ensures forall i :: 0 <= i < |orders| ==> orders[i] != []
    ensures DrawsOk(run, DrawsOf(orders))
    ensures RunRejects(div, run, DrawsOf(orders))
       <==> Admitted(run) && Decision(run.plan, run.adapter, run.source, run.target).Some? && AllDecide(ds)
            && Rejects(div, run.plan.alpha, run.plan.replicates,
                       Reaching(ds, Decision(run.plan, run.adapter, run.source, run.target).value))
  {
    OrdersAreDraws(run, orders);
    BlockRunReturns(div, run, DrawsOf(orders));
    if Calibrated(div, run, DrawsOf(orders)).Ok? {
      var result := Calibrated(div, run, DrawsOf(orders)).value;
      BlockRunReports(div, run, orders, result);
      var decision := Decision(run.plan, run.adapter, run.source, run.target);
      if decision.Some? { CountDecides(div, run.plan, result, ds, decision.value); }
    }
  }
}
