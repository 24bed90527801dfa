/** The exact-B calibration run: preparation, the budget guard, the replicate loop and the terminal result. */
module Execution {
  import opened Wrappers
  import opened Arithmetic
  import opened Contracts
  import opened Selection
  import opened Plans
  import opened NullModels
  import Counting
  import Randomness

  /** The digests of a run, each an uninterpreted function of what it commits to. */
  datatype Digests = Digests(
    plan: Plan -> string,
    semantic: (seq<real>, seq<real>, seq<int>) -> string,
    parameter: (NullName, int) -> string,
    owner: (string, string, string, int) -> string,
    seed: (string, int, int) -> string)

  ghost predicate DigestsOk(d: Digests) {
    && (forall p :: IsSha256(d.plan(p)))
    && (forall s, t, c :: IsSha256(d.semantic(s, t, c)))
    && (forall n, p :: IsSha256(d.parameter(n, p)))
    && (forall s, p, q, n :: IsSha256(d.owner(s, p, q, n)))
    && (forall p, i, b :: IsSha256(d.seed(p, i, b)))
  }

  datatype RunError = BindRefused | RawVectorInvalid | IdentityDrift | BudgetExceeded

  /** What a run is fixed by, apart from the random draws. */
  datatype Run = Run(plan: Plan, digests: Digests, adapter: Adapter, source: seq<real>, target: seq<real>) {
    function Length(): nat { |source| }

    function PlanSha(): string { digests.plan(plan) }

    function SemanticSha(): string { digests.semantic(source, target, plan.candidates) }

    function Seed(replicate: int): string { digests.seed(PlanSha(), replicate, plan.replicates) }

    function TokenFor(state: NullState): Token {
      var parameter := digests.parameter(plan.nullName, plan.nullParameter);
      Token(plan.nullName, parameter, SemanticSha(), PlanSha(),
            digests.owner(SemanticSha(), PlanSha(), parameter, Length()), IsIdentityState(state), state)
    }
  }

  predicate RunOk(run: Run) {
    PlanOk(run.plan) && |run.source| == |run.target|
  }

  // ---------------------------------------------------------------- preparation

  datatype Preparation =
    | Terminal(stage: RunFailureStage, observed: seq<StatisticResult>, diagnostics: seq<string>)
    | Prepared(observed: seq<StatisticResult>, selection: SelectionResult, diagnostics: seq<string>)

  /** The stages of preparation in the order the run goes through them. */
  function Prepare(run: Run): Result<Preparation, RunError>
    requires RunOk(run)
  {
    var plan, n := run.plan, run.Length();
    if n < MaxLag(plan.candidates) + run.adapter.minSupport then Err(BindRefused)
    else
      match BindNull(plan, n)
      case Disabled(diagnostics) => Ok(Terminal(NullBind, [], diagnostics))
      case Bound(diagnostics, _) =>
        if plan.nullName == CircularShiftExactV1 && plan.replicates != n - 1
        then Ok(Terminal(NullBind, [], diagnostics + ["enumeration_replicate_count_mismatch_v1"]))
        else
          var raw := run.adapter.evaluate(run.source, run.target);
          if !RawOk(raw, plan.candidates, run.adapter) then Err(RawVectorInvalid)
          else if HasFailure(raw)
          then Ok(Terminal(ObservedStatisticScan, raw, diagnostics + ["observed_statistic_scan_analytical_failure_v2"]))
          else
            RawSelectable(raw, plan, run.adapter);
            var (selection, scored) := Selected(raw, plan.candidates, plan.rule, plan.tieTolerance);
            Ok(Prepared(scored, selection, diagnostics))
  }

  // ---------------------------------------------------------------- the in-memory budget

  const MAX_REPLICATES := 1_000
  const MAX_CANDIDATE_EVALUATIONS := 5_000
  const MAX_TOKEN_STATE_UNITS := 25_000
  const MAX_WORK_UNITS := 2_500_000

  predicate WithinBudget(b: nat, c: nat, n: nat, s: nat) {
    && b <= MAX_REPLICATES && b * c <= MAX_CANDIDATE_EVALUATIONS && b * s <= MAX_TOKEN_STATE_UNITS
    && b * (c * n + s + n) <= MAX_WORK_UNITS
  }

  lemma FactorAtMost(x: nat, y: nat)
    requires y >= 1
    ensures x <= x * y
  {
    MulMonotone(1, y, x);
  }

  lemma {:induction false} WidthAtMost(n: nat, bits: nat)
    requires n < Counting.Pow(2, bits)
    ensures Randomness.BitLength(n) <= bits
  {
    if n > 0 { WidthAtMost(n / 2, bits - 1); }
  }

  lemma TwentyTwoBits()
    ensures Counting.Pow(2, 22) == 4_194_304
  {
    assert Counting.Pow(2, 11) == 2_048;
    assert Counting.Pow(2, 16) == 32 * Counting.Pow(2, 11);
    assert Counting.Pow(2, 22) == 64 * Counting.Pow(2, 16);
  }

  lemma OperandsSmall(b: nat, c: nat, n: nat, s: nat)
    requires b >= 1 && c >= 1 && n >= 1 && s >= 1 && WithinBudget(b, c, n, s)
    ensures b <= 2_500_000 && c <= 2_500_000 && n <= 2_500_000 && s <= 2_500_000
  {
    FactorAtMost(c, b);
    FactorAtMost(s, b);
    FactorAtMost(n, c);
    FactorAtMost(c * n + s + n, b);
  }

  /** The guard first refuses operands of more than 256 bits; a run within the caps has none of more than 22. */
  lemma WidthCheckRedundant(b: nat, c: nat, n: nat, s: nat)
    requires b >= 1 && c >= 1 && n >= 1 && s >= 1 && WithinBudget(b, c, n, s)
    ensures Randomness.BitLength(b) <= 22 && Randomness.BitLength(c) <= 22
    ensures Randomness.BitLength(n) <= 22 && Randomness.BitLength(s) <= 22
  {
    OperandsSmall(b, c, n, s);
    TwentyTwoBits();
    hide WithinBudget, Randomness.BitLength;
    WidthAtMost(b, 22);
    WidthAtMost(c, 22);
    WidthAtMost(n, 22);
    WidthAtMost(s, 22);
  }

  // ---------------------------------------------------------------- one replicate

  /** A bound run can execute the state of a replicate. */
  predicate StateReady(run: Run, state: NullState) {
    && RunOk(run) && BindNull(run.plan, run.Length()).Bound? && InUniverse(run.plan, run.Length(), state)
  }

  function TransformDiagnostics(run: Run, state: NullState): seq<string>
    requires StateReady(run, state)
  {
    if !IsIdentityState(state) && Transform(run.plan, run.source, state) == run.source
    then ["nonidentity_data_equivalent_v2"] else []
  }

  /** The outcome of a replicate from its raw vector. */
  function OutcomeFrom(
    run: Run, replicate: nat, state: NullState, raw: seq<StatisticResult>, diagnostics: seq<string>, observed: real)
    : Result<ReplicateOutcome, RunError>
    requires RunOk(run)
  {
    var token, identity := run.TokenFor(state), IsIdentityState(state);
    if !RawOk(raw, run.plan.candidates, run.adapter) then Err(RawVectorInvalid)
    else if HasFailure(raw) then
      if identity then Err(IdentityDrift)
      else Ok(ReplicateOutcome(replicate, run.Seed(replicate), ReplicateFailed, Some(StatisticScan), token, raw, None,
                               diagnostics + ["replicate_statistic_scan_analytical_failure_v2"]))
    else
      RawSelectable(raw, run.plan, run.adapter);
      var (selection, scored) := Selected(raw, run.plan.candidates, run.plan.rule, run.plan.tieTolerance);
      if identity && selection.decisionStatistic != observed then Err(IdentityDrift)
      else Ok(ReplicateOutcome(replicate, run.Seed(replicate), ReplicateComplete, None, token, scored,
                               Some(selection), diagnostics))
  }

  function OutcomeOf(run: Run, replicate: nat, state: NullState, observed: real): Result<ReplicateOutcome, RunError>
    requires StateReady(run, state)
  {
    OutcomeFrom(run, replicate, state, run.adapter.evaluate(Transform(run.plan, run.source, state), run.target),
                TransformDiagnostics(run, state), observed)
  }

  /** One draw per replicate, each of the kind the null asks for; a null that does not bind draws nothing. */
  predicate DrawsOk(run: Run, draws: seq<seq<int>>) {
    RunOk(run) && |draws| == run.plan.replicates
    && (BindNull(run.plan, run.Length()).Bound? ==>
          forall i :: 0 <= i < |draws| ==> DrawOk(run.plan, run.Length(), draws[i]))
  }

  function StateAt(run: Run, draws: seq<seq<int>>, i: nat): NullState
    requires DrawsOk(run, draws) && BindNull(run.plan, run.Length()).Bound? && i < |draws|
  {
    StateOf(run.plan, run.Length(), i, draws[i])
  }

  /** The run reaches its replicate loop: the null is bound and an enumeration has the right length. */
  predicate LoopReady(run: Run, draws: seq<seq<int>>) {
    && DrawsOk(run, draws) && BindNull(run.plan, run.Length()).Bound?
    && (run.plan.nullName == CircularShiftExactV1 ==> run.plan.replicates == run.Length() - 1)
  }

  lemma StateAtReady(run: Run, draws: seq<seq<int>>, i: nat)
    requires LoopReady(run, draws) && i < |draws|
    ensures StateReady(run, StateAt(run, draws, i))
  {
    StateOfInUniverse(run.plan, run.Length(), i, draws[i]);
  }

  function OutcomeAt(run: Run, draws: seq<seq<int>>, i: nat, observed: real): Result<ReplicateOutcome, RunError>
    requires LoopReady(run, draws) && i < |draws|
  {
    StateAtReady(run, draws, i);
    OutcomeOf(run, i, StateAt(run, draws, i), observed)
  }

  ghost predicate IsOutcomeTable(
    run: Run, draws: seq<seq<int>>, observed: real, t: seq<Result<ReplicateOutcome, RunError>>)
    requires LoopReady(run, draws)
  {
    |t| == |draws|
    && forall i {:trigger OutcomeAt(run, draws, i, observed)} ::
         0 <= i < |t| ==> t[i] == OutcomeAt(run, draws, i, observed)
  }

  /** What each replicate yields on its own. */
  function OutcomeTable(run: Run, draws: seq<seq<int>>, observed: real)
    : (t: seq<Result<ReplicateOutcome, RunError>>)
    requires LoopReady(run, draws)
    ensures IsOutcomeTable(run, draws, observed, t)
  {
    seq(|draws|, i requires 0 <= i < |draws| => OutcomeAt(run, draws, i, observed))
  }

  /** The values of the first count entries, or the first error among them. */
  function Collected<T>(t: seq<Result<T, RunError>>, count: nat): (r: Result<seq<T>, RunError>)
    requires count <= |t|
    ensures r.Ok? ==> |r.value| == count && forall i :: 0 <= i < count ==> t[i] == Ok(r.value[i])
  {
    if count == 0 then Ok([])
    else
      match Collected(t, count - 1)
      case Err(e) => Err(e)
      case Ok(values) => if t[count - 1].Err? then Err(t[count - 1].error) else Ok(values + [t[count - 1].value])
  }

  /** Once an entry stops the run, every longer collection is the same error. */
  lemma {:induction false} CollectedStop<T>(t: seq<Result<T, RunError>>, stopped: nat, count: nat)
    requires stopped <= count <= |t| && Collected(t, stopped).Err?
    ensures Collected(t, count) == Collected(t, stopped)
    decreases count
  {
    if stopped < count { CollectedStop(t, stopped, count - 1); }
  }

  function Outcomes(run: Run, draws: seq<seq<int>>, observed: real): Result<seq<ReplicateOutcome>, RunError>
    requires LoopReady(run, draws)
  {
    Collected(OutcomeTable(run, draws, observed), |draws|)
  }

  lemma TableAtIndex(run: Run, draws: seq<seq<int>>, i: nat, observed: real)
    requires LoopReady(run, draws) && i < |draws|
    ensures StateReady(run, StateOf(run.plan, run.Length(), i, draws[i]))
    ensures OutcomeTable(run, draws, observed)[i]
         == OutcomeOf(run, i, StateOf(run.plan, run.Length(), i, draws[i]), observed)
  {
    StateAtReady(run, draws, i);
    assert OutcomeTable(run, draws, observed)[i] == OutcomeAt(run, draws, i, observed);
  }

  method RunReplicate(run: Run, source: array<real>, replicate: nat, draw: seq<int>, observed: real)
    returns (r: Result<ReplicateOutcome, RunError>)
    requires RunOk(run) && source[..] == run.source && BindNull(run.plan, run.Length()).Bound?
    requires DrawOk(run.plan, run.Length(), draw)
    requires StateReady(run, StateOf(run.plan, run.Length(), replicate, draw))
    ensures r == OutcomeOf(run, replicate, StateOf(run.plan, run.Length(), replicate, draw), observed)
  {
    var state := SampleState(run.plan, run.Length(), replicate, draw);
    var transformed := ApplyNull(run.plan, source, state);
    var diagnostics :=
      if !IsIdentityState(state) && transformed[..] == run.source then ["nonidentity_data_equivalent_v2"] else [];
    var raw := run.adapter.evaluate(transformed[..], run.target);
    r := OutcomeFrom(run, replicate, state, raw, diagnostics, observed);
  }

  /** One replicate, told against the table. */
  method RunAt(
    run: Run, source: array<real>, draws: seq<seq<int>>, i: nat, observed: real,
    ghost t: seq<Result<ReplicateOutcome, RunError>>)
    returns (r: Result<ReplicateOutcome, RunError>)
    requires LoopReady(run, draws) && source[..] == run.source && IsOutcomeTable(run, draws, observed, t) && i < |t|
    ensures r == t[i]
  {
    StateAtReady(run, draws, i);
    r := RunReplicate(run, source, i, draws[i], observed);
    assert r == OutcomeAt(run, draws, i, observed);
  }

  method ExecuteReplicates(
    run: Run, source: array<real>, draws: seq<seq<int>>, observed: real,
    ghost t: seq<Result<ReplicateOutcome, RunError>>)
    returns (r: Result<seq<ReplicateOutcome>, RunError>)
    requires LoopReady(run, draws) && source[..] == run.source && IsOutcomeTable(run, draws, observed, t)
    ensures r == Collected(t, |draws|)
  {
    var history: seq<ReplicateOutcome> := [];
    var i := 0;
    while i < run.plan.replicates
      invariant 0 <= i <= run.plan.replicates && source[..] == run.source
      invariant Collected(t, i) == Ok(history)
    {
      var outcome := RunAt(run, source, draws, i, observed, t);
      i := i + 1;
      if outcome.Err? {
        CollectedStop(t, i, |draws|);
        return Err(outcome.error);
      }
      history := history + [outcome.value];
    }
    r := Ok(history);
  }

  // ---------------------------------------------------------------- the terminal result

  function TerminalResult(run: Run, stage: RunFailureStage, observed: seq<StatisticResult>, diagnostics: seq<string>)
    : CalibrationResult
  {
    CalibrationResult(
      NotEvaluable, Some(stage), run.SemanticSha(), run.PlanSha(), run.plan.replicates, run.plan.alpha,
      observed, None, [], 0, 0, None, None, None, None, diagnostics)
  }

  /** The result of a completed loop with e exceedances and f failures. */
  function ResultFromCounts(
    div: Division, run: Run, observed: seq<StatisticResult>, selection: SelectionResult, diagnostics: seq<string>,
    outcomes: seq<ReplicateOutcome>, e: nat, f: nat)
    : CalibrationResult
  {
    var b := run.plan.replicates;
    if f > 0 then
      CalibrationResult(
        NotEvaluable, Some(ReplicateExecution), run.SemanticSha(), run.PlanSha(), b, run.plan.alpha,
        observed, Some(selection), outcomes, e, f, None, Some(div.of(1 + e, b + 1)), Some(div.of(1 + e + f, b + 1)),
        None, diagnostics + ["replicate_execution_analytical_failure_v2"])
    else
      var p := div.of(1 + e, b + 1);
      CalibrationResult(
        Complete, None, run.SemanticSha(), run.PlanSha(), b, run.plan.alpha,
        observed, Some(selection), outcomes, e, 0, Some(p), None, None, Some(p <= run.plan.alpha), diagnostics)
  }

  function FinalResult(
    div: Division, run: Run, observed: seq<StatisticResult>, selection: SelectionResult, diagnostics: seq<string>,
    outcomes: seq<ReplicateOutcome>)
    : CalibrationResult
  {
    ResultFromCounts(div, run, observed, selection, diagnostics, outcomes,
                     CountExceedances(outcomes, selection.decisionStatistic), CountFailures(outcomes))
  }

  function StateUnits(run: Run): nat
    requires RunOk(run)
  {
    match BindNull(run.plan, run.Length())
    case Disabled(_) => 1
    case Bound(_, units) => units
  }

  /** The run passes the budget guard. */
  predicate Admitted(run: Run)
    requires RunOk(run)
  {
    WithinBudget(run.plan.replicates, |run.plan.candidates|, run.Length(), StateUnits(run))
  }

  /** The plan report's budget: None when the block length does not divide the sample count. */
  function ReportedBudget(plan: Plan, n: nat): Option<bool>
    requires PlanOk(plan)
  {
    if plan.nullName == BlockShuffleV2 && n % plan.nullParameter != 0 then None
    else
      var units := if plan.nullName == BlockShuffleV2 then n / plan.nullParameter else 1;
      Some(WithinBudget(plan.replicates, |plan.candidates|, n, units))
  }

  lemma PreparedIsReady(run: Run, draws: seq<seq<int>>)
    requires DrawsOk(run, draws) && Prepare(run).Ok? && Prepare(run).value.Prepared?
    ensures LoopReady(run, draws)
  {
  }

  /** What calibrating a run with the given draws returns, before the terminal verification. */
  function Calibrated(div: Division, run: Run, draws: seq<seq<int>>): Result<CalibrationResult, RunError>
    requires DrawsOk(run, draws)
  {
    match Prepare(run)
    case Err(e) => Err(e)
    case Ok(Terminal(stage, observed, diagnostics)) => Ok(TerminalResult(run, stage, observed, diagnostics))
    case Ok(Prepared(observed, selection, diagnostics)) =>
      PreparedIsReady(run, draws);
      if !Admitted(run) then Err(BudgetExceeded)
      else
        match Outcomes(run, draws, selection.decisionStatistic)
        case Err(e) => Err(e)
        case Ok(outcomes) => Ok(FinalResult(div, run, observed, selection, diagnostics, outcomes))
  }

  method Calibrate(div: Division, run: Run, source: array<real>, draws: seq<seq<int>>)
    returns (r: Result<CalibrationResult, RunError>)
    requires DrawsOk(run, draws) && source[..] == run.source
    ensures r == Calibrated(div, run, draws)
  {
    var preparation := Prepare(run);
    match preparation
    case Err(e) => r := Err(e);
    case Ok(Terminal(stage, observed, diagnostics)) => r := Ok(TerminalResult(run, stage, observed, diagnostics));
    case Ok(Prepared(observed, selection, diagnostics)) =>
      PreparedIsReady(run, draws);
      if !Admitted(run) { return Err(BudgetExceeded); }
      var outcomes := ExecuteReplicates(run, source, draws, selection.decisionStatistic,
                                        OutcomeTable(run, draws, selection.decisionStatistic));
      if outcomes.Err? { return Err(outcomes.error); }
      r := Ok(FinalResult(div, run, observed, selection, diagnostics, outcomes.value));
  }
}
