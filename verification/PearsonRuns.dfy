/** Whole runs of the lagged Pearson correlation: the reported power cap is exact. */
module PearsonRuns {
  import opened Counting
  import opened Contracts
  import opened Circular
  import opened Plans
  import opened Attainability
  import opened PowerCap
  import opened Execution
  import opened Agreement
  import opened RunLaws
  import opened Pearson
  import opened PearsonPower

  lemma RejectingWord(div: Division, run: Run, word: seq<nat>)
    requires Registered(run) && Sampled(run) && Admitted(run) && word in PlanRejects(div, run.plan, Table(run))
    ensures IsWordOf(run, word) && DrawsOk(run, DrawsFrom(word)) && RunRejects(div, run, DrawsFrom(word))
  {
    WordsAre(run.plan.replicates, Letters(StateCount(run.Length(), run.plan.nullParameter)), word);
    SampledRunRejectsIff(div, run, word);
  }

  lemma RejectingWords(div: Division, run: Run, rejecting: set<seq<nat>>)
    requires Registered(run) && Sampled(run) && Admitted(run) && rejecting == PlanRejects(div, run.plan, Table(run))
    ensures forall word :: word in rejecting ==>
      IsWordOf(run, word) && DrawsOk(run, DrawsFrom(word)) && RunRejects(div, run, DrawsFrom(word))
  {
    forall word | word in rejecting
      ensures IsWordOf(run, word) && DrawsOk(run, DrawsFrom(word)) && RunRejects(div, run, DrawsFrom(word))
    {
      RejectingWord(div, run, word);
    }
  }

  /** Some pair makes exactly the reported share of the draw sequences end in a rejection of the whole run. */
  lemma PearsonRunsAttainCap(
    div: Division, plan: Plan, digests: Digests, adapter: Adapter, estimate: Estimator, n: nat)
    returns (run: Run, rejecting: set<seq<nat>>)
    requires div.Sound() && PlanOk(plan) && Evaluates(adapter, plan, estimate, n) && 2 * plan.nullParameter <= n
    requires PearsonOn(estimate, n - MaxLag(plan.candidates)) && plan.nullName == CircularShiftV2
    requires n - MaxLag(plan.candidates) == 2 ==> plan.rule.MaxUpper?
    requires ReportedBudget(plan, n).value
    ensures run.plan == plan && run.adapter == adapter && run.Length() == n && Registered(run)
    ensures forall word :: word in rejecting ==>
      IsWordOf(run, word) && DrawsOk(run, DrawsFrom(word)) && RunRejects(div, run, DrawsFrom(word))
    ensures DrawCount(plan, n) > 0 && |rejecting| as real / DrawCount(plan, n) as real == Cap(div, plan, n)
  {
    hide DrawsOk, IsWordOf, RunRejects, PlanRejects, Cap, PearsonOn, DrawCount;
    var source, target := PearsonAttainsCap(div, plan, adapter, estimate, n);
    run := Run(plan, digests, adapter, source, target);
    rejecting := PlanRejects(div, plan, Table(run));
    ReportedBudgetIsGuard(run);
    RejectingWords(div, run, rejecting);
    CapIsShare(div, plan, n);
  }
}
