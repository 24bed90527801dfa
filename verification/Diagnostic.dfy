/** The diagnostic script's own enumeration of the circular states, as an independent reference for the oracle. */
module Diagnostic {
  import opened Wrappers
  import opened Contracts
  import opened Circular
  import opened Plans
  import opened ExactOracle

  const MAX_STATES := 720
  const MAX_SUPPORT_VISITS := 100_000

  datatype ReferenceStatus = NullDisabled | ResourceLimit | CompleteTable | AnalyticallyUnevaluable

  datatype Reference = Reference(
    status: ReferenceStatus,
    exceedances: Option<nat>,
    failures: Option<nat>,
    denominator: Option<int>,
    p: Option<real>)

  function Empty(status: ReferenceStatus): Reference {
    Reference(status, None, None, None, None)
  }

  /** The states in the order the script visits them: the identity first, then the admitted shifts. */
  function StateList(n: nat, minShift: nat): (states: seq<nat>)
    requires 1 <= minShift && 2 * minShift <= n
    ensures |states| == StateCount(n, minShift)
    ensures forall k :: 0 <= k < |states| ==> states[k] == ShiftOfIndex(k, minShift) && states[k] < n
  {
    seq(StateCount(n, minShift), k requires 0 <= k < StateCount(n, minShift) => ShiftOfIndex(k, minShift))
  }

  /** How many of the first count states fail to decide. */
  function Failing(t: seq<Option<real>>, states: seq<nat>, count: nat): nat
    requires count <= |states| && forall k :: 0 <= k < |states| ==> states[k] < |t|
  {
    if count == 0 then 0 else Failing(t, states, count - 1) + if t[states[count - 1]].None? then 1 else 0
  }

  lemma {:induction false} FailingNone(t: seq<Option<real>>, minShift: nat, states: seq<nat>, count: nat)
    requires 1 <= minShift && 2 * minShift <= |t| && states == StateList(|t|, minShift) && count <= |states|
    ensures Failing(t, states, count) == 0 <==>
      (count > 0 ==> t[0].Some?) && (count > 1 ==> AllDecided(t, minShift, minShift + count - 1))
  {
    if count > 0 { FailingNone(t, minShift, states, count - 1); }
  }

  /** How far the shifts have been counted after the given number of states. */
  function CountedTo(minShift: nat, ordinal: nat): nat {
    if ordinal <= 1 then minShift else minShift + ordinal - 1
  }

  /** The script's loop over the states, with its running observed maximum, exceedance and failure counts. */
  method CountStates(scan: Scan, source: seq<real>, target: seq<real>, minShift: nat, ghost t: seq<Option<real>>)
    returns (observed: Option<real>, exceedances: nat, failures: nat)
    requires 1 <= minShift && 2 * minShift <= |source| && t == Decisions(scan, source, target)
    ensures observed == t[0] && (failures == 0 <==> Evaluable(t, minShift))
    ensures failures == 0 ==> exceedances == Exceedances(t, minShift)
  {
    var states := StateList(|source|, minShift);
    observed, exceedances, failures := None, 0, 0;
    for ordinal := 0 to |states|
      invariant failures == Failing(t, states, ordinal)
      invariant observed == if ordinal == 0 then None else t[0]
      invariant observed.None? ==> exceedances == 0
      invariant observed.Some? ==> exceedances == Exceeding(t, observed.value, minShift, CountedTo(minShift, ordinal))
    {
      var selected := scan(Rotate(source, states[ordinal]), target);
      assert selected == t[states[ordinal]];
      if ordinal == 0 && selected.Some? { observed := selected; }
      if selected.None? {
        failures := failures + 1;
      } else if observed.Some? && ordinal != 0 && selected.value >= observed.value {
        exceedances := exceedances + 1;
      }
    }
    FailingNone(t, minShift, states, |states|);
  }

  /** The reference on the circular null: the same admission order, the same verdict and the same p as the oracle. */
  method ReferenceExact(
    div: Division, scan: Scan, source: seq<real>, target: seq<real>, minShift: int, family: nat, maxLag: nat)
    returns (r: Reference)
    requires minShift >= 1 && |source| >= maxLag + 2
    ensures var n, t := |source|, Decisions(scan, source, target);
      if 2 * minShift > n then r == Empty(NullDisabled)
      else if StateCount(n, minShift) > 720
              || StateCount(n, minShift) * family * (n - maxLag) > 100_000
      then r == Empty(ResourceLimit)
      else if Evaluable(t, minShift)
      then r == Reference(CompleteTable, Some(Exceedances(t, minShift)), Some(0), Some(StateCount(n, minShift)),
                          Some(div.of(1 + Exceedances(t, minShift), StateCount(n, minShift))))
      else r.status == AnalyticallyUnevaluable && r.p.None? && r.denominator == Some(StateCount(n, minShift))
  {
    var n := |source|;
    if 2 * minShift > n { return Empty(NullDisabled); }
    var total := StateCount(n, minShift);
    if total > MAX_STATES || total * family * (n - maxLag) > MAX_SUPPORT_VISITS { return Empty(ResourceLimit); }
    var observed, exceedances, failures := CountStates(scan, source, target, minShift, Decisions(scan, source, target));
    r := Reference(
      if failures == 0 then CompleteTable else AnalyticallyUnevaluable,
      if observed.Some? then Some(exceedances) else None, Some(failures), Some(total),
      if failures == 0 then Some(div.of(1 + exceedances, total)) else None);
  }
}
