/** The three registered null models: binding to a series length, the states they hand out, and their application. */
module NullModels {
  import opened BlockShuffle
  import opened BlockMapping
  import opened Contracts
  import opened Circular
  import opened Plans

  const MAX_BLOCK_COUNT := 4096

  /** A null is disabled on a length, or bound with the state units its tokens retain. */
  datatype NullBinding = Disabled(diagnostics: seq<string>) | Bound(diagnostics: seq<string>, stateUnits: nat)

  function BindNull(plan: Plan, n: nat): NullBinding
    requires PlanOk(plan)
  {
    var parameter := plan.nullParameter;
    if plan.nullName == CircularShiftV2 then
      if 2 * parameter > n then Disabled(["shift_space_empty_v2"])
      else Bound(if 2 * parameter == n then ["circular_shift_orbit_resolution_v2"] else [], 1)
    else if plan.nullName == CircularShiftExactV1 then
      if 2 > n then Disabled(["shift_space_empty_exact_v1"]) else Bound([], 1)
    else
      if n % parameter != 0 then Disabled(["non_divisible_tail_v2"])
      else if n / parameter < 2 then Disabled(["fewer_than_two_blocks_v2"])
      else if n / parameter > MAX_BLOCK_COUNT then Disabled(["too_many_blocks_v2"])
      else Bound([], n / parameter)
  }

  /** The states a bound null may hand out; the result verifier admits exactly these. */
  predicate InUniverse(plan: Plan, n: nat, state: NullState)
    requires PlanOk(plan)
  {
    match state
    case CircularShiftState(shift) =>
      plan.nullName != BlockShuffleV2
      && if plan.nullName == CircularShiftV2 then InStateSpace(shift, n, plan.nullParameter) else 0 <= shift < n
    case BlockShuffleState(order) =>
      plan.nullName == BlockShuffleV2 && |order| == n / plan.nullParameter && IsOrder(order)
  }

  /** The answers the random source gives to one replicate's calls of randbelow. */
  predicate DrawOk(plan: Plan, n: nat, draw: seq<int>)
    requires PlanOk(plan)
  {
    if plan.nullName == CircularShiftV2 then |draw| == 1 && 0 <= draw[0] < StateCount(n, plan.nullParameter)
    else if plan.nullName == CircularShiftExactV1 then draw == []
    else draw != [] && |draw| == n / plan.nullParameter && ValidAnswers(draw)
  }

  /** The state of one replicate: sampled, or selected by the replicate index under enumeration. */
  function StateOf(plan: Plan, n: nat, replicate: nat, draw: seq<int>): NullState
    requires PlanOk(plan) && DrawOk(plan, n, draw)
  {
    if plan.nullName == CircularShiftV2 then CircularShiftState(ShiftOfIndex(draw[0], plan.nullParameter))
    else if plan.nullName == CircularShiftExactV1 then CircularShiftState(replicate + 1)
    else BlockShuffleState(Shuffled(draw))
  }

  lemma StateOfInUniverse(plan: Plan, n: nat, replicate: nat, draw: seq<int>)
    requires PlanOk(plan) && BindNull(plan, n).Bound? && DrawOk(plan, n, draw)
    requires plan.nullName == CircularShiftExactV1 ==> replicate + 1 < n
    ensures InUniverse(plan, n, StateOf(plan, n, replicate, draw))
  {
    if plan.nullName == BlockShuffleV2 { SampledIsOrder(draw); }
  }

  /** Draws the state as the bound null does: one index, the enumerated shift, or a Fisher-Yates order. */
  method SampleState(plan: Plan, n: nat, replicate: nat, draw: seq<int>) returns (state: NullState)
    requires PlanOk(plan) && BindNull(plan, n).Bound? && DrawOk(plan, n, draw)
    ensures state == StateOf(plan, n, replicate, draw)
  {
    if plan.nullName == CircularShiftV2 {
      var index := draw[0];
      state := CircularShiftState(if index == 0 then 0 else plan.nullParameter + index - 1);
    } else if plan.nullName == CircularShiftExactV1 {
      state := CircularShiftState(replicate + 1);
    } else {
      var order := SampleToken(draw);
      state := BlockShuffleState(order.value);
    }
  }

  // ---------------------------------------------------------------- application

  lemma BlocksCover(n: nat, length: nat, order: seq<int>)
    requires length > 0 && n % length == 0 && |order| == n / length && IsOrder(order)
    ensures n == |order| * length && Fits(n, order, length)
  {
    OrderFits(order, length);
  }

  /** The source a state produces. */
  function Transform(plan: Plan, source: seq<real>, state: NullState): (r: seq<real>)
    requires PlanOk(plan) && BindNull(plan, |source|).Bound? && InUniverse(plan, |source|, state)
    ensures |r| == |source|
  {
    match state
    case CircularShiftState(shift) => Rotate(source, shift)
    case BlockShuffleState(order) =>
      BlocksCover(|source|, plan.nullParameter, order);
      Rearrange(source, order, plan.nullParameter)
  }

  method ApplyNull(plan: Plan, source: array<real>, state: NullState) returns (r: array<real>)
    requires PlanOk(plan) && BindNull(plan, source.Length).Bound? && InUniverse(plan, source.Length, state)
    ensures fresh(r) && r[..] == Transform(plan, source[..], state)
  {
    match state
    case CircularShiftState(shift) => r := CircularPair(source, shift);
    case BlockShuffleState(order) =>
      BlocksCover(source.Length, plan.nullParameter, order);
      r := ApplyState(source, order, plan.nullParameter);
  }

  lemma AscendingRestores(source: seq<real>, count: nat, length: nat)
    requires |source| == count * length
    ensures Fits(|source|, Ascending(count), length) && Rearrange(source, Ascending(count), length) == source
  {
    RearrangeIdentity(source, count, length);
    assert source[..count * length] == source;
  }

  lemma BlockIdentity(source: seq<real>, order: seq<int>, length: nat)
    requires |source| == |order| * length && Fits(|source|, order, length) && order == Ascending(|order|)
    ensures Rearrange(source, order, length) == source
  {
    AscendingRestores(source, |order|, length);
  }

  lemma BlockTransform(plan: Plan, source: seq<real>, order: seq<int>)
    requires PlanOk(plan) && BindNull(plan, |source|).Bound? && InUniverse(plan, |source|, BlockShuffleState(order))
    ensures |source| == |order| * plan.nullParameter && Fits(|source|, order, plan.nullParameter)
    ensures Transform(plan, source, BlockShuffleState(order)) == Rearrange(source, order, plan.nullParameter)
  {
    BlocksCover(|source|, plan.nullParameter, order);
  }

  /** An identity state leaves the source as it is. */
  lemma IdentityRestores(plan: Plan, source: seq<real>, state: NullState)
    requires PlanOk(plan) && BindNull(plan, |source|).Bound? && InUniverse(plan, |source|, state)
    requires IsIdentityState(state)
    ensures Transform(plan, source, state) == source
  {
    match state
    case CircularShiftState(shift) => RotateZero(source);
    case BlockShuffleState(order) =>
      BlockTransform(plan, source, order);
      BlockIdentity(source, order, plan.nullParameter);
  }
}
