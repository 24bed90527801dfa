/** When the registered nulls bind, what they say about it, and that their states are told apart by the data. */
module NullBindings {
  import opened Arithmetic
  import opened BlockShuffle
  import opened BlockMapping
  import opened Contracts
  import opened Circular
  import opened Plans
  import opened NullModels

  /** A state of the universe that is not the identity. */
  predicate Moves(plan: Plan, n: nat, state: NullState)
    requires PlanOk(plan)
  {
    InUniverse(plan, n, state) && !IsIdentityState(state)
  }

  function Reversed(count: nat): (order: seq<int>)
    ensures |order| == count
  {
    seq(count, i => count - 1 - i)
  }

  lemma ReversedMoves(count: nat)
    requires count >= 2
    ensures IsOrder(Reversed(count)) && Reversed(count) != Ascending(count)
  {
    assert Reversed(count)[0] != Ascending(count)[0];
  }

  lemma ShortOrder(order: seq<int>)
    requires IsOrder(order) && |order| < 2
    ensures order == Ascending(|order|)
  {
  }

  /** Blocks can be exchanged only where there are two of them. */
  lemma BlocksMove(plan: Plan, n: nat)
    requires PlanOk(plan) && plan.nullName == BlockShuffleV2
    ensures (exists state :: Moves(plan, n, state)) <==> n / plan.nullParameter >= 2
  {
    var count := n / plan.nullParameter;
    if count >= 2 {
      ReversedMoves(count);
      assert Moves(plan, n, BlockShuffleState(Reversed(count)));
    } else if state :| Moves(plan, n, state) {
      ShortOrder(state.blockOrder);
    }
  }

  lemma ShiftsMove(plan: Plan, n: nat)
    requires PlanOk(plan) && plan.nullName != BlockShuffleV2
    ensures (exists state :: Moves(plan, n, state))
       <==> if plan.nullName == CircularShiftV2 then 2 * plan.nullParameter <= n else 2 <= n
  {
    if plan.nullName == CircularShiftV2 && 2 * plan.nullParameter <= n {
      assert Moves(plan, n, CircularShiftState(plan.nullParameter));
    } else if plan.nullName == CircularShiftExactV1 && 2 <= n {
      assert Moves(plan, n, CircularShiftState(1));
    }
  }

  /** A null binds exactly when one of its states moves the series, and at most 4,096 blocks tile it. */
  lemma BindIff(plan: Plan, n: nat)
    requires PlanOk(plan)
    ensures BindNull(plan, n).Bound?
       <==> (exists state :: Moves(plan, n, state))
            && (plan.nullName == BlockShuffleV2 ==>
                  exists count: nat :: count <= 4096 && n == count * plan.nullParameter)
  {
    if plan.nullName == BlockShuffleV2 {
      BlocksMove(plan, n);
      var m := plan.nullParameter;
      if n % m == 0 && n / m <= 4096 {
        assert n == (n / m) * m;
      }
      if count: nat :| count <= 4096 && n == count * m {
        DivModUnique(n, m, count, 0);
      }
    } else {
      ShiftsMove(plan, n);
    }
  }

  /** What a refused null says: no state moves the series, or its blocks do not tile it, or there are too many. */
  lemma RefusalSays(plan: Plan, n: nat)
    requires PlanOk(plan) && BindNull(plan, n).Disabled?
    ensures BindNull(plan, n).diagnostics ==
      if plan.nullName == CircularShiftV2 then ["shift_space_empty_v2"]
      else if plan.nullName == CircularShiftExactV1 then ["shift_space_empty_exact_v1"]
      else if n % plan.nullParameter != 0 then ["non_divisible_tail_v2"]
      else if forall state :: !Moves(plan, n, state) then ["fewer_than_two_blocks_v2"]
      else ["too_many_blocks_v2"]
  {
    if plan.nullName == BlockShuffleV2 { BlocksMove(plan, n); }
  }

  /** Exactly one state moves the series. */
  ghost predicate OneMoves(plan: Plan, n: nat)
    requires PlanOk(plan)
  {
    exists one :: Moves(plan, n, one) && forall state :: Moves(plan, n, state) ==> state == one
  }

  lemma OneShiftMoves(plan: Plan, n: nat)
    requires PlanOk(plan) && plan.nullName == CircularShiftV2 && 2 * plan.nullParameter <= n
    ensures OneMoves(plan, n) <==> 2 * plan.nullParameter == n
  {
    var first, last := CircularShiftState(plan.nullParameter), CircularShiftState(n - plan.nullParameter);
    assert Moves(plan, n, first) && Moves(plan, n, last);
  }

  /**
   * What a bound null says: nothing, unless the sampled shifts hold one state besides the identity. Its tokens
   * retain one unit for a shift and one for each label of an order.
   */
  lemma BindingSays(plan: Plan, n: nat, state: NullState)
    requires PlanOk(plan) && BindNull(plan, n).Bound? && InUniverse(plan, n, state)
    ensures BindNull(plan, n).diagnostics ==
      if plan.nullName == CircularShiftV2 && OneMoves(plan, n) then ["circular_shift_orbit_resolution_v2"] else []
    ensures BindNull(plan, n).stateUnits == if state.CircularShiftState? then 1 else |state.blockOrder|
  {
    if plan.nullName == CircularShiftV2 { OneShiftMoves(plan, n); }
  }

  // ---------------------------------------------------------------- the data tell the states apart

  lemma ShiftsDiffer(source: seq<real>, a: int, b: int)
    requires Distinct(source) && 0 <= a < |source| && 0 <= b < |source| && Rotate(source, a) == Rotate(source, b)
    ensures a == b
  {
    var n := |source|;
    assert Rotate(source, a)[0] == source[Wrap(0 - a, n)] && Rotate(source, b)[0] == source[Wrap(0 - b, n)];
    WrapNear(0 - a, n);
    WrapNear(0 - b, n);
  }

  lemma OrdersDiffer(source: seq<real>, a: seq<int>, b: seq<int>, length: nat)
    requires Distinct(source) && |a| == |b| && length > 0 && |source| == |a| * length
    requires IsOrder(a) && IsOrder(b) && Fits(|source|, a, length) && Fits(|source|, b, length)
    requires Rearrange(source, a, length) == Rearrange(source, b, length)
    ensures a == b
  {
    forall i | 0 <= i < |a| ensures a[i] == b[i] {
      RearrangeAt(source, a, length, i, 0);
      RearrangeAt(source, b, length, i, 0);
      if a[i] < b[i] { MulLess(a[i], b[i], length); }
      if b[i] < a[i] { MulLess(b[i], a[i], length); }
    }
  }

  lemma MulLess(a: nat, b: nat, length: nat)
    requires a < b && length > 0
    ensures a * length < b * length
  {
    MulMonotone(a + 1, b, length);
    MulSucc(a, length);
  }

  /** On a series without ties, no two states produce the same data. */
  lemma StatesDiffer(plan: Plan, source: seq<real>, x: NullState, y: NullState)
    requires PlanOk(plan) && BindNull(plan, |source|).Bound? && Distinct(source)
    requires InUniverse(plan, |source|, x) && InUniverse(plan, |source|, y)
    requires Transform(plan, source, x) == Transform(plan, source, y)
    ensures x == y
  {
    if plan.nullName == BlockShuffleV2 {
      BlockTransform(plan, source, x.blockOrder);
      BlockTransform(plan, source, y.blockOrder);
      OrdersDiffer(source, x.blockOrder, y.blockOrder, plan.nullParameter);
    } else {
      ShiftsDiffer(source, x.shift, y.shift);
    }
  }

  function Identity(plan: Plan, n: nat): NullState
    requires PlanOk(plan)
  {
    if plan.nullName == BlockShuffleV2 then BlockShuffleState(Ascending(n / plan.nullParameter))
    else CircularShiftState(0)
  }

  /** A state is flagged as the identity exactly when it leaves every series of the bound length as it is. */
  lemma IdentityIff(plan: Plan, n: nat, state: NullState)
    requires PlanOk(plan) && BindNull(plan, n).Bound? && InUniverse(plan, n, state)
    ensures IsIdentityState(state)
       <==> forall source: seq<real> {:trigger Transform(plan, source, state)} ::
              |source| == n ==> Transform(plan, source, state) == source
  {
    forall source: seq<real> | |source| == n && IsIdentityState(state)
      ensures Transform(plan, source, state) == source
    {
      IdentityRestores(plan, source, state);
    }
    if forall source: seq<real> {:trigger Transform(plan, source, state)} ::
         |source| == n ==> Transform(plan, source, state) == source
    {
      var rising := seq(n, i => i as real);
      var identity := Identity(plan, n);
      assert InUniverse(plan, n, identity) && IsIdentityState(identity);
      IdentityRestores(plan, rising, identity);
      assert Transform(plan, rising, state) == rising;
      StatesDiffer(plan, rising, state, identity);
    }
  }
}
