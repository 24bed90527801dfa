/** The diagnostic script's enumeration of the block orders, as an independent reference for the block oracle. */
module DiagnosticBlocks {
  import opened Wrappers
  import opened Counting
  import opened BlockMapping
  import opened BlockOracle
  import opened Contracts
  import opened Plans
  import opened Diagnostic
  import E = ExactOracle

  /** The running product of the block count, given up as soon as it would pass the cap. */
  method CappedProduct(q: nat) returns (total: Option<nat>)
    requires q >= 2
    ensures total == if Factorial(q) <= 720 then Some(Factorial(q)) else None
  {
    var product := 1;
    for factor := 2 to q + 1
      invariant product == Factorial(factor - 1) <= MAX_STATES
    {
      CapTest(product, factor, MAX_STATES);
      if product > MAX_STATES / factor {
        FactorialMonotone(factor, q);
        return None;
      }
      product := product * factor;
    }
    total := Some(product);
  }

  function FailingOrders(t: seq<Option<real>>, count: nat): nat
    requires count <= |t|
  {
    if count == 0 then 0 else FailingOrders(t, count - 1) + if t[count - 1].None? then 1 else 0
  }

  lemma {:induction false} FailingOrdersNone(t: seq<Option<real>>, count: nat)
    requires count <= |t|
    ensures FailingOrders(t, count) == 0 <==> forall i :: 0 <= i < count ==> t[i].Some?
  {
    if count > 0 { FailingOrdersNone(t, count - 1); }
  }

  /** The script's loop over the block orders, the identity first. */
  method CountOrders(
    scan: Scan, perms: seq<seq<int>>, q: nat, source: seq<real>, target: seq<real>, length: nat,
    ghost t: seq<Option<real>>)
    returns (observed: Option<real>, exceedances: nat, failures: nat)
    requires AllFit(perms, q, source, length) && perms != [] && t == States(scan, perms, q, source, target, length)
    ensures observed == t[0] && (failures == 0 <==> forall i :: 0 <= i < |t| ==> t[i].Some?)
    ensures observed.Some? ==> exceedances == Exceeding(t, 0, observed.value, |t|)
  {
    observed, exceedances, failures := None, 0, 0;
    for ordinal := 0 to |perms|
      invariant failures == FailingOrders(t, ordinal)
      invariant observed == if ordinal == 0 then None else t[0]
      invariant observed.None? ==> exceedances == 0
      invariant observed.Some? ==> exceedances == Exceeding(t, 0, observed.value, ordinal)
    {
      var selected := EvaluateAt(scan, perms, q, source, target, length, ordinal, t);
      if ordinal == 0 && selected.Some? { observed := selected; }
      if selected.None? {
        failures := failures + 1;
      } else if observed.Some? && ordinal != 0 && selected.value >= observed.value {
        exceedances := exceedances + 1;
      }
    }
    FailingOrdersNone(t, |t|);
  }

  /** What the reference reports for a pair the oracle answers in a given way. */
  predicate Agrees(r: Reference, answer: Option<E.OracleResult>, total: int) {
    match answer
    case Some(o) =>
      o.total == total && r == Reference(CompleteTable, Some(o.exceedances), Some(0), Some(total), Some(o.p))
    case None => r.status == AnalyticallyUnevaluable && r.p.None? && r.denominator == Some(total)
  }

  method EnumeratedReference(
    div: Division, scan: Scan, perms: seq<seq<int>>, q: nat, source: seq<real>, target: seq<real>, length: nat,
    total: nat)
    returns (r: Reference)
    requires q > 0 && Enumerates(perms, q) && IdentityAt(perms, q, 0) && total == Factorial(q)
    requires |source| == q * length
    ensures AllFit(perms, q, source, length) && |perms| == total
    ensures Agrees(r, Answer(div, States(scan, perms, q, source, target, length), 0), total)
  {
    EnumerationSize(perms, q);
    ghost var t := States(scan, perms, q, source, target, length);
    var observed, exceedances, failures := CountOrders(scan, perms, q, source, target, length, t);
    r := Reference(
      if failures == 0 then CompleteTable else AnalyticallyUnevaluable,
      if observed.Some? then Some(exceedances) else None, Some(failures), Some(total),
      if failures == 0 then Some(div.of(1 + exceedances, total)) else None);
  }

  /** The reference on the block null: its own admission order, and then the answer of the oracle. */
  method ReferenceBlocks(
    div: Division, scan: Scan, permutations: nat -> seq<seq<int>>, source: seq<real>, target: seq<real>,
    blockLength: int, family: nat, maxLag: nat)
    returns (r: Reference)
    requires blockLength >= 1 && |source| >= maxLag + 2 && EnumeratesAll(permutations)
    requires forall q: nat {:trigger permutations(q)} :: q > 0 ==> IdentityAt(permutations(q), q, 0)
    ensures var n, q: nat := |source|, |source| / blockLength;
      if n % blockLength != 0 || q < 2 then r == Empty(NullDisabled)
      else if Factorial(q) > 720 || Factorial(q) * family * (n - maxLag) > 100_000
      then r == Empty(ResourceLimit)
      else AllFit(permutations(q), q, source, blockLength) && |permutations(q)| == Factorial(q)
           && Agrees(r, Answer(div, States(scan, permutations(q), q, source, target, blockLength), 0), Factorial(q))
  {
    var n, q: nat := |source|, |source| / blockLength;
    if n % blockLength != 0 || q < 2 { return Empty(NullDisabled); }
    var total := CappedProduct(q);
    if total.None? || total.value * family * (n - maxLag) > MAX_SUPPORT_VISITS { return Empty(ResourceLimit); }
    Partition(n, blockLength);
    r := EnumeratedReference(div, scan, permutations(q), q, source, target, blockLength, total.value);
  }
}
