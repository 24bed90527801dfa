/** Exact enumeration of the block orders, and its validity on every rearrangement of the data. */
module BlockOracle {
  import opened Wrappers
  import opened Counting
  import opened BlockShuffle
  import opened BlockMapping
  import opened Contracts
  import opened Plans
  import opened ExactOracle

  // ---------------------------------------------------------------- the enumeration

  /** All orders of q blocks, each once: what the permutations of range(q) run through. */
  ghost predicate Enumerates(perms: seq<seq<int>>, q: nat) {
    && (forall i :: 0 <= i < |perms| ==> |perms[i]| == q && IsOrder(perms[i]))
    && (forall i, j :: 0 <= i < j < |perms| ==> perms[i] != perms[j])
    && (forall o: seq<int> :: |o| == q && IsOrder(o) ==> o in perms)
  }

  /** An enumeration has q! members. */
  lemma EnumerationSize(perms: seq<seq<int>>, q: nat)
    requires q > 0 && Enumerates(perms, q)
    ensures |perms| == Factorial(q)
  {
    var orders := set o | o in perms;
    OrdersSize(q, orders);
    DistinctSize(perms, orders);
  }

  lemma {:induction false} DistinctSize(perms: seq<seq<int>>, orders: set<seq<int>>)
    requires forall o :: o in orders <==> o in perms
    requires forall i, j :: 0 <= i < j < |perms| ==> perms[i] != perms[j]
    ensures |orders| == |perms|
    decreases |perms|
  {
    if perms == [] {
      assert orders == {};
    } else {
      var last := perms[|perms| - 1];
      DistinctSize(perms[..|perms| - 1], orders - {last});
      assert orders == (orders - {last}) + {last};
    }
  }

  /** Every block order fits the source. */
  predicate AllFit(perms: seq<seq<int>>, q: nat, source: seq<real>, length: nat) {
    |source| == q * length && forall i :: 0 <= i < |perms| ==> |perms[i]| == q && IsOrder(perms[i])
  }

  function StateAt(scan: Scan, source: seq<real>, target: seq<real>, order: seq<int>, length: nat): Option<real>
    requires IsOrder(order) && |source| == |order| * length
  {
    OrderFits(order, length);
    scan(Rearrange(source, order, length), target)
  }

  /** The decision each enumerated order leads to. */
  function States(scan: Scan, perms: seq<seq<int>>, q: nat, source: seq<real>, target: seq<real>, length: nat)
    : (t: seq<Option<real>>)
    requires AllFit(perms, q, source, length)
    ensures |t| == |perms|
    ensures forall i :: 0 <= i < |t| ==> t[i] == StateAt(scan, source, target, perms[i], length)
  {
    seq(|perms|, i requires 0 <= i < |perms| => StateAt(scan, source, target, perms[i], length))
  }

  /** How many of the first states, the identity left out, reach the observed decision. */
  function Exceeding(t: seq<Option<real>>, identity: nat, observed: real, count: nat): (e: nat)
    requires count <= |t|
    ensures e <= count
  {
    if count == 0 then 0
    else Exceeding(t, identity, observed, count - 1)
         + if count - 1 != identity && Reaches(t[count - 1], observed) then 1 else 0
  }

  predicate OthersDecided(t: seq<Option<real>>, identity: nat, count: nat)
    requires count <= |t|
  {
    forall i :: 0 <= i < count && i != identity ==> t[i].Some?
  }

  /** One state: the rearranged source is built and decided. */
  method EvaluateOrder(scan: Scan, source: seq<real>, target: seq<real>, order: seq<int>, length: nat)
    returns (decision: Option<real>)
    requires IsOrder(order) && |source| == |order| * length
    ensures decision == StateAt(scan, source, target, order, length)
  {
    OrderFits(order, length);
    var values := new real[|source|](i requires 0 <= i < |source| => source[i]);
    assert values[..] == source;
    var transformed := BlockPair(values, order, length);
    decision := scan(transformed[..], target);
  }

  /** The identity order stands at one position only. */
  ghost predicate IdentityAt(perms: seq<seq<int>>, q: nat, identity: nat) {
    identity < |perms| && forall i :: 0 <= i < |perms| ==> (perms[i] == Ascending(q) <==> i == identity)
  }

  lemma IdentityOnce(perms: seq<seq<int>>, q: nat) returns (identity: nat)
    requires Enumerates(perms, q)
    ensures IdentityAt(perms, q, identity)
  {
    assert |Ascending(q)| == q && IsOrder(Ascending(q));
    identity :| identity < |perms| && perms[identity] == Ascending(q);
  }

  method EvaluateAt(
    scan: Scan, perms: seq<seq<int>>, q: nat, source: seq<real>, target: seq<real>, length: nat, i: nat,
    ghost t: seq<Option<real>>)
    returns (decision: Option<real>)
    requires AllFit(perms, q, source, length) && t == States(scan, perms, q, source, target, length) && i < |perms|
    ensures decision == t[i]
  {
    decision := EvaluateOrder(scan, source, target, perms[i], length);
  }

  /** None stands for the integrity error of an undecidable state; the identity is skipped. */
  method BlockExceedances(
    scan: Scan, perms: seq<seq<int>>, q: nat, source: seq<real>, target: seq<real>, length: nat, observed: real,
    ghost identity: nat, ghost t: seq<Option<real>>)
    returns (e: Option<nat>)
    requires AllFit(perms, q, source, length) && t == States(scan, perms, q, source, target, length)
    requires IdentityAt(perms, q, identity)
    ensures e.Some? <==> OthersDecided(t, identity, |t|)
    ensures e.Some? ==> e.value == Exceeding(t, identity, observed, |t|)
  {
    var identityOrder := Ascending(q);
    var count := 0;
    for i := 0 to |perms|
      invariant OthersDecided(t, identity, i) && count == Exceeding(t, identity, observed, i)
    {
      if perms[i] == identityOrder { continue; }
      var decision := EvaluateAt(scan, perms, q, source, target, length, i, t);
      if decision.None? { return None; }
      if decision.value >= observed { count := count + 1; }
    }
    e := Some(count);
  }

  lemma IdentityState(
    scan: Scan, perms: seq<seq<int>>, q: nat, source: seq<real>, target: seq<real>, length: nat, identity: nat)
    requires AllFit(perms, q, source, length) && IdentityAt(perms, q, identity)
    ensures States(scan, perms, q, source, target, length)[identity] == scan(source, target)
  {
    RearrangeIdentity(source, q, length);
    assert source[..q * length] == source;
  }

  /** The oracle's answer from its table of states: None where a state cannot be decided. */
  function Answer(div: Division, t: seq<Option<real>>, identity: nat): Option<OracleResult>
    requires identity < |t|
  {
    if t[identity].Some? && OthersDecided(t, identity, |t|)
    then
      var e := Exceeding(t, identity, t[identity].value, |t|);
      Some(OracleResult(div.of(1 + e, |t|), |t|, e))
    else None
  }

  /** Once the state count has been admitted and the statistic bound, all q! states are enumerated. */
  method BlockEnumeration(
    div: Division, scan: Scan, perms: seq<seq<int>>, q: nat, source: seq<real>, target: seq<real>, length: nat,
    total: nat, ghost identity: nat)
    returns (r: Option<OracleResult>)
    requires q > 0 && Enumerates(perms, q) && IdentityAt(perms, q, identity) && total == Factorial(q)
    requires |source| == q * length
    ensures AllFit(perms, q, source, length) && |perms| == total
    ensures r == Answer(div, States(scan, perms, q, source, target, length), identity)
  {
    ghost var t := States(scan, perms, q, source, target, length);
    EnumerationSize(perms, q);
    IdentityState(scan, perms, q, source, target, length, identity);
    var observed := scan(source, target);
    if observed.None? { return None; }
    var e := BlockExceedances(scan, perms, q, source, target, length, observed.value, identity, t);
    if e.None? { return None; }
    r := Some(OracleResult(div.of(1 + e.value, total), total, e.value));
  }

  datatype BlockRefusal = NotAdmitted(error: NullError) | CannotBind | CannotDecide

  /** The verdict on an admitted and bound pair. */
  function Verdict(answer: Option<OracleResult>): Result<OracleResult, BlockRefusal> {
    match answer
    case None => Err(CannotDecide)
    case Some(r) => Ok(r)
  }

  /** The permutations the standard library produces for every number of blocks. */
  ghost predicate EnumeratesAll(permutations: nat -> seq<seq<int>>) {
    forall q: nat {:trigger permutations(q)} :: q > 0 ==> Enumerates(permutations(q), q)
  }

  /** The outcome for an admitted partition: the bind refusal, or the verdict of the whole enumeration. */
  ghost predicate Enumerated(
    r: Result<OracleResult, BlockRefusal>, div: Division, scan: Scan, perms: seq<seq<int>>, q: nat, source: seq<real>,
    target: seq<real>, length: nat, needed: int)
  {
    if |source| < needed then r == Err(CannotBind)
    else
      AllFit(perms, q, source, length)
      && exists identity: nat :: IdentityAt(perms, q, identity)
           && r == Verdict(Answer(div, States(scan, perms, q, source, target, length), identity))
  }

  method BoundOracle(
    div: Division, scan: Scan, perms: seq<seq<int>>, q: nat, source: seq<real>, target: seq<real>, length: nat,
    total: nat, needed: int)
    returns (r: Result<OracleResult, BlockRefusal>)
    requires q > 0 && Enumerates(perms, q) && total == Factorial(q) && |source| == q * length
    ensures Enumerated(r, div, scan, perms, q, source, target, length, needed)
  {
    if |source| < needed { return Err(CannotBind); }
    ghost var identity := IdentityOnce(perms, q);
    var answer := BlockEnumeration(div, scan, perms, q, source, target, length, total, identity);
    r := Verdict(answer);
  }

  lemma Partition(n: nat, length: int)
    requires length >= 1 && n % length == 0
    ensures n == n / length * length
  {
  }

  /** The exact oracle for the block null: admission of the partition and its state count, the bind, the enumeration. */
  method BlockOracle(
    div: Division, scan: Scan, permutations: nat -> seq<seq<int>>, source: seq<real>, target: seq<real>,
    blockLength: int, needed: int)
    returns (r: Result<OracleResult, BlockRefusal>)
    requires EnumeratesAll(permutations)
    ensures r == Err(NotAdmitted(BadBlockLength)) <==> blockLength < 1
    ensures r == Err(NotAdmitted(NotDivisible)) <==> blockLength >= 1 && |source| % blockLength != 0
    ensures blockLength >= 1 && |source| % blockLength == 0 ==>
      var q: nat := |source| / blockLength;
      && (r == Err(NotAdmitted(TooFewBlocks)) <==> q < 2)
      && (r.Err? && r.error.NotAdmitted? && r.error.error.CapExceeded? <==>
            q >= 2 && Factorial(q) > 100_000)
      && (q >= 2 && Factorial(q) <= 100_000 ==>
            Enumerated(r, div, scan, permutations(q), q, source, target, blockLength, needed))
  {
    var count, q := BlockStateCount(|source|, blockLength);
    if count.Err? { return Err(NotAdmitted(count.error)); }
    Partition(|source|, blockLength);
    r := BoundOracle(div, scan, permutations(q), q, source, target, blockLength, count.value, needed);
  }

  // ---------------------------------------------------------------- orders compose

  function Compose(a: seq<int>, b: seq<int>): (c: seq<int>)
    requires IsOrder(a) && IsOrder(b) && |a| == |b|
    ensures |c| == |a| && forall k :: 0 <= k < |c| ==> c[k] == a[b[k]]
  {
    seq(|a|, k requires 0 <= k < |a| => a[b[k]])
  }

  lemma ComposeIsOrder(a: seq<int>, b: seq<int>)
    requires IsOrder(a) && IsOrder(b) && |a| == |b|
    ensures IsOrder(Compose(a, b))
  {
  }

  /** RearrangeAt with its positions named. */
  lemma MovedFrom(source: seq<real>, order: seq<int>, length: nat, b: nat, o: nat, moved: int, at: int, start: int)
    requires Fits(|source|, order, length) && b < |order| && o < length && order[b] == moved
    requires at == b * length + o && start == moved * length + o
    ensures 0 <= at < |Rearrange(source, order, length)| && 0 <= start < |source|
    ensures Rearrange(source, order, length)[at] == source[start]
  {
    RearrangeAt(source, order, length, b, o);
  }

  lemma ComposeAt(
    source: seq<real>, a: seq<int>, b: seq<int>, c: seq<int>, length: nat, block: nat, o: nat, once: seq<real>,
    at: int)
    requires |a| == |b| == |c| && block < |a| && o < length && 0 <= b[block] < |a| && c[block] == a[b[block]]
    requires Fits(|source|, a, length) && Fits(|source|, c, length)
    requires once == Rearrange(source, a, length) && Fits(|once|, b, length) && at == block * length + o
    ensures 0 <= at < |Rearrange(once, b, length)| && at < |Rearrange(source, c, length)|
    ensures Rearrange(once, b, length)[at] == Rearrange(source, c, length)[at]
  {
    var x, y := b[block], c[block];
    var mid, start := x * length + o, y * length + o;
    MovedFrom(once, b, length, block, o, x, at, mid);
    MovedFrom(source, a, length, x, o, y, mid, start);
    MovedFrom(source, c, length, block, o, y, at, start);
  }

  lemma OrdersFit(source: seq<real>, a: seq<int>, b: seq<int>, length: nat)
    requires IsOrder(a) && IsOrder(b) && |a| == |b| && |source| == |a| * length
    ensures Fits(|source|, a, length) && Fits(|source|, b, length) && Fits(|source|, Compose(a, b), length)
  {
    ComposeIsOrder(a, b);
    OrderFits(a, length);
    OrderFits(b, length);
    OrderFits(Compose(a, b), length);
  }

  /** Rearranging twice is rearranging by the composed order. */
  lemma RearrangeCompose(source: seq<real>, a: seq<int>, b: seq<int>, c: seq<int>, length: nat)
    requires IsOrder(a) && IsOrder(b) && |a| == |b| == |c| && |source| == |a| * length && c == Compose(a, b)
    requires Fits(|source|, a, length) && Fits(|source|, b, length) && Fits(|source|, c, length)
    ensures Rearrange(Rearrange(source, a, length), b, length) == Rearrange(source, c, length)
  {
    var once := Rearrange(source, a, length);
    var twice, direct := Rearrange(once, b, length), Rearrange(source, c, length);
    forall i | 0 <= i < |source| ensures twice[i] == direct[i] {
      var block, o := SplitIndex(i, |a|, length);
      ComposeAt(source, a, b, c, length, block, o, once, i);
    }
  }

  /** The order that leads from a to c. */
  lemma Difference(a: seq<int>, c: seq<int>) returns (b: seq<int>)
    requires IsOrder(a) && IsOrder(c) && |a| == |c|
    ensures IsOrder(b) && |b| == |a| && Compose(a, b) == c
  {
    InverseUndoes(a);
    ComposeIsOrder(Inverse(a), c);
    b := Compose(Inverse(a), c);
  }

  // ---------------------------------------------------------------- ranks

  /** The positions whose decision reaches the observed one. */
  ghost function Reached(t: seq<Option<real>>, observed: real): (r: set<int>)
    ensures forall i :: i in r <==> 0 <= i < |t| && Reaches(t[i], observed)
  {
    set i | i in Range(0, |t|) && Reaches(t[i], observed)
  }

  ghost function ReachedBefore(t: seq<Option<real>>, identity: nat, observed: real, count: nat): set<int>
    requires count <= |t|
  {
    set i | i in Range(0, count) && i != identity && Reaches(t[i], observed)
  }

  lemma ReachedStep(t: seq<Option<real>>, identity: nat, observed: real, count: nat)
    requires 0 < count <= |t|
    ensures |ReachedBefore(t, identity, observed, count)|
         == |ReachedBefore(t, identity, observed, count - 1)|
            + if count - 1 != identity && Reaches(t[count - 1], observed) then 1 else 0
  {
    var before, after := ReachedBefore(t, identity, observed, count - 1), ReachedBefore(t, identity, observed, count);
    if count - 1 != identity && Reaches(t[count - 1], observed) {
      assert after == before + {count - 1};
    } else {
      assert after == before;
    }
  }

  lemma {:induction false} ExceedingIs(t: seq<Option<real>>, identity: nat, observed: real, count: nat)
    requires count <= |t|
    ensures Exceeding(t, identity, observed, count) == |ReachedBefore(t, identity, observed, count)|
  {
    if count > 0 {
      ExceedingIs(t, identity, observed, count - 1);
      ReachedStep(t, identity, observed, count);
    } else {
      assert ReachedBefore(t, identity, observed, 0) == {};
    }
  }

  /** The identity reaches its own decision, so the rank counts all reaching states. */
  lemma RankIsReached(t: seq<Option<real>>, identity: nat)
    requires identity < |t| && t[identity].Some?
    ensures 1 + Exceeding(t, identity, t[identity].value, |t|) == |Reached(t, t[identity].value)|
  {
    var observed := t[identity].value;
    ExceedingIs(t, identity, observed, |t|);
    assert Reached(t, observed) == ReachedBefore(t, identity, observed, |t|) + {identity};
  }

  /** The oracle answers when every order decides; p is the share of the orders that reach the data's decision. */
  lemma AnswerIs(div: Division, t: seq<Option<real>>, identity: nat)
    requires identity < |t|
    ensures Answer(div, t, identity).Some? <==> forall i :: 0 <= i < |t| ==> t[i].Some?
    ensures Answer(div, t, identity).Some? ==>
      var o, reaching := Answer(div, t, identity).value, |Reached(t, t[identity].value)|;
      o.total == |t| && o.exceedances + 1 == reaching && o.p == div.of(reaching, |t|)
  {
    if Answer(div, t, identity).Some? { RankIsReached(t, identity); }
  }

  function MovedTo(moved: seq<nat>, j: int): int {
    if 0 <= j < |moved| then moved[j] else -1
  }

  /** A relabelling of the states that keeps decisions loses no reaching state. */
  lemma RelabelledReach(t: seq<Option<real>>, u: seq<Option<real>>, moved: seq<nat>, observed: real)
    requires |moved| == |t| && forall j :: 0 <= j < |t| ==> moved[j] < |u| && u[moved[j]] == t[j]
    requires forall i, j :: 0 <= i < |t| && 0 <= j < |t| && moved[i] == moved[j] ==> i == j
    ensures |Reached(t, observed)| <= |Reached(u, observed)|
  {
    InjectionSize(Reached(t, observed), Reached(u, observed), (j: int) => MovedTo(moved, j));
  }

  /** The lowest decision among some states. */
  lemma {:induction false} LowestOf(t: seq<Option<real>>, rs: set<int>) returns (low: int)
    requires rs != {} && forall r :: r in rs ==> 0 <= r < |t| && t[r].Some?
    ensures low in rs && forall r :: r in rs ==> Reaches(t[r], t[low].value)
    decreases |rs|
  {
    low := AnyMember(rs);
    if rs != {low} {
      var rest := LowestOf(t, rs - {low});
      if t[rest].value < t[low].value { low := rest; }
    }
  }

  /** At most k states have k or fewer states reaching them. */
  lemma FewLowRanks(t: seq<Option<real>>, rs: set<int>, k: nat)
    requires forall r :: r in rs ==> 0 <= r < |t| && t[r].Some? && |Reached(t, t[r].value)| <= k
    ensures |rs| <= k
  {
    if rs != {} {
      var low := LowestOf(t, rs);
      SubsetSize(rs, Reached(t, t[low].value));
    }
  }

  // ---------------------------------------------------------------- validity on the orbit of the data

  /** The oracle's table for the data rearranged by the r-th order. */
  function StatesFrom(
    scan: Scan, perms: seq<seq<int>>, q: nat, source: seq<real>, target: seq<real>, length: nat, r: nat)
    : (u: seq<Option<real>>)
    requires AllFit(perms, q, source, length) && r < |perms|
    ensures |u| == |perms|
  {
    OrderFits(perms[r], length);
    States(scan, perms, q, Rearrange(source, perms[r], length), target, length)
  }

  /** The i-th order leads from the r-th to the j-th one, so the two tables agree there. */
  ghost predicate Leads(
    perms: seq<seq<int>>, r: nat, i: nat, j: nat, u: seq<Option<real>>, t: seq<Option<real>>)
    requires |u| == |t| == |perms| && r < |perms| && j < |perms|
    requires forall k :: 0 <= k < |perms| ==> IsOrder(perms[k]) && |perms[k]| == |perms[0]|
  {
    i < |perms| && Compose(perms[r], perms[i]) == perms[j] && u[i] == t[j]
  }

  lemma DifferenceAt(
    scan: Scan, perms: seq<seq<int>>, q: nat, source: seq<real>, target: seq<real>, length: nat, r: nat, j: nat)
    returns (i: nat)
    requires Enumerates(perms, q) && AllFit(perms, q, source, length) && r < |perms| && j < |perms|
    ensures Leads(perms, r, i, j, StatesFrom(scan, perms, q, source, target, length, r),
                  States(scan, perms, q, source, target, length))
  {
    var b := Difference(perms[r], perms[j]);
    i :| i < |perms| && perms[i] == b;
    OrdersFit(source, perms[r], b, length);
    RearrangeCompose(source, perms[r], b, perms[j], length);
  }

  /** All the differences from the r-th order, as a relabelling of the states. */
  lemma Differences(
    scan: Scan, perms: seq<seq<int>>, q: nat, source: seq<real>, target: seq<real>, length: nat, r: nat, count: nat,
    u: seq<Option<real>>, t: seq<Option<real>>)
    returns (moved: seq<nat>)
    requires Enumerates(perms, q) && AllFit(perms, q, source, length) && r < |perms| && count <= |perms|
    requires u == StatesFrom(scan, perms, q, source, target, length, r)
    requires t == States(scan, perms, q, source, target, length)
    ensures |moved| == count && forall j :: 0 <= j < count ==> Leads(perms, r, moved[j], j, u, t)
  {
    moved := [];
    for k := 0 to count
      invariant |moved| == k && forall j :: 0 <= j < k ==> Leads(perms, r, moved[j], j, u, t)
    {
      var i := DifferenceAt(scan, perms, q, source, target, length, r, k);
      moved := moved + [i];
    }
  }

  /** The oracle runs on the data rearranged by the r-th order and reports 1 + E <= k. */
  ghost predicate LowRanked(u: seq<Option<real>>, identity: nat, k: nat) {
    identity < |u| && u[identity].Some? && 1 + Exceeding(u, identity, u[identity].value, |u|) <= k
  }

  /** Its rank there is at least the rank of that order among the states of the data itself. */
  lemma RankOnData(
    scan: Scan, perms: seq<seq<int>>, q: nat, source: seq<real>, target: seq<real>, length: nat, r: nat,
    identity: nat, k: nat)
    requires Enumerates(perms, q) && AllFit(perms, q, source, length) && r < |perms| && IdentityAt(perms, q, identity)
    requires LowRanked(StatesFrom(scan, perms, q, source, target, length, r), identity, k)
    ensures var t := States(scan, perms, q, source, target, length);
      t[r].Some? && |Reached(t, t[r].value)| <= k
  {
    var t, u := States(scan, perms, q, source, target, length),
                StatesFrom(scan, perms, q, source, target, length, r);
    var moved := Differences(scan, perms, q, source, target, length, r, |perms|, u, t);
    RankFromDifferences(perms, q, r, identity, moved, u, t);
  }

  lemma RankFromDifferences(
    perms: seq<seq<int>>, q: nat, r: nat, identity: nat, moved: seq<nat>, u: seq<Option<real>>, t: seq<Option<real>>)
    requires Enumerates(perms, q) && |u| == |t| == |perms| == |moved| && r < |perms| && IdentityAt(perms, q, identity)
    requires forall j :: 0 <= j < |perms| ==> Leads(perms, r, moved[j], j, u, t)
    requires u[identity].Some?
    ensures t[r] == u[identity]
    ensures |Reached(t, t[r].value)| <= 1 + Exceeding(u, identity, u[identity].value, |u|)
  {
    assert Leads(perms, r, moved[r], r, u, t);
    IdentityMoves(perms, q, r, identity, moved[r]);
    forall i, j | 0 <= i < |t| && 0 <= j < |t| && moved[i] == moved[j] ensures i == j {
      assert Leads(perms, r, moved[i], i, u, t) && Leads(perms, r, moved[j], j, u, t);
    }
    forall j | 0 <= j < |t| ensures moved[j] < |u| && u[moved[j]] == t[j] {
      assert Leads(perms, r, moved[j], j, u, t);
    }
    RelabelledReach(t, u, moved, t[r].value);
    RankIsReached(u, identity);
  }

  /** Only the identity leads from an order to itself. */
  lemma IdentityMoves(perms: seq<seq<int>>, q: nat, r: nat, identity: nat, i: nat)
    requires Enumerates(perms, q) && r < |perms| && i < |perms| && IdentityAt(perms, q, identity)
    requires Compose(perms[r], perms[i]) == perms[r]
    ensures i == identity
  {
    var a, b := perms[r], perms[i];
    forall k | 0 <= k < q ensures b[k] == k {
      assert Compose(a, b)[k] == a[b[k]] == a[k];
    }
    assert b == Ascending(q);
  }

  /**
   * For every data set, statistic and level, at most k of the q! rearrangements of the source get a rank of k or
   * less when the exact test is run again on them, so at most a share k / q! of them gets p <= k / q!.
   */
  lemma BlockOrbitBound(
    scan: Scan, perms: seq<seq<int>>, q: nat, source: seq<real>, target: seq<real>, length: nat, identity: nat,
    k: nat, rs: set<int>)
    requires q > 0 && Enumerates(perms, q) && AllFit(perms, q, source, length) && IdentityAt(perms, q, identity)
    requires forall r :: r in rs ==>
      0 <= r < |perms| && LowRanked(StatesFrom(scan, perms, q, source, target, length, r), identity, k)
    ensures |rs| <= k && |perms| == Factorial(q)
  {
    var t := States(scan, perms, q, source, target, length);
    forall r | r in rs ensures 0 <= r < |t| && t[r].Some? && |Reached(t, t[r].value)| <= k {
      RankOnData(scan, perms, q, source, target, length, r, identity, k);
    }
    FewLowRanks(t, rs, k);
    EnumerationSize(perms, q);
  }
}
