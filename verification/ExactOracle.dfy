/** Exact enumeration of the circular states with a full scan and reselection for each. */
module ExactOracle {
  import opened Wrappers
  import opened Counting
  import opened BlockShuffle
  import opened Contracts
  import opened Circular
  import opened Plans

  datatype OracleError = BadMinShift | EmptyShiftSpace | StateCap(total: int) | BindRefused | Undecided

  datatype OracleResult = OracleResult(p: real, total: int, exceedances: nat)

  /** The decision each shift of the source leads to, indexed by the shift. */
  function Decisions(scan: Scan, source: seq<real>, target: seq<real>): (t: seq<Option<real>>)
    ensures |t| == |source|
    ensures forall s :: 0 <= s < |t| ==> t[s] == scan(Rotate(source, s), target)
  {
    seq(|source|, s => scan(Rotate(source, s), target))
  }

  predicate Reaches(decision: Option<real>, observed: real) {
    decision.Some? && decision.value >= observed
  }

  /** How many shifts in low..high-1 reach the observed decision. */
  function Exceeding(t: seq<Option<real>>, observed: real, low: nat, high: nat): (e: nat)
    requires high <= |t|
    ensures e <= if low < high then high - low else 0
  {
    if high <= low then 0
    else Exceeding(t, observed, low, high - 1) + if Reaches(t[high - 1], observed) then 1 else 0
  }

  predicate AllDecided(t: seq<Option<real>>, low: nat, high: nat)
    requires high <= |t|
  {
    forall s :: low <= s < high ==> t[s].Some?
  }

  /** None stands for the integrity error of an undecidable state. */
  method CircularExceedances(scan: Scan, source: array<real>, target: seq<real>, observed: real, minShift: nat)
    returns (e: Option<nat>)
    requires 1 <= minShift && 2 * minShift <= source.Length
    ensures var t, high := Decisions(scan, source[..], target), source.Length - minShift + 1;
      && (e.Some? <==> AllDecided(t, minShift, high))
      && (e.Some? ==> e.value == Exceeding(t, observed, minShift, high))
  {
    ghost var t := Decisions(scan, source[..], target);
    var count := 0;
    for shift := minShift to source.Length - minShift + 1
      invariant AllDecided(t, minShift, shift)
      invariant count == Exceeding(t, observed, minShift, shift)
    {
      var transformed := CircularPair(source, shift);
      var decision := scan(transformed[..], target);
      assert decision == t[shift];
      if decision.None? { return None; }
      if decision.value >= observed { count := count + 1; }
    }
    e := Some(count);
  }

  /** Every state of the shift space decides, the identity included. */
  predicate Evaluable(t: seq<Option<real>>, minShift: nat)
    requires 1 <= minShift && 2 * minShift <= |t|
  {
    t[0].Some? && AllDecided(t, minShift, |t| - minShift + 1)
  }

  /** The number of non-identity states reaching the observed maximum. */
  function Exceedances(t: seq<Option<real>>, minShift: nat): nat
    requires 1 <= minShift && 2 * minShift <= |t|
  {
    Exceeding(t, t[0].GetOr(0.0), minShift, |t| - minShift + 1)
  }

  /** The exact oracle for the circular null, its refusals in the order they are raised. */
  method CircularOracle(
    div: Division, scan: Scan, source: array<real>, target: seq<real>, minShift: int, needed: int)
    returns (r: Result<OracleResult, OracleError>)
    ensures var n, t := source.Length, Decisions(scan, source[..], target);
      r == if minShift < 1 then Err(BadMinShift)
           else if 2 * minShift > n then Err(EmptyShiftSpace)
           else if StateCount(n, minShift) > 100_000 then Err(StateCap(StateCount(n, minShift)))
           else if n < needed then Err(BindRefused)
           else if !Evaluable(t, minShift) then Err(Undecided)
           else var e := Exceedances(t, minShift);
                Ok(OracleResult(div.of(1 + e, StateCount(n, minShift)), StateCount(n, minShift), e))
  {
    var n := source.Length;
    if minShift < 1 { return Err(BadMinShift); }
    if 2 * minShift > n { return Err(EmptyShiftSpace); }
    var total := StateCount(n, minShift);
    if total > MAX_EXACT_STATES { return Err(StateCap(total)); }
    if n < needed { return Err(BindRefused); }
    RotateZero(source[..]);
    var observed := scan(source[..], target);
    if observed.None? { return Err(Undecided); }
    var e := CircularExceedances(scan, source, target, observed.value, minShift);
    if e.None? { return Err(Undecided); }
    r := Ok(OracleResult(div.of(1 + e.value, total), total, e.value));
  }

  // ---------------------------------------------------------------- validity on the orbit of the data

  ghost function Reached(t: seq<Option<real>>, observed: real, low: nat, high: nat): set<int>
    requires high <= |t|
  {
    set s | s in Range(low, high) && Reaches(t[s], observed)
  }

  lemma ReachedStep(t: seq<Option<real>>, observed: real, low: nat, high: nat)
    requires low < high <= |t|
    ensures |Reached(t, observed, low, high)|
         == |Reached(t, observed, low, high - 1)| + if Reaches(t[high - 1], observed) then 1 else 0
  {
    var before, after := Reached(t, observed, low, high - 1), Reached(t, observed, low, high);
    if Reaches(t[high - 1], observed) {
      assert after == before + {high - 1};
    } else {
      assert after == before;
    }
  }

  lemma {:induction false} ExceedingIs(t: seq<Option<real>>, observed: real, low: nat, high: nat)
    requires high <= |t|
    ensures Exceeding(t, observed, low, high) == |Reached(t, observed, low, high)|
  {
    if low < high {
      ExceedingIs(t, observed, low, high - 1);
      ReachedStep(t, observed, low, high);
    } else {
      assert Reached(t, observed, low, high) == {};
    }
  }

  /** u sees the data of t shifted by r, and v holds the values of t. */
  predicate IsShift(u: seq<Option<real>>, t: seq<Option<real>>, v: seq<real>, r: nat) {
    && |u| == |t| == |v| > r
    && (forall s :: 0 <= s < |t| ==> u[s] == t[Compose(r, s, |t|)])
    && (forall s :: 0 <= s < |t| ==> v[s] == t[s].GetOr(0.0))
  }

  lemma AtLeastOrReached(u: seq<Option<real>>, t: seq<Option<real>>, v: seq<real>, minShift: nat, r: nat, s: int)
    requires 1 <= minShift && 2 * minShift <= |u| && IsShift(u, t, v, r) && Evaluable(u, minShift)
    ensures s in AtLeast(v, minShift, r)
       <==> s == 0 || s in Reached(u, u[0].GetOr(0.0), minShift, |u| - minShift + 1)
  {
    assert Compose(r, 0, |t|) == r;
  }

  lemma OneMore(above: set<int>, reached: set<int>)
    requires 0 !in reached && forall s :: s in above <==> s == 0 || s in reached
    ensures |above| == 1 + |reached|
  {
    forall s ensures s in above <==> s in {0} + reached {}
    assert above == {0} + reached;
  }

  /** The rank of the shifted data among its states is 1 + E of the oracle run on it. */
  lemma RankIsExceedances(u: seq<Option<real>>, t: seq<Option<real>>, v: seq<real>, minShift: nat, r: nat)
    requires 1 <= minShift && 2 * minShift <= |u| && IsShift(u, t, v, r) && Evaluable(u, minShift)
    ensures Rank(v, minShift, r) == 1 + Exceedances(u, minShift)
  {
    var above, reached := AtLeast(v, minShift, r), Reached(u, u[0].GetOr(0.0), minShift, |u| - minShift + 1);
    forall s ensures s in above <==> s == 0 || s in reached { AtLeastOrReached(u, t, v, minShift, r, s); }
    OneMore(above, reached);
    ExceedingIs(u, u[0].GetOr(0.0), minShift, |u| - minShift + 1);
  }

  /** The decisions of the data once shifted by r. */
  function DecisionsAt(scan: Scan, source: seq<real>, target: seq<real>, r: int): seq<Option<real>> {
    Decisions(scan, Rotate(source, r), target)
  }

  function Values(t: seq<Option<real>>): (v: seq<real>)
    ensures |v| == |t| && forall s :: 0 <= s < |t| ==> v[s] == t[s].GetOr(0.0)
  {
    seq(|t|, s requires 0 <= s < |t| => t[s].GetOr(0.0))
  }

  lemma DecisionsShift(scan: Scan, source: seq<real>, target: seq<real>, r: nat)
    requires r < |source|
    ensures IsShift(DecisionsAt(scan, source, target, r), Decisions(scan, source, target),
                    Values(Decisions(scan, source, target)), r)
  {
    forall s | 0 <= s < |source|
      ensures DecisionsAt(scan, source, target, r)[s] == Decisions(scan, source, target)[Compose(r, s, |source|)]
    {
      RotateCompose(source, r, s);
    }
  }

  /** The oracle runs on the data shifted by r and reports 1 + E <= k. */
  predicate LowRanked(scan: Scan, source: seq<real>, target: seq<real>, minShift: nat, r: int, k: nat)
    requires 1 <= minShift && 2 * minShift <= |source|
  {
    var u := DecisionsAt(scan, source, target, r);
    Evaluable(u, minShift) && 1 + Exceedances(u, minShift) <= k
  }

  /** For every data set, statistic and level, at most k shifts in the state space get a rank of k or less. */
  lemma OracleOrbitBound(
    scan: Scan, source: seq<real>, target: seq<real>, minShift: nat, k: nat, shifts: set<int>)
    requires Group(|source|, minShift)
    requires forall r :: r in shifts ==>
      InStateSpace(r, |source|, minShift) && LowRanked(scan, source, target, minShift, r, k)
    ensures |shifts| <= k
  {
    var v := Values(Decisions(scan, source, target));
    forall r | r in shifts ensures r in RankedWithin(v, minShift, k) {
      DecisionsShift(scan, source, target, r);
      RankIsExceedances(
        DecisionsAt(scan, source, target, r), Decisions(scan, source, target), v, minShift, r);
    }
    SubsetSize(shifts, RankedWithin(v, minShift, k));
    RankBound(v, minShift, k);
  }

  /** Two neighbouring shifts that decide above all the others both get rank 1 when 1 is not a state. */
  lemma PeaksRankFirst(scan: Scan, source: seq<real>, target: seq<real>, minShift: nat, r: nat)
    requires 2 <= minShift && 2 * minShift < |source| && (r == minShift || r == minShift + 1)
    requires forall s :: 0 <= s < |source| ==> Decisions(scan, source, target)[s].Some?
    requires Below(Values(Decisions(scan, source, target)), minShift, r)
    ensures InStateSpace(r, |source|, minShift) && LowRanked(scan, source, target, minShift, r, 1)
  {
    var t, v, u := Decisions(scan, source, target), Values(Decisions(scan, source, target)),
                   DecisionsAt(scan, source, target, r);
    PeakAlone(v, minShift, r);
    DecisionsShift(scan, source, target, r);
    forall s | 0 <= s < |source| ensures u[s].Some? {
      assert u[s] == t[Compose(r, s, |source|)];
    }
    RankIsExceedances(u, t, v, minShift, r);
  }
}
