/** The equal-block shuffle null: Fisher-Yates token sampling and the three written block mappings. */
module BlockShuffle {
  import opened Wrappers
  import opened Counting

  datatype NullError = BadIndex | BadBlockLength | NotDivisible | TooFewBlocks | CapExceeded(total: nat)

  const MAX_EXACT_STATES := 100_000

  // ---------------------------------------------------------------- block orders

  function Ascending(q: nat): seq<int> {
    seq(q, i => i)
  }

  predicate Distinct<T(==)>(s: seq<T>) {
    forall i, j :: 0 <= i < j < |s| ==> s[i] != s[j]
  }

  /** A complete labelled permutation of 0..|order|-1. */
  predicate IsOrder(order: seq<int>) {
    Distinct(order) && forall i :: 0 <= i < |order| ==> 0 <= order[i] < |order|
  }

  /** The test of _validate_block_order: sorting gives 0..q-1, so the multisets agree. */
  predicate SortsToRange(order: seq<int>) {
    multiset(order) == multiset(Ascending(|order|))
  }

  /** The test of the state constructor: the set of labels is that of 0..q-1. */
  predicate CoversRange(order: seq<int>) {
    forall b :: 0 <= b < |order| ==> b in order
  }

  lemma {:induction false} DistinctMultiset<T>(s: seq<T>, x: T)
    requires Distinct(s)
    ensures multiset(s)[x] == if x in s then 1 else 0
  {
    if s != [] {
      assert s == [s[0]] + s[1..];
      DistinctMultiset(s[1..], x);
    }
  }

  lemma {:induction false} SetSize<T>(s: seq<T>, labels: set<T>)
    requires forall x :: x in labels ==> x in s
    ensures |labels| <= |s|
    ensures |labels| == |s| ==> Distinct(s)
    decreases |s|
  {
    if s != [] {
      SetSize(s[1..], labels - {s[0]});
      if |labels| == |s| && s[0] in s[1..] {
        SetSize(s[1..], labels);
      }
    } else {
      assert labels == {};
    }
  }

  /** The sorted-list test, the label-set test and the definition of a permutation agree. */
  lemma OrderTestsAgree(order: seq<int>)
    ensures SortsToRange(order) <==> IsOrder(order)
    ensures CoversRange(order) && (forall i :: 0 <= i < |order| ==> 0 <= order[i] < |order|) <==> IsOrder(order)
  {
    var q := |order|;
    if SortsToRange(order) {
      forall b | 0 <= b < q ensures b in order {
        assert Ascending(q)[b] == b;
        assert b in multiset(Ascending(q));
      }
      forall i | 0 <= i < q ensures 0 <= order[i] < q {
        assert order[i] in multiset(Ascending(q));
      }
      SetSize(order, Range(0, q));
    }
    if CoversRange(order) { SetSize(order, Range(0, q)); }
    if IsOrder(order) {
      DistinctCovers(order);
      forall x ensures multiset(order)[x] == multiset(Ascending(q))[x] {
        DistinctMultiset(order, x);
        DistinctMultiset(Ascending(q), x);
        if 0 <= x < q { assert Ascending(q)[x] == x; }
      }
    }
  }

  lemma {:induction false} LabelsDistinct(s: seq<int>)
    requires Distinct(s)
    ensures |set x | x in s| == |s|
  {
    if s != [] {
      LabelsDistinct(s[1..]);
      assert (set x | x in s) == (set x | x in s[1..]) + {s[0]};
    } else {
      assert (set x | x in s) == {};
    }
  }

  lemma DistinctCovers(order: seq<int>)
    requires IsOrder(order)
    ensures CoversRange(order)
  {
    LabelsDistinct(order);
    var labels := set x | x in order;
    assert labels <= Range(0, |order|);
    SubsetSameSize(labels, Range(0, |order|));
    forall b | 0 <= b < |order| ensures b in order {
      assert b in Range(0, |order|);
    }
  }

  // ---------------------------------------------------------------- Fisher-Yates

  function Swap<T>(s: seq<T>, i: nat, j: nat): (r: seq<T>)
    requires i < |s| && j < |s|
    ensures |r| == |s|
  {
    s[i := s[j]][j := s[i]]
  }

  lemma SwapPermutes<T>(s: seq<T>, i: nat, j: nat)
    requires i < |s| && j < |s|
    ensures multiset(Swap(s, i, j)) == multiset(s)
  {
  }

  /** The answers to randbelow(i + 1) for i = q-1, ..., 1, in call order; the last entry, for i = 0, is never asked. */
  predicate ValidAnswers(answers: seq<int>) {
    forall t :: 0 <= t < |answers| ==> 0 <= answers[t] < |answers| - t
  }

  function AnswerAt(answers: seq<int>, index: nat): int
    requires index < |answers|
  {
    answers[|answers| - 1 - index]
  }

  function Shuffle(labels: seq<int>, answers: seq<int>, index: nat): (order: seq<int>)
    requires index < |labels| == |answers| && ValidAnswers(answers)
    ensures |order| == |labels|
    decreases index
  {
    if index == 0 then labels else Shuffle(Swap(labels, index, AnswerAt(answers, index)), answers, index - 1)
  }

  function Shuffled(answers: seq<int>): seq<int>
    requires answers != [] && ValidAnswers(answers)
  {
    Shuffle(Ascending(|answers|), answers, |answers| - 1)
  }

  /** Samples a block order in place, refusing an out-of-range answer of the index source. */
  method SampleToken(answers: seq<int>) returns (r: Result<seq<int>, NullError>)
    requires answers != [] && AnswerAt(answers, 0) == 0
    ensures r.Ok? <==> ValidAnswers(answers)
    ensures r.Ok? ==> r.value == Shuffled(answers)
    ensures r.Err? ==> r.error == BadIndex
  {
    var labels := new int[|answers|](i => i);
    assert labels[..] == Ascending(|answers|);
    var index := |answers| - 1;
    while index > 0
      invariant 0 <= index < |answers|
      invariant forall t :: 0 <= t < |answers| - 1 - index ==> 0 <= answers[t] < |answers| - t
      invariant ValidAnswers(answers) ==> Shuffle(labels[..], answers, index) == Shuffled(answers)
    {
      var sampled := AnswerAt(answers, index);
      if !(0 <= sampled <= index) { return Err(BadIndex); }
      ghost var before := labels[..];
      labels[index], labels[sampled] := labels[sampled], labels[index];
      assert labels[..] == Swap(before, index, sampled);
      index := index - 1;
    }
    r := Ok(labels[..]);
  }

  lemma {:induction false} ShufflePermutes(labels: seq<int>, answers: seq<int>, index: nat)
    requires index < |labels| == |answers| && ValidAnswers(answers)
    ensures multiset(Shuffle(labels, answers, index)) == multiset(labels)
    decreases index
  {
    if index > 0 {
      SwapPermutes(labels, index, AnswerAt(answers, index));
      ShufflePermutes(Swap(labels, index, AnswerAt(answers, index)), answers, index - 1);
    }
  }

  /** Entries above the current index are final. */
  lemma {:induction false} ShuffleKeeps(labels: seq<int>, answers: seq<int>, index: nat, i: nat)
    requires index < i < |labels| == |answers| && ValidAnswers(answers)
    ensures Shuffle(labels, answers, index)[i] == labels[i]
    decreases index
  {
    if index > 0 { ShuffleKeeps(Swap(labels, index, AnswerAt(answers, index)), answers, index - 1, i); }
  }

  /** Every sampled token is a valid block order. */
  lemma SampledIsOrder(answers: seq<int>)
    requires answers != [] && ValidAnswers(answers)
    ensures IsOrder(Shuffled(answers))
  {
    ShufflePermutes(Ascending(|answers|), answers, |answers| - 1);
    OrderTestsAgree(Shuffled(answers));
  }

  function IndexOf(s: seq<int>, x: int): (i: nat)
    ensures i <= |s|
    ensures i < |s| ==> s[i] == x
    ensures forall k :: 0 <= k < i ==> s[k] != x
  {
    if s == [] || s[0] == x then 0 else 1 + IndexOf(s[1..], x)
  }

  lemma IndexOfDistinct(s: seq<int>, k: nat)
    requires Distinct(s) && k < |s|
    ensures IndexOf(s, s[k]) == k
  {
  }

  /** Reads off the answers for indices up to index that lead from labels to order. */
  function Unshuffle(labels: seq<int>, order: seq<int>, index: nat): (answers: seq<nat>)
    requires index < |labels| == |order|
    ensures |answers| == index + 1
    decreases index
  {
    if index == 0 then [0]
    else
      var j := IndexOf(labels, order[index]);
      [j] + Unshuffle(Swap(labels, index, if j < |labels| then j else 0), order, index - 1)
  }

  lemma SwapDistinct(s: seq<int>, i: nat, j: nat)
    requires i < |s| && j < |s| && Distinct(s)
    ensures Distinct(Swap(s, i, j))
  {
  }

  lemma {:induction false} UnshuffleShuffle(labels: seq<int>, answers: seq<int>, index: nat)
    requires Distinct(labels) && index < |labels| == |answers| && ValidAnswers(answers)
    ensures Unshuffle(labels, Shuffle(labels, answers, index), index) == answers[|answers| - 1 - index..]
    decreases index
  {
    if index > 0 {
      var j := AnswerAt(answers, index);
      var next := Swap(labels, index, j);
      ShuffleKeeps(next, answers, index - 1, index);
      IndexOfDistinct(labels, j);
      SwapDistinct(labels, index, j);
      UnshuffleShuffle(next, answers, index - 1);
      SplitFirst(answers, |answers| - 1 - index);
    }
  }

  lemma SplitFirst<T>(s: seq<T>, i: nat)
    requires i < |s|
    ensures s[i..] == [s[i]] + s[i + 1..]
  {
  }

  /** Reachable from labels by swaps below index: the same bag up to index, the same entries above. */
  ghost predicate Rearranges(labels: seq<int>, order: seq<int>, index: nat)
    requires index < |labels| == |order|
  {
    && multiset(labels[..index + 1]) == multiset(order[..index + 1])
    && labels[index + 1..] == order[index + 1..]
  }

  lemma {:induction false} UnshuffleValid(labels: seq<int>, order: seq<int>, index: nat)
    requires index < |labels| == |order| && Rearranges(labels, order, index)
    ensures ValidAnswers(Unshuffle(labels, order, index))
    decreases index
  {
    if index > 0 {
      var j := FoundBelow(labels, order, index);
      RearrangesNext(labels, order, index, j);
      UnshuffleValid(Swap(labels, index, j), order, index - 1);
    }
  }

  lemma FoundBelow(labels: seq<int>, order: seq<int>, index: nat) returns (j: nat)
    requires index < |labels| == |order| && Rearranges(labels, order, index)
    ensures j == IndexOf(labels, order[index]) <= index
  {
    j := IndexOf(labels, order[index]);
    assert order[..index + 1][index] in multiset(labels[..index + 1]);
    var k :| 0 <= k < index + 1 && labels[..index + 1][k] == order[index];
  }

  lemma RearrangesNext(labels: seq<int>, order: seq<int>, index: nat, j: nat)
    requires 0 < index < |labels| == |order| && j <= index && labels[j] == order[index]
    requires Rearranges(labels, order, index)
    ensures Rearranges(Swap(labels, index, j), order, index - 1)
  {
    var next, x := Swap(labels, index, j), order[index];
    RearrangesPrefix(labels, order, index, j);
    assert next[index..] == [x] + labels[index + 1..];
    assert order[index..] == [x] + order[index + 1..];
  }

  lemma RearrangesPrefix(labels: seq<int>, order: seq<int>, index: nat, j: nat)
    requires 0 < index < |labels| == |order| && j <= index && labels[j] == order[index]
    requires multiset(labels[..index + 1]) == multiset(order[..index + 1])
    ensures multiset(Swap(labels, index, j)[..index]) == multiset(order[..index])
  {
    var next := Swap(labels, index, j);
    assert next[..index + 1] == Swap(labels[..index + 1], index, j);
    SwapPermutes(labels[..index + 1], index, j);
    SplitLast(next[..index + 1], next[..index], order[index]);
    SplitLast(order[..index + 1], order[..index], order[index]);
  }

  lemma SplitLast(s: seq<int>, init: seq<int>, x: int)
    requires |s| == |init| + 1 && init == s[..|init|] && s[|init|] == x
    ensures multiset(s) - multiset{x} == multiset(init)
  {
    assert s == init + [x];
  }

  lemma RearrangesNothing(labels: seq<int>, order: seq<int>)
    requires 0 < |labels| == |order| && Rearranges(labels, order, 0)
    ensures labels == order
  {
    assert labels[..1] == [labels[0]] && order[..1] == [order[0]];
    assert order[0] in multiset(labels[..1]);
    assert labels == labels[..1] + labels[1..] && order == order[..1] + order[1..];
  }

  lemma {:induction false} ShuffleUnshuffle(labels: seq<int>, order: seq<int>, index: nat, answers: seq<int>)
    requires index < |labels| == |order| == |answers| && Rearranges(labels, order, index)
    requires ValidAnswers(answers) && answers[|answers| - 1 - index..] == Unshuffle(labels, order, index)
    ensures Shuffle(labels, answers, index) == order
    decreases index
  {
    if index == 0 {
      RearrangesNothing(labels, order);
    } else {
      var j := FoundBelow(labels, order, index);
      RearrangesNext(labels, order, index, j);
      assert AnswerAt(answers, index) == answers[|answers| - 1 - index..][0] == j;
      assert answers[|answers| - index..] == answers[|answers| - 1 - index..][1..];
      ShuffleUnshuffle(Swap(labels, index, j), order, index - 1, answers);
    }
  }

  /** The answers that produce a given order. */
  function AnswersFor(order: seq<int>): (answers: seq<nat>)
    requires order != []
    ensures |answers| == |order|
  {
    Unshuffle(Ascending(|order|), order, |order| - 1)
  }

  /** Answer vectors and block orders correspond one to one: each is recovered from the other. */
  lemma EveryOrderSampled(order: seq<int>)
    requires order != [] && IsOrder(order)
    ensures ValidAnswers(AnswersFor(order)) && Shuffled(AnswersFor(order)) == order
  {
    var start, answers := Ascending(|order|), AnswersFor(order);
    OrderTestsAgree(order);
    assert start[..|order|] == start && order[..|order|] == order && answers[0..] == answers;
    UnshuffleValid(start, order, |order| - 1);
    ShuffleUnshuffle(start, order, |order| - 1, answers);
  }

  lemma OneAnswerVectorPerOrder(answers: seq<int>)
    requires answers != [] && ValidAnswers(answers)
    ensures IsOrder(Shuffled(answers)) && AnswersFor(Shuffled(answers)) == answers
  {
    SampledIsOrder(answers);
    UnshuffleShuffle(Ascending(|answers|), answers, |answers| - 1);
    assert answers[0..] == answers;
  }

  // ---------------------------------------------------------------- counting the states

  /** All answer vectors for q blocks. */
  ghost function AnswerVectors(q: nat): set<seq<nat>> {
    if q == 0 then {[]} else Prepend(Letters(q), AnswerVectors(q - 1))
  }

  lemma {:induction false} AnswerVectorsAre(q: nat, a: seq<nat>)
    ensures a in AnswerVectors(q) <==> |a| == q && ValidAnswers(a)
  {
    if q > 0 && a != [] {
      AnswerVectorsAre(q - 1, a[1..]);
      ValidTail(a);
    }
  }

  lemma ValidTail(a: seq<nat>)
    requires a != []
    ensures ValidAnswers(a) <==> a[0] < |a| && ValidAnswers(a[1..])
  {
    assert forall t :: 1 <= t < |a| ==> a[t] == a[1..][t - 1];
  }

  lemma FactorialStep(q: nat)
    requires q > 0
    ensures Factorial(q) == Times(q, Factorial(q - 1))
  {
    TimesIs(q, Factorial(q - 1));
  }

  lemma {:induction false} AnswerVectorsSize(q: nat)
    ensures |AnswerVectors(q)| == Factorial(q)
  {
    if q > 0 {
      AnswerVectorsSize(q - 1);
      PrependSize(Letters(q), AnswerVectors(q - 1));
      FactorialStep(q);
    }
  }

  ghost function ToAnswers(order: seq<int>): seq<nat> {
    if order == [] then [] else AnswersFor(order)
  }

  ghost function ToOrder(answers: seq<nat>): seq<int> {
    if answers == [] || !ValidAnswers(answers) then [] else Shuffled(answers)
  }

  lemma OrderThereAndBack(q: nat, o: seq<int>)
    requires q > 0 && |o| == q && IsOrder(o)
    ensures ToAnswers(o) in AnswerVectors(q) && ToOrder(ToAnswers(o)) == o
  {
    EveryOrderSampled(o);
    AnswerVectorsAre(q, AnswersFor(o));
  }

  lemma AnswersThereAndBack(q: nat, a: seq<nat>)
    requires q > 0 && a in AnswerVectors(q)
    ensures |ToOrder(a)| == q && IsOrder(ToOrder(a)) && ToAnswers(ToOrder(a)) == a
  {
    AnswerVectorsAre(q, a);
    OneAnswerVectorPerOrder(a);
  }

  /** Any set holding exactly the block orders of q blocks has q! members, one for each answer vector. */
  lemma OrdersSize(q: nat, orders: set<seq<int>>)
    requires q > 0 && forall o: seq<int> :: o in orders <==> |o| == q && IsOrder(o)
    ensures |orders| == Factorial(q)
  {
    AnswerVectorsSize(q);
    forall o | o in orders ensures ToAnswers(o) in AnswerVectors(q) && ToOrder(ToAnswers(o)) == o {
      OrderThereAndBack(q, o);
    }
    InverseSize(orders, AnswerVectors(q), (o: seq<int>) => ToAnswers(o), (a: seq<nat>) => ToOrder(a));
    forall a | a in AnswerVectors(q) ensures ToOrder(a) in orders && ToAnswers(ToOrder(a)) == a {
      AnswersThereAndBack(q, a);
    }
    InverseSize(AnswerVectors(q), orders, (a: seq<nat>) => ToOrder(a), (o: seq<int>) => ToAnswers(o));
  }
}
