/** The three written block mappings and the exact-oracle state count. */
module BlockMapping {
  import opened Wrappers
  import opened Arithmetic
  import opened Counting
  import opened BlockShuffle

  /** The source splits into blocks of the given length and the order names only such blocks. */
  ghost predicate Fits(total: nat, order: seq<int>, length: nat) {
    forall i :: 0 <= i < |order| ==> 0 <= order[i] && order[i] * length + length <= total
  }

  /** The blocks of the source in the given order, joined. */
  function Rearrange<T>(source: seq<T>, order: seq<int>, length: nat): (r: seq<T>)
    requires Fits(|source|, order, length)
    ensures |r| == |order| * length
    decreases |order|
  {
    if order == [] then []
    else
      assert order[0] * length >= 0;
      MulSucc(|order| - 1, length);
      source[order[0] * length..order[0] * length + length] + Rearrange(source, order[1..], length)
  }

  lemma {:induction false} RearrangeAt<T>(source: seq<T>, order: seq<int>, length: nat, b: nat, o: nat)
    requires Fits(|source|, order, length) && b < |order| && o < length
    ensures 0 <= b * length + o < |order| * length
    ensures 0 <= order[b] * length + o < |source|
    ensures Rearrange(source, order, length)[b * length + o] == source[order[b] * length + o]
    decreases b
  {
    BlockInside(b, |order|, length, o);
    assert order[b] * length >= 0;
    if b > 0 {
      var rest := order[1..];
      RearrangeAt(source, rest, length, b - 1, o);
      MulSucc(b - 1, length);
      assert Rearrange(source, order, length)[length + ((b - 1) * length + o)]
          == Rearrange(source, rest, length)[(b - 1) * length + o];
    }
  }

  lemma BlockInside(b: nat, count: nat, length: nat, o: nat)
    requires b < count && o < length
    ensures 0 <= b * length + o < count * length
  {
    MulMonotone(b + 1, count, length);
    MulSucc(b, length);
  }

  lemma {:induction false} RearrangeAppend<T>(source: seq<T>, order: seq<int>, block: int, length: nat)
    requires Fits(|source|, order, length) && 0 <= block && block * length + length <= |source|
    ensures Fits(|source|, order + [block], length) && 0 <= block * length
    ensures Rearrange(source, order + [block], length)
         == Rearrange(source, order, length) + source[block * length..block * length + length]
    decreases |order|
  {
    assert block * length >= 0;
    if order == [] {
      assert order + [block] == [block] && [block][1..] == [];
    } else {
      assert (order + [block])[1..] == order[1..] + [block];
      RearrangeAppend(source, order[1..], block, length);
    }
  }

  // ---------------------------------------------------------------- written version 1: slice copies

  lemma BlockStep(b: nat, count: nat, length: nat)
    requires b < count
    ensures 0 <= b * length && b * length + length == (b + 1) * length <= count * length
  {
    MulSucc(b, length);
    MulMonotone(b + 1, count, length);
  }

  /** Copies one block into its place, as the slice assignment does. */
  method CopyBlock(source: array<real>, sourceStart: nat, r: array<real>, outputStart: nat, length: nat)
    requires source != r && sourceStart + length <= source.Length && outputStart + length <= r.Length
    modifies r
    ensures r[..outputStart + length] == old(r[..outputStart]) + source[..][sourceStart..sourceStart + length]
  {
    forall k | 0 <= k < length { r[outputStart + k] := source[sourceStart + k]; }
  }

  /** One more block: where it is read, where it is written, and what the filled part then holds. */
  lemma NextBlock(source: seq<real>, order: seq<int>, length: nat, k: nat, filled: nat)
    requires |source| == |order| * length && Fits(|source|, order, length)
    requires k < |order| && filled == k * length
    ensures 0 <= order[k] * length && order[k] * length + length <= |source|
    ensures filled + length == (k + 1) * length <= |source|
    ensures Rearrange(source, order[..k + 1], length)
         == Rearrange(source, order[..k], length) + source[order[k] * length..order[k] * length + length]
  {
    BlockStep(k, |order|, length);
    assert order[k] * length >= 0;
    RearrangeAppend(source, order[..k], order[k], length);
    assert order[..k + 1] == order[..k] + [order[k]];
  }

  lemma WholeOrder(order: seq<int>)
    ensures order[..|order|] == order
  {
  }

  /** One pass of the loop: block order[k] of the source becomes block k of the result. */
  method PlaceBlock(source: array<real>, order: seq<int>, length: nat, k: nat, r: array<real>, filled: nat)
    returns (next: nat)
    requires source != r && r.Length == source.Length == |order| * length && Fits(source.Length, order, length)
    requires k < |order| && filled == k * length <= r.Length
    requires r[..filled] == Rearrange(source[..], order[..k], length)
    modifies r
    ensures next == (k + 1) * length <= r.Length
    ensures r[..next] == Rearrange(source[..], order[..k + 1], length)
  {
    NextBlock(source[..], order, length, k, filled);
    var sourceStart := order[k] * length;
    CopyBlock(source, sourceStart, r, filled, length);
    next := filled + length;
  }

  method ApplyState(source: array<real>, order: seq<int>, length: nat) returns (r: array<real>)
    requires source.Length == |order| * length && Fits(source.Length, order, length)
    ensures fresh(r) && r[..] == Rearrange(source[..], order, length)
  {
    r := new real[source.Length];
    ghost var data := source[..];
    var filled := 0;
    for outputBlock := 0 to |order|
      invariant filled == outputBlock * length <= r.Length && source[..] == data
      invariant r[..filled] == Rearrange(data, order[..outputBlock], length)
    {
      filled := PlaceBlock(source, order, length, outputBlock, r, filled);
    }
    WholeOrder(order);
  }

  // ---------------------------------------------------------------- written version 2: element copies

  method CopyElements(source: array<real>, blockStart: nat, r: array<real>, start: nat, length: nat)
    returns (destination: nat)
    requires source != r && blockStart + length <= source.Length && start + length <= r.Length
    modifies r
    ensures destination == start + length
    ensures r[..destination] == old(r[..start]) + source[..][blockStart..blockStart + length]
  {
    destination := start;
    for offset := 0 to length
      invariant destination == start + offset
      invariant r[..destination] == old(r[..start]) + source[..][blockStart..blockStart + offset]
    {
      r[destination] := source[blockStart + offset];
      destination := destination + 1;
    }
  }

  method BlockPair(source: array<real>, order: seq<int>, length: nat) returns (r: array<real>)
    requires source.Length == |order| * length && Fits(source.Length, order, length)
    ensures fresh(r) && r[..] == Rearrange(source[..], order, length)
  {
    r := new real[source.Length];
    var destination := 0;
    ghost var data := source[..];
    for i := 0 to |order|
      invariant destination == i * length <= r.Length && source[..] == data
      invariant r[..destination] == Rearrange(data, order[..i], length)
    {
      NextBlock(data, order, length, i, destination);
      destination := CopyElements(source, order[i] * length, r, destination, length);
    }
    WholeOrder(order);
  }

  // ---------------------------------------------------------------- written version 3: byte concatenation

  /** The bytes of a vector whose elements have a fixed-width encoding. */
  function Bytes(source: seq<real>, enc: real -> seq<int>): seq<int> {
    if source == [] then [] else enc(source[0]) + Bytes(source[1..], enc)
  }

  ghost predicate FixedWidth(enc: real -> seq<int>, width: nat) {
    forall x :: |enc(x)| == width
  }

  lemma {:induction false} BytesAppend(a: seq<real>, b: seq<real>, enc: real -> seq<int>)
    ensures Bytes(a + b, enc) == Bytes(a, enc) + Bytes(b, enc)
  {
    if a == [] {
      assert a + b == b;
    } else {
      assert (a + b)[1..] == a[1..] + b;
      BytesAppend(a[1..], b, enc);
    }
  }

  lemma {:induction false} BytesLength(source: seq<real>, enc: real -> seq<int>, width: nat)
    requires FixedWidth(enc, width)
    ensures |Bytes(source, enc)| == |source| * width
  {
    if source != [] {
      BytesLength(source[1..], enc, width);
      var x := source[0];
      assert |enc(x)| == width;
      MulSucc(|source| - 1, width);
    }
  }

  lemma BytesSlice(source: seq<real>, enc: real -> seq<int>, width: nat, i: nat, j: nat)
    requires FixedWidth(enc, width) && i <= j <= |source|
    ensures 0 <= i * width <= j * width <= |Bytes(source, enc)|
    ensures Bytes(source, enc)[i * width..j * width] == Bytes(source[i..j], enc)
  {
    var upTo := source[..j];
    assert source == upTo + source[j..] && upTo == source[..i] + source[i..j];
    BytesAppend(upTo, source[j..], enc);
    BytesAppend(source[..i], source[i..j], enc);
    BytesLength(source[..i], enc, width);
    BytesLength(upTo, enc, width);
    MulMonotone(i, j, width);
    Slice(Bytes(source[..i], enc), Bytes(source[i..j], enc), Bytes(source[j..], enc));
  }

  lemma Slice<T>(a: seq<T>, b: seq<T>, c: seq<T>)
    ensures (a + b + c)[|a|..|a + b|] == b
  {
  }

  lemma FitsBytes(total: nat, order: seq<int>, length: nat, width: nat)
    requires Fits(total, order, length)
    ensures Fits(total * width, order, length * width)
  {
    forall i | 0 <= i < |order| ensures 0 <= order[i] && order[i] * (length * width) + length * width <= total * width {
      MulMonotone(order[i] * length + length, total, width);
      ScaleBlock(order[i], length, width);
    }
  }

  lemma ScaleBlock(b: int, length: nat, width: nat)
    ensures b * (length * width) == (b * length) * width
    ensures (b * length + length) * width == b * (length * width) + length * width
  {
  }

  /** Concatenating byte slices of the payload gives the bytes of the rearranged source. */
  lemma {:induction false} ExpectedBytesAgree(
    source: seq<real>, order: seq<int>, length: nat, enc: real -> seq<int>, width: nat)
    requires FixedWidth(enc, width) && Fits(|source|, order, length)
    ensures |Bytes(source, enc)| == |source| * width
    ensures Fits(|source| * width, order, length * width)
    ensures Rearrange(Bytes(source, enc), order, length * width) == Bytes(Rearrange(source, order, length), enc)
    decreases |order|
  {
    BytesLength(source, enc, width);
    FitsBytes(|source|, order, length, width);
    if order != [] {
      var start := order[0] * length;
      assert start >= 0;
      ExpectedBytesAgree(source, order[1..], length, enc, width);
      BytesSlice(source, enc, width, start, start + length);
      ScaleBlock(order[0], length, width);
      BytesAppend(source[start..start + length], Rearrange(source, order[1..], length), enc);
    }
  }

  // ---------------------------------------------------------------- what every mapping preserves

  /** For q blocks, every order fits. */
  lemma OrderFits(order: seq<int>, length: nat)
    requires IsOrder(order)
    ensures Fits(|order| * length, order, length)
  {
    forall i | 0 <= i < |order| ensures order[i] * length + length <= |order| * length {
      BlockStep(order[i], |order|, length);
    }
  }

  ghost function BlockBag<T>(source: seq<T>, b: int, length: nat): multiset<T>
    requires 0 <= b && b * length + length <= |source|
  {
    assert b * length >= 0;
    multiset(source[b * length..b * length + length])
  }

  ghost function Bag<T>(source: seq<T>, order: seq<int>, length: nat): multiset<T>
    requires Fits(|source|, order, length)
  {
    if order == [] then multiset{} else BlockBag(source, order[0], length) + Bag(source, order[1..], length)
  }

  lemma {:induction false} BagOfRearranged<T>(source: seq<T>, order: seq<int>, length: nat)
    requires Fits(|source|, order, length)
    ensures multiset(Rearrange(source, order, length)) == Bag(source, order, length)
  {
    if order != [] { BagOfRearranged(source, order[1..], length); }
  }

  ghost function Without(s: seq<int>, k: nat): (r: seq<int>)
    requires k < |s|
    ensures |r| == |s| - 1 && forall i :: 0 <= i < |r| ==> r[i] == if i < k then s[i] else s[i + 1]
  {
    s[..k] + s[k + 1..]
  }

  lemma {:induction false} BagWithout<T>(source: seq<T>, order: seq<int>, length: nat, k: nat)
    requires Fits(|source|, order, length) && k < |order|
    ensures Fits(|source|, Without(order, k), length)
    ensures Bag(source, order, length)
         == BlockBag(source, order[k], length) + Bag(source, Without(order, k), length)
    decreases k
  {
    if k == 0 {
      assert Without(order, 0) == order[1..];
    } else {
      BagWithout(source, order[1..], length, k - 1);
      WithoutTail(order, k);
      BagSwap(BlockBag(source, order[0], length), BlockBag(source, order[k], length),
              Bag(source, Without(order[1..], k - 1), length));
    }
  }

  lemma WithoutTail(s: seq<int>, k: nat)
    requires 0 < k < |s|
    ensures Without(s, k) != [] && Without(s, k)[0] == s[0] && Without(s, k)[1..] == Without(s[1..], k - 1)
  {
  }

  lemma BagSwap<T>(x: multiset<T>, y: multiset<T>, z: multiset<T>)
    ensures x + (y + z) == y + (x + z)
  {
  }

  lemma WithoutBag(s: seq<int>, k: nat)
    requires k < |s|
    ensures multiset(Without(s, k)) == multiset(s) - multiset{s[k]}
  {
    assert s == s[..k] + [s[k]] + s[k + 1..];
  }

  lemma MatchFirst(a: seq<int>, b: seq<int>) returns (k: nat)
    requires a != [] && multiset(a) == multiset(b)
    ensures k < |b| && b[k] == a[0] && multiset(a[1..]) == multiset(Without(b, k))
  {
    assert a[0] in multiset(b);
    k :| 0 <= k < |b| && b[k] == a[0];
    WithoutBag(a, 0);
    assert Without(a, 0) == a[1..];
    WithoutBag(b, k);
  }

  /** Orders with the same labels give the same bag of elements. */
  lemma {:induction false} SameLabelsSameBag<T>(source: seq<T>, a: seq<int>, b: seq<int>, length: nat)
    requires Fits(|source|, a, length) && Fits(|source|, b, length) && multiset(a) == multiset(b)
    ensures Bag(source, a, length) == Bag(source, b, length)
    decreases |a|
  {
    if a == [] {
      assert |multiset(b)| == 0;
    } else {
      var k := MatchFirst(a, b);
      BagWithout(source, b, length, k);
      SameLabelsSameBag(source, a[1..], Without(b, k), length);
    }
  }

  lemma {:induction false} RearrangeIdentity<T>(source: seq<T>, q: nat, length: nat)
    requires q * length <= |source|
    ensures Fits(|source|, Ascending(q), length)
    ensures Rearrange(source, Ascending(q), length) == source[..q * length]
  {
    forall i | 0 <= i < q ensures Ascending(q)[i] * length + length <= |source| { BlockStep(i, q, length); }
    if q > 0 {
      BlockStep(q - 1, q, length);
      RearrangeIdentity(source, q - 1, length);
      assert Ascending(q) == Ascending(q - 1) + [q - 1];
      RearrangeAppend(source, Ascending(q - 1), q - 1, length);
    }
  }

  /** A block order only moves elements: none is lost, repeated or invented. */
  lemma RearrangePermutes<T>(source: seq<T>, order: seq<int>, length: nat)
    requires IsOrder(order) && |source| == |order| * length
    ensures Fits(|source|, order, length)
    ensures multiset(Rearrange(source, order, length)) == multiset(source)
  {
    OrderFits(order, length);
    OrderTestsAgree(order);
    RearrangeIdentity(source, |order|, length);
    SameLabelsSameBag(source, order, Ascending(|order|), length);
    BagOfRearranged(source, order, length);
    BagOfRearranged(source, Ascending(|order|), length);
    assert source[..|order| * length] == source;
  }

  /** b undoes a when it sends every position back. */
  ghost predicate Undoes(b: seq<int>, a: seq<int>) {
    IsOrder(a) && IsOrder(b) && |a| == |b| && forall i :: 0 <= i < |b| ==> a[b[i]] == i
  }

  function Inverse(order: seq<int>): seq<int> {
    seq(|order|, i => IndexOf(order, i))
  }

  lemma InverseUndoes(order: seq<int>)
    requires IsOrder(order)
    ensures Undoes(Inverse(order), order)
  {
    DistinctCovers(order);
    var b := Inverse(order);
    forall i | 0 <= i < |order| ensures 0 <= b[i] < |order| && order[b[i]] == i {
      assert i in order;
    }
  }

  lemma UndoneAt<T>(source: seq<T>, a: seq<int>, b: seq<int>, length: nat, block: nat, o: nat)
    requires Undoes(b, a) && |source| == |a| * length && block < |b| && o < length
    requires Fits(|source|, a, length) && Fits(|source|, b, length)
    ensures 0 <= block * length + o < |source|
    ensures Rearrange(Rearrange(source, a, length), b, length)[block * length + o] == source[block * length + o]
  {
    hide Rearrange;
    RearrangeAt(Rearrange(source, a, length), b, length, block, o);
    RearrangeAt(source, a, length, b[block], o);
  }

  /** Rearranging by an order and then by its inverse restores the source. */
  lemma RearrangeUndone<T>(source: seq<T>, a: seq<int>, b: seq<int>, length: nat)
    requires Undoes(b, a) && |source| == |a| * length
    ensures Fits(|source|, a, length) && Fits(|source|, b, length)
    ensures Rearrange(Rearrange(source, a, length), b, length) == source
  {
    OrderFits(a, length);
    OrderFits(b, length);
    var twice := Rearrange(Rearrange(source, a, length), b, length);
    hide Rearrange;
    forall i | 0 <= i < |source| ensures twice[i] == source[i] {
      var block, o := SplitIndex(i, |a|, length);
      UndoneAt(source, a, b, length, block, o);
    }
  }

  lemma SplitIndex(i: nat, count: nat, length: nat) returns (block: nat, o: nat)
    requires i < count * length
    ensures block < count && o < length && i == block * length + o
  {
    block, o := i / length, i % length;
    if count <= block { MulMonotone(count, block, length); }
  }

  // ---------------------------------------------------------------- counting the states

  /** Multiplies factors up to the block count, refusing as soon as the next product would exceed the cap. */
  method BlockStateCount(observedLength: nat, blockLength: int)
    returns (r: Result<nat, NullError>, blockCount: nat)
    ensures r.Err? && r.error == BadBlockLength <==> blockLength < 1
    ensures r.Err? && r.error == NotDivisible <==> blockLength >= 1 && observedLength % blockLength != 0
    ensures blockLength >= 1 ==> blockCount == observedLength / blockLength
    ensures r.Err? && r.error == TooFewBlocks
       <==> blockLength >= 1 && observedLength % blockLength == 0 && observedLength / blockLength < 2
    ensures r.Ok? <==> blockLength >= 1 && observedLength % blockLength == 0 && observedLength / blockLength >= 2
                       && Factorial(observedLength / blockLength) <= 100_000
    ensures r.Ok? ==> r.value == Factorial(blockCount)
    ensures r.Err? ==> !r.error.BadIndex?
    ensures r.Err? && r.error.CapExceeded? ==>
              exists factor: nat :: 2 <= factor <= blockCount && r.error.total == Factorial(factor) > 100_000
                && Factorial(factor - 1) <= 100_000
  {
    blockCount := 0;
    if blockLength < 1 { return Err(BadBlockLength), blockCount; }
    blockCount := observedLength / blockLength;
    if observedLength % blockLength != 0 { return Err(NotDivisible), blockCount; }
    if blockCount < 2 { return Err(TooFewBlocks), blockCount; }
    var total, factor := 1, 2;
    while factor <= blockCount
      invariant 2 <= factor <= blockCount + 1
      invariant total == Factorial(factor - 1) <= MAX_EXACT_STATES
    {
      if total > MAX_EXACT_STATES / factor {
        CapTest(total, factor, MAX_EXACT_STATES);
        FactorialMonotone(factor, blockCount);
        return Err(CapExceeded(total * factor)), blockCount;
      }
      CapTest(total, factor, MAX_EXACT_STATES);
      total := total * factor;
      factor := factor + 1;
    }
    r := Ok(total);
  }

  /** The integer-division test is the test on the product. */
  lemma CapTest(total: nat, factor: nat, cap: nat)
    requires factor > 0
    ensures total > cap / factor <==> total * factor > cap
  {
    var q := cap / factor;
    assert q * factor <= cap < q * factor + factor;
    MulSucc(q, factor);
    if total > q { MulMonotone(q + 1, total, factor); } else { MulMonotone(total, q, factor); }
  }

  lemma {:induction false} FactorialMonotone(a: nat, b: nat)
    requires a <= b
    ensures Factorial(a) <= Factorial(b)
    decreases b - a
  {
    if a < b {
      FactorialMonotone(a, b - 1);
      MulMonotone(1, b, Factorial(b - 1));
    }
  }
}
