/** The chunked extraction of a deflated member, for any decompressor with zlib's feeding contract. */
module Inflate {
  import opened Wrappers
  import opened Bytes

  /** What a sequence of bytes amounts to as the beginning of a compressed stream. */
  datatype Status = Bad | More(output: seq<Byte>) | Done(output: seq<Byte>)

  /** A compressed format: output only grows, and nothing follows the end of a stream. */
  ghost predicate Coherent(status: seq<Byte> -> Status) {
    && status([]) == More([])
    && forall x, y {:trigger status(x + y)} :: y != [] ==>
         (status(x).More? && status(x + y) != Bad ==> status(x).output <= status(x + y).output)
         && (!status(x).More? ==> status(x + y) == Bad)
  }

  /** One call's answer: an error, or the output, the input it did not take, and what follows the end. */
  datatype Answer<S> = Failed | Fed(state: S, output: seq<Byte>, tail: seq<Byte>, unused: seq<Byte>, eof: bool)

  datatype Decompressor<!S> = Decompressor(
    start: S,
    feed: (S, seq<Byte>, nat) -> Answer<S>,
    consumed: S -> seq<Byte>,
    produced: S -> seq<Byte>)

  /** The stream that continues x breaks within the offered bytes. */
  ghost predicate Breaks(status: seq<Byte> -> Status, x: seq<Byte>, offered: seq<Byte>) {
    exists k :: 0 <= k <= |offered| && status(x + offered[..k]) == Bad
                && forall j :: 0 <= j < k ==> status(x + offered[..j]).More?
  }

  /**
   * A call on a state that has delivered all output of its input so far: input is taken from the front, and it is
   * left over only at the output limit or after the end of the stream.
   */
  ghost predicate FeedOk<S>(d: Decompressor<S>, status: seq<Byte> -> Status, s: S, offered: seq<Byte>, limit: nat) {
    match d.feed(s, offered, limit)
    case Failed => Breaks(status, d.consumed(s), offered)
    case Fed(next, output, tail, unused, eof) =>
      && |output| <= limit && |tail| + |unused| <= |offered|
      && offered == offered[..|offered| - |tail| - |unused|] + tail + unused
      && d.consumed(next) == d.consumed(s) + offered[..|offered| - |tail| - |unused|]
      && d.produced(next) == d.produced(s) + output
      && if eof then tail == [] && status(d.consumed(next)) == Done(d.produced(next))
         else
           && unused == [] && status(d.consumed(next)).More?
           && d.produced(next) <= status(d.consumed(next)).output
           && (|output| < limit ==> tail == [] && status(d.consumed(next)) == More(d.produced(next)))
  }

  ghost predicate Obeys<S(!new)>(d: Decompressor<S>, status: seq<Byte> -> Status) {
    && d.consumed(d.start) == [] && d.produced(d.start) == []
    && forall s, offered, limit {:trigger d.feed(s, offered, limit)} ::
         limit > 0 && status(d.consumed(s)) == More(d.produced(s)) ==> FeedOk(d, status, s, offered, limit)
  }

  const CHUNK: nat := 65_536
  const MEMBER_LIMIT: nat := 8_004_108

  datatype ExtractError = Malformed | OverLimit

  /** What the directory declares about a member. */
  datatype Declared = Declared(dataOffset: nat, dataEnd: nat, size: nat, crc32: nat)

  function VerifyExtracted(crc: seq<Byte> -> nat, payload: seq<Byte>, m: Declared): Result<seq<Byte>, ExtractError> {
    if |payload| != m.size || crc(payload) != m.crc32 then Err(Malformed) else Ok(payload)
  }

  function Join(chunks: seq<seq<Byte>>): seq<Byte> {
    if chunks == [] then [] else Join(chunks[..|chunks| - 1]) + chunks[|chunks| - 1]
  }

  /** Before the end of a complete stream every prefix is unfinished and has delivered a prefix of the output. */
  lemma PrefixOfStream(status: seq<Byte> -> Status, data: seq<Byte>, k: nat)
    requires Coherent(status) && status(data).Done? && k < |data|
    ensures status(data[..k]).More? && status(data[..k]).output <= status(data).output
  {
    assert data[..k] + data[k..] == data;
  }

  /** A complete stream does not break anywhere. */
  lemma NeverBreaks(status: seq<Byte> -> Status, data: seq<Byte>, x: seq<Byte>, offered: seq<Byte>)
    requires Coherent(status) && status(data).Done? && x + offered <= data
    ensures !Breaks(status, x, offered)
  {
    if Breaks(status, x, offered) {
      var k :| 0 <= k <= |offered| && status(x + offered[..k]) == Bad;
      assert x + offered[..k] == data[..|x| + k];
      assert data[..|data|] == data;
      if |x| + k < |data| { PrefixOfStream(status, data, |x| + k); }
    }
  }

  /** Some beginning of the range already inflates past the member limit. */
  ghost predicate Overflows(status: seq<Byte> -> Status, range: seq<Byte>) {
    exists k :: 0 <= k <= |range| && status(range[..k]) != Bad && |status(range[..k]).output| > 8_004_108
  }

  /** A complete stream within the limit overflows nowhere. */
  lemma NoOverflow(status: seq<Byte> -> Status, data: seq<Byte>)
    requires Coherent(status) && status(data).Done? && |status(data).output| <= MEMBER_LIMIT
    ensures !Overflows(status, data)
  {
    if Overflows(status, data) {
      var k :| 0 <= k <= |data| && status(data[..k]) != Bad && |status(data[..k]).output| > MEMBER_LIMIT;
      assert data[..|data|] == data;
      if k < |data| { PrefixOfStream(status, data, k); }
    }
  }

  /** The range is one whole stream that inflates within the member limit. */
  ghost predicate Whole(status: seq<Byte> -> Status, range: seq<Byte>) {
    status(range).Done? && |status(range).output| <= 8_004_108
  }

  lemma FailedFeed<S(!new)>(d: Decompressor<S>, status: seq<Byte> -> Status, s: S, offered: seq<Byte>, limit: nat,
                            range: seq<Byte>)
    requires Coherent(status) && Obeys(d, status) && limit > 0
    requires status(d.consumed(s)) == More(d.produced(s)) && d.feed(s, offered, limit).Failed?
    requires d.consumed(s) + offered <= range
    ensures !status(range).Done?
  {
    assert FeedOk(d, status, s, offered, limit);
    if status(range).Done? { NeverBreaks(status, range, d.consumed(s), offered); }
  }

  lemma OverflowingFeed(status: seq<Byte> -> Status, range: seq<Byte>, consumed: seq<Byte>, produced: seq<Byte>)
    requires consumed <= range && status(consumed) != Bad && produced <= status(consumed).output
    requires |produced| > MEMBER_LIMIT
    ensures Overflows(status, range)
  {
    assert range[..|consumed|] == consumed;
  }

  lemma EndsEarly(status: seq<Byte> -> Status, range: seq<Byte>, consumed: seq<Byte>)
    requires Coherent(status) && consumed <= range && consumed != range && status(consumed).Done?
    ensures !status(range).Done?
  {
    assert range == consumed + range[|consumed|..];
  }

  /** The next chunk continues what has been handed over. */
  lemma NextChunk(raw: seq<Byte>, dataOffset: nat, cursor: nat, chunkEnd: nat, dataEnd: nat)
    requires dataOffset <= cursor <= chunkEnd <= dataEnd <= |raw|
    ensures raw[dataOffset..dataEnd][..cursor - dataOffset] + raw[cursor..chunkEnd]
         == raw[dataOffset..dataEnd][..chunkEnd - dataOffset]
  {
  }

  /** What one successful call has taken, delivered and left over. */
  lemma FeedStep<S(!new)>(d: Decompressor<S>, status: seq<Byte> -> Status, s: S, offered: seq<Byte>, limit: nat,
                          given: seq<Byte>)
    requires Obeys(d, status) && limit > 0 && status(d.consumed(s)) == More(d.produced(s))
    requires d.feed(s, offered, limit).Fed? && d.consumed(s) + offered == given
    ensures var a := d.feed(s, offered, limit);
      && d.consumed(a.state) + a.tail + a.unused == given && d.consumed(a.state) <= given
      && d.produced(a.state) == d.produced(s) + a.output
      && status(d.consumed(a.state)) != Bad && d.produced(a.state) <= status(d.consumed(a.state)).output
      && (a.eof ==> a.tail == [] && status(d.consumed(a.state)) == Done(d.produced(a.state)))
      && (!a.eof ==> a.unused == [])
      && (!a.eof && |a.output| < limit ==> a.tail == [] && status(d.consumed(a.state)) == More(d.produced(a.state)))
  {
    assert FeedOk(d, status, s, offered, limit);
    var a := d.feed(s, offered, limit);
    var used := offered[..|offered| - |a.tail| - |a.unused|];
    assert d.consumed(s) + (used + a.tail + a.unused) == d.consumed(s) + used + a.tail + a.unused;
  }

  lemma NotWhole(status: seq<Byte> -> Status, range: seq<Byte>)
    requires Coherent(status) && Overflows(status, range)
    ensures !Whole(status, range)
  {
    if Whole(status, range) { NoOverflow(status, range); }
  }

  /**
   * The loop hands over raw[dataOffset..dataEnd] in chunks. It ends for every decompressor of this contract, and
   * returns the output exactly when one-shot decompression of the whole range gives it within the limit.
   */
  method InflateRange<S(!new)>(d: Decompressor<S>, ghost status: seq<Byte> -> Status, raw: seq<Byte>,
                               dataOffset: nat, dataEnd: nat)
      returns (r: Result<seq<Byte>, ExtractError>)
    requires Coherent(status) && Obeys(d, status) && dataOffset <= dataEnd <= |raw|
    ensures r.Ok? <==> Whole(status, raw[dataOffset..dataEnd])
    ensures r.Ok? ==> status(raw[dataOffset..dataEnd]) == Done(r.value)
    ensures r == Err(OverLimit) ==> Overflows(status, raw[dataOffset..dataEnd])
  {
    ghost var range := raw[dataOffset..dataEnd];
    var maximum := MEMBER_LIMIT + 1;
    var state, observed := d.start, 0;
    var chunks: seq<seq<Byte>> := [];
    var cursor := dataOffset;
    var pending: seq<Byte>, tail: seq<Byte>, unused: seq<Byte> := [], [], [];
    var eof := false;
    while pending != [] || cursor < dataEnd
      invariant dataOffset <= cursor <= dataEnd && !eof && pending == tail == unused == []
      invariant d.consumed(state) == range[..cursor - dataOffset]
      invariant status(d.consumed(state)) == More(d.produced(state))
      invariant Join(chunks) == d.produced(state) && observed == |d.produced(state)| < maximum
      decreases dataEnd - cursor + |pending| + maximum - observed
    {
      if pending == [] {
        var chunkEnd := if cursor + CHUNK < dataEnd then cursor + CHUNK else dataEnd;
        pending := raw[cursor..chunkEnd];
        NextChunk(raw, dataOffset, cursor, chunkEnd, dataEnd);
        cursor := chunkEnd;
        if pending == [] { return Err(Malformed); }
      }
      var offered := pending;
      var remaining := maximum - observed;
      if remaining <= 0 { return Err(OverLimit); }
      var answer := d.feed(state, offered, remaining);
      if answer.Failed? {
        FailedFeed(d, status, state, offered, remaining, range);
        return Err(Malformed);
      }
      FeedStep(d, status, state, offered, remaining, range[..cursor - dataOffset]);
      var output := answer.output;
      tail, unused, eof := answer.tail, answer.unused, answer.eof;
      state := answer.state;
      if output != [] {
        chunks := chunks + [output];
        observed := observed + |output|;
        if observed >= maximum {
          OverflowingFeed(status, range, d.consumed(state), d.produced(state));
          NotWhole(status, range);
          return Err(OverLimit);
        }
      }
      if eof {
        if unused != [] || tail != [] || cursor != dataEnd {
          EndsEarly(status, range, d.consumed(state));
          return Err(Malformed);
        }
        assert d.consumed(state) == range;
        pending := [];
        break;
      }
      var consumed := |offered| - |tail|;
      if consumed <= 0 && output == [] { return Err(Malformed); }
      pending := tail;
    }
    assert d.consumed(state) == range;
    if cursor != dataEnd || pending != [] || !eof || unused != [] || tail != [] {
      return Err(Malformed);
    }
    r := Ok(Join(chunks));
  }

  /** A deflated member is extracted exactly when its whole range inflates to the declared size and checksum. */
  method ExtractDeflated<S(!new)>(d: Decompressor<S>, ghost status: seq<Byte> -> Status, crc: seq<Byte> -> nat,
                                  raw: seq<Byte>, m: Declared)
      returns (r: Result<seq<Byte>, ExtractError>)
    requires Coherent(status) && Obeys(d, status) && m.dataOffset <= m.dataEnd <= |raw|
    ensures r.Ok? <==> Whole(status, raw[m.dataOffset..m.dataEnd])
                       && |status(raw[m.dataOffset..m.dataEnd]).output| == m.size
                       && crc(status(raw[m.dataOffset..m.dataEnd]).output) == m.crc32
    ensures r.Ok? ==> status(raw[m.dataOffset..m.dataEnd]) == Done(r.value)
    ensures r == Err(OverLimit) ==> Overflows(status, raw[m.dataOffset..m.dataEnd])
  {
    var payload := InflateRange(d, status, raw, m.dataOffset, m.dataEnd);
    r := match payload
      case Err(e) => Err(e)
      case Ok(bytes) => VerifyExtracted(crc, bytes, m);
  }
}
