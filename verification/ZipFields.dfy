/** The end-of-directory search, the extra-field parser and the ZIP64 sizes of an NPZ archive. */
module ZipFields {
  import opened Wrappers
  import opened Bytes

  datatype NpzError = Malformed | WrongKeys | DirectoryLimit(observed: nat)

  const EOCD_SIGNATURE: seq<Byte> := [0x50, 0x4B, 0x05, 0x06]
  const EOCD_SIZE: nat := 22
  const EOCD_SEARCH_BYTES: nat := 65_557

  // ---------------------------------------------------------------- the end of the directory

  /** The first position of the piece at or after start. */
  function FindPiece(raw: seq<Byte>, piece: seq<Byte>, start: nat): (r: Option<nat>)
    ensures r.Some? ==> start <= r.value && At(raw, r.value, piece)
    ensures r.Some? ==> forall k :: start <= k < r.value ==> !At(raw, k, piece)
    ensures r.None? ==> forall k :: start <= k ==> !At(raw, k, piece)
    decreases |raw| - start
  {
    if start + |piece| > |raw| then None
    else if At(raw, start, piece) then Some(start)
    else FindPiece(raw, piece, start + 1)
  }

  /** An end-of-directory record whose comment reaches exactly to the end of the archive. */
  predicate IsEnd(raw: seq<Byte>, at: nat) {
    && At(raw, at, EOCD_SIGNATURE)
    && at + EOCD_SIZE <= |raw| && at + EOCD_SIZE + U16(raw, at + 20) == |raw|
  }

  ghost predicate UniqueEnd(raw: seq<Byte>, at: nat) {
    IsEnd(raw, at) && forall k :: IsEnd(raw, k) ==> k == at
  }

  /** The bounded window misses no candidate, since a comment has at most 65,535 bytes. */
  lemma WindowHoldsEnds(raw: seq<Byte>, at: nat)
    requires IsEnd(raw, at)
    ensures |raw| - EOCD_SEARCH_BYTES <= at
  {
  }

  lemma NotUnique(raw: seq<Byte>, offsets: seq<nat>)
    requires |offsets| != 1
    requires forall i :: 0 <= i < |offsets| ==> IsEnd(raw, offsets[i])
    requires forall i, j :: 0 <= i < j < |offsets| ==> offsets[i] < offsets[j]
    requires forall k: nat :: IsEnd(raw, k) ==> k in offsets
    ensures forall at :: !UniqueEnd(raw, at)
  {
    if |offsets| > 1 { assert IsEnd(raw, offsets[0]) && IsEnd(raw, offsets[1]); }
  }

  /** The search of the window finds the one candidate of the whole archive, and fails unless there is exactly one. */
  method FindEocdOffset(raw: seq<Byte>) returns (r: Result<nat, NpzError>)
    ensures r.Ok? ==> UniqueEnd(raw, r.value)
    ensures r.Err? ==> r.error == Malformed && forall at :: !UniqueEnd(raw, at)
  {
    var searchStart := if |raw| < EOCD_SEARCH_BYTES then 0 else |raw| - EOCD_SEARCH_BYTES;
    var offsets: seq<nat> := [];
    var cursor := searchStart;
    while true
      invariant searchStart <= cursor <= |raw| + 1
      invariant forall i :: 0 <= i < |offsets| ==> IsEnd(raw, offsets[i]) && offsets[i] < cursor
      invariant forall i, j :: 0 <= i < j < |offsets| ==> offsets[i] < offsets[j]
      invariant forall k: nat :: k < cursor && IsEnd(raw, k) ==> k in offsets
      decreases |raw| + 1 - cursor
    {
      var candidate := FindPiece(raw, EOCD_SIGNATURE, cursor);
      if candidate.None? { break; }
      var at := candidate.value;
      cursor := at + 1;
      if at + EOCD_SIZE > |raw| { continue; }
      if at + EOCD_SIZE + U16(raw, at + 20) == |raw| { offsets := offsets + [at]; }
    }
    if |offsets| != 1 {
      NotUnique(raw, offsets);
      return Err(Malformed);
    }
    r := Ok(offsets[0]);
  }

  // ---------------------------------------------------------------- extra fields

  const EXTRA_HEADER_SIZE: nat := 4

  datatype Field = Field(id: nat, payload: seq<Byte>)

  predicate FieldFits(f: Field) {
    f.id < 0x1_0000 && |f.payload| < 0x1_0000
  }

  function FieldBytes(f: Field): seq<Byte>
    requires FieldFits(f)
  {
    Le16(f.id) + Le16(|f.payload|) + f.payload
  }

  predicate HasId(fields: seq<Field>, id: nat) {
    exists i :: 0 <= i < |fields| && fields[i].id == id
  }

  /** Fields a dictionary can hold: each fits its header, and no identifier repeats. */
  predicate FieldsOk(fields: seq<Field>) {
    && (forall i :: 0 <= i < |fields| ==> FieldFits(fields[i]))
    && (forall i, j :: 0 <= i < j < |fields| ==> fields[i].id != fields[j].id)
  }

  /** The bytes of the fields from the k-th on. */
  function ConcatFrom(fields: seq<Field>, k: nat): seq<Byte>
    requires k <= |fields| && forall i :: 0 <= i < |fields| ==> FieldFits(fields[i])
    decreases |fields| - k
  {
    if k == |fields| then [] else FieldBytes(fields[k]) + ConcatFrom(fields, k + 1)
  }

  function ParseFrom(extra: seq<Byte>, cursor: nat, fields: seq<Field>): Result<seq<Field>, NpzError>
    requires cursor <= |extra|
    decreases |extra| - cursor
  {
    if cursor == |extra| then Ok(fields)
    else if |extra| - cursor < EXTRA_HEADER_SIZE then Err(Malformed)
    else
      var id, start := U16(extra, cursor), cursor + EXTRA_HEADER_SIZE;
      var end := start + U16(extra, cursor + 2);
      if end > |extra| || HasId(fields, id) then Err(Malformed)
      else ParseFrom(extra, end, fields + [Field(id, extra[start..end])])
  }

  function ExtraFields(extra: seq<Byte>): Result<seq<Field>, NpzError> {
    ParseFrom(extra, 0, [])
  }

  method ParseExtraFields(extra: seq<Byte>) returns (r: Result<seq<Field>, NpzError>)
    ensures r == ExtraFields(extra)
  {
    var fields: seq<Field> := [];
    var cursor := 0;
    while cursor < |extra|
      invariant cursor <= |extra| && ParseFrom(extra, cursor, fields) == ExtraFields(extra)
    {
      if |extra| - cursor < EXTRA_HEADER_SIZE { return Err(Malformed); }
      var id, size := U16(extra, cursor), U16(extra, cursor + 2);
      cursor := cursor + EXTRA_HEADER_SIZE;
      var end := cursor + size;
      if end > |extra| || HasId(fields, id) { return Err(Malformed); }
      fields := fields + [Field(id, extra[cursor..end])];
      cursor := end;
    }
    r := Ok(fields);
  }

  lemma SplitField(extra: seq<Byte>, cursor: nat, f: Field)
    requires FieldFits(f) && cursor + EXTRA_HEADER_SIZE + |f.payload| <= |extra|
    requires U16(extra, cursor) == f.id && U16(extra, cursor + 2) == |f.payload|
    requires extra[cursor + EXTRA_HEADER_SIZE..cursor + EXTRA_HEADER_SIZE + |f.payload|] == f.payload
    ensures extra[cursor..cursor + EXTRA_HEADER_SIZE + |f.payload|] == FieldBytes(f)
  {
  }

  /** A written field is read back, and the rest follows it. */
  lemma ReadHeader(extra: seq<Byte>, cursor: nat, f: Field, rest: seq<Byte>) returns (end: nat)
    requires cursor <= |extra| && FieldFits(f) && extra[cursor..] == FieldBytes(f) + rest
    ensures end == cursor + EXTRA_HEADER_SIZE + |f.payload| <= |extra|
    ensures U16(extra, cursor) == f.id && U16(extra, cursor + 2) == |f.payload|
    ensures extra[cursor + EXTRA_HEADER_SIZE..end] == f.payload && extra[end..] == rest
  {
    end := cursor + EXTRA_HEADER_SIZE + |f.payload|;
    var tail := extra[cursor..];
    assert tail[..4] == Le16(f.id) + Le16(|f.payload|);
    assert forall i :: 0 <= i < |tail| ==> tail[i] == extra[cursor + i];
    assert tail[4..4 + |f.payload|] == f.payload && tail[4 + |f.payload|..] == rest;
  }

  lemma {:induction false} ParsedConcat(extra: seq<Byte>, cursor: nat, parsed: seq<Field>, fields: seq<Field>)
    requires cursor <= |extra| && FieldsOk(parsed) && ParseFrom(extra, cursor, parsed) == Ok(fields)
    ensures FieldsOk(fields) && parsed <= fields && extra[cursor..] == ConcatFrom(fields, |parsed|)
    decreases |extra| - cursor
  {
    if cursor < |extra| {
      var id, start := U16(extra, cursor), cursor + EXTRA_HEADER_SIZE;
      var end := start + U16(extra, cursor + 2);
      var f := Field(id, extra[start..end]);
      ParsedConcat(extra, end, parsed + [f], fields);
      SplitField(extra, cursor, f);
      assert fields[|parsed|] == f && extra[cursor..] == extra[cursor..end] + extra[end..];
    }
  }

  lemma {:induction false} ConcatParsed(extra: seq<Byte>, cursor: nat, fields: seq<Field>, k: nat)
    requires cursor <= |extra| && FieldsOk(fields) && k <= |fields| && extra[cursor..] == ConcatFrom(fields, k)
    ensures ParseFrom(extra, cursor, fields[..k]) == Ok(fields)
    decreases |fields| - k
  {
    if k == |fields| {
      assert fields[..k] == fields;
    } else {
      var f := fields[k];
      var end := ReadHeader(extra, cursor, f, ConcatFrom(fields, k + 1));
      ConcatParsed(extra, end, fields, k + 1);
      assert fields[..k] + [f] == fields[..k + 1];
    }
  }

  /** Parsing extra fields inverts writing them one after the other, and accepts nothing else. */
  lemma ExtraFieldsIff(extra: seq<Byte>, fields: seq<Field>)
    ensures ExtraFields(extra) == Ok(fields) <==> FieldsOk(fields) && ConcatFrom(fields, 0) == extra
  {
    assert extra[0..] == extra && fields[..0] == [];
    if ExtraFields(extra) == Ok(fields) {
      ParsedConcat(extra, 0, [], fields);
    } else if FieldsOk(fields) && ConcatFrom(fields, 0) == extra {
      ConcatParsed(extra, 0, fields, 0);
    }
  }

  // ---------------------------------------------------------------- ZIP64 sizes

  const ZIP64_EXTRA_ID: nat := 1
  const U16_SENTINEL: nat := 0xFFFF
  const U32_SENTINEL: nat := 0xFFFF_FFFF

  function PayloadOf(fields: seq<Field>, id: nat): Option<seq<Byte>> {
    if fields == [] then None
    else if fields[0].id == id then Some(fields[0].payload)
    else PayloadOf(fields[1..], id)
  }

  /** The 64-bit integers of a payload. */
  function Words(payload: seq<Byte>): seq<nat> {
    if |payload| < 8 then [] else [U64(payload, 0)] + Words(payload[8..])
  }

  /** Whether the local sizes agree with the central ones; true when they come from a ZIP64 field. */
  function LocalZip64Sizes(localCompressed: nat, localUncompressed: nat, compressed: nat, uncompressed: nat,
                           fields: seq<Field>): Result<bool, NpzError> {
    var zip64 := PayloadOf(fields, ZIP64_EXTRA_ID);
    var compressedOpen, uncompressedOpen := localCompressed == U32_SENTINEL, localUncompressed == U32_SENTINEL;
    if !compressedOpen && !uncompressedOpen then
      if zip64.Some? || localCompressed != compressed || localUncompressed != uncompressed then Err(Malformed)
      else Ok(false)
    else if zip64.None? then Err(Malformed)
    else if !uncompressedOpen && localUncompressed != uncompressed then Err(Malformed)
    else if !compressedOpen && localCompressed != compressed then Err(Malformed)
    else
      var expected := if uncompressedOpen && compressedOpen then [uncompressed, compressed]
                      else if uncompressedOpen then [uncompressed] else [compressed];
      if |zip64.value| != 8 * |expected| || Words(zip64.value) != expected then Err(Malformed) else Ok(true)
  }

  datatype Sizes = Sizes(uncompressed: nat, compressed: nat)

  /** The sizes a local header stands for: sentinels are replaced in order from a ZIP64 field of exactly that length. */
  function EffectiveSizes(localCompressed: nat, localUncompressed: nat, zip64: Option<seq<Byte>>): Option<Sizes> {
    var compressedOpen, uncompressedOpen := localCompressed == U32_SENTINEL, localUncompressed == U32_SENTINEL;
    var words := (if uncompressedOpen then 1 else 0) + (if compressedOpen then 1 else 0);
    if words == 0 then
      if zip64.Some? then None else Some(Sizes(localUncompressed, localCompressed))
    else if zip64.None? || |zip64.value| != 8 * words then None
    else if words == 2 then Some(Sizes(U64(zip64.value, 0), U64(zip64.value, 8)))
    else if uncompressedOpen then Some(Sizes(U64(zip64.value, 0), localCompressed))
    else Some(Sizes(localUncompressed, U64(zip64.value, 0)))
  }

  lemma TwoWords(payload: seq<Byte>)
    requires |payload| == 16
    ensures Words(payload) == [U64(payload, 0), U64(payload, 8)]
  {
    var rest := payload[8..];
    assert forall k :: 0 <= k < 8 ==> rest[k] == payload[8 + k];
    assert Words(rest) == [U64(rest, 0)] + Words(rest[8..]);
  }

  /** The check passes exactly when the sizes the local header stands for are the central ones. */
  lemma LocalSizesAgree(localCompressed: nat, localUncompressed: nat, compressed: nat, uncompressed: nat,
                        fields: seq<Field>)
    ensures LocalZip64Sizes(localCompressed, localUncompressed, compressed, uncompressed, fields).Ok?
       <==> EffectiveSizes(localCompressed, localUncompressed, PayloadOf(fields, ZIP64_EXTRA_ID))
            == Some(Sizes(uncompressed, compressed))
    ensures var r := LocalZip64Sizes(localCompressed, localUncompressed, compressed, uncompressed, fields);
      r.Ok? ==> r.value == PayloadOf(fields, ZIP64_EXTRA_ID).Some?
  {
    var zip64 := PayloadOf(fields, ZIP64_EXTRA_ID);
    if zip64.Some? && |zip64.value| == 8 {
      assert Words(zip64.value) == [U64(zip64.value, 0)];
      assert Words(zip64.value)[0] == U64(zip64.value, 0);
    } else if zip64.Some? && |zip64.value| == 16 {
      TwoWords(zip64.value);
      assert Words(zip64.value)[0] == U64(zip64.value, 0) && Words(zip64.value)[1] == U64(zip64.value, 8);
    }
  }
}
