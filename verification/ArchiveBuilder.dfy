/** Two-member archives written field by field, and what the preflight finds in them. */
module ArchiveBuilder {
  import opened Wrappers
  import opened Bytes
  import opened ZipFields
  import opened NpzPreflight

  /** A member to be written; with zip64, its local sizes go to a ZIP64 field. */
  datatype Part = Part(
    role: Role, suffixed: bool, flags: nat, compression: nat, attributes: nat, crc32: nat, uncompressed: nat,
    data: seq<Byte>, zip64: bool)

  predicate PartOk(p: Part) {
    && p.flags < 0x1_0000 && p.compression < 0x1_0000 && p.attributes < 0x1_0000_0000 && p.crc32 < 0x1_0000_0000
    && p.uncompressed < 0xFFFF_FFFF && |p.data| < 0xFFFF_FFFF
  }

  predicate Legal(p: Part) {
    KindAllowed(p.flags, p.compression, p.attributes)
  }

  function NameOf(p: Part): (name: seq<Byte>)
    ensures |name| == (if p.suffixed then 10 else 6)
  {
    match p.role
    case Source => if p.suffixed then Ascii("source.npy") else Ascii("source")
    case Target => if p.suffixed then Ascii("target.npy") else Ascii("target")
  }

  function LocalExtra(p: Part): (extra: seq<Byte>)
    requires PartOk(p)
    ensures |extra| == (if p.zip64 then 20 else 0)
  {
    if p.zip64 then Le16(1) + Le16(16) + (Le64(p.uncompressed) + Le64(|p.data|)) else []
  }

  /** Up to the checksum. */
  function LocalStart(p: Part): (head: seq<Byte>)
    requires PartOk(p)
    ensures |head| == 18
  {
    Ascii("PK") + [3, 4] + Le16(20) + Le16(p.flags) + Le16(p.compression) + Le16(0) + Le16(0) + Le32(p.crc32)
  }

  /** The two sizes and the two lengths. */
  function LocalSizes(p: Part): (head: seq<Byte>)
    requires PartOk(p)
    ensures |head| == 12
  {
    Le32(if p.zip64 then 0xFFFF_FFFF else |p.data|) + Le32(if p.zip64 then 0xFFFF_FFFF else p.uncompressed)
    + Le16(|NameOf(p)|) + Le16(|LocalExtra(p)|)
  }

  function Local(p: Part): (s: seq<Byte>)
    requires PartOk(p)
    ensures |s| == 30 + |NameOf(p)| + |LocalExtra(p)| + |p.data|
  {
    LocalStart(p) + LocalSizes(p) + NameOf(p) + LocalExtra(p) + p.data
  }

  /** Up to the checksum. */
  function CentralStart(p: Part): (head: seq<Byte>)
    requires PartOk(p)
    ensures |head| == 20
  {
    Ascii("PK") + [1, 2] + Le16(20) + Le16(20) + Le16(p.flags) + Le16(p.compression) + Le16(0) + Le16(0)
    + Le32(p.crc32)
  }

  /** The sizes, the lengths of name, extra field and comment, and the disk. */
  function CentralSizes(p: Part): (head: seq<Byte>)
    requires PartOk(p)
    ensures |head| == 16
  {
    Le32(|p.data|) + Le32(p.uncompressed) + Le16(|NameOf(p)|) + Le16(0) + Le16(0) + Le16(0)
  }

  function CentralPlace(p: Part, at: nat): (head: seq<Byte>)
    requires PartOk(p) && at < 0xFFFF_FFFF
    ensures |head| == 10
  {
    Le16(0) + Le32(p.attributes) + Le32(at)
  }

  function CentralRecord(p: Part, at: nat): (record: seq<Byte>)
    requires PartOk(p) && at < 0xFFFF_FFFF
    ensures |record| == 46 + |NameOf(p)|
  {
    CentralStart(p) + CentralSizes(p) + CentralPlace(p, at) + NameOf(p)
  }

  function EndRecord(size: nat, offset: nat, comment: seq<Byte>): (record: seq<Byte>)
    requires size < 0xFFFF_FFFF && offset < 0xFFFF_FFFF && |comment| < 0x1_0000
    ensures |record| == 22 + |comment|
  {
    Ascii("PK") + [5, 6] + Le16(0) + Le16(0) + Le16(2) + Le16(2) + Le32(size) + Le32(offset) + Le16(|comment|) + comment
  }

  // ---------------------------------------------------------------- the fields stand where they are read

  lemma Signature(last: seq<Byte>)
    ensures Ascii("PK") + last == [0x50, 0x4B] + last
  {
    assert Ascii("PK") == [0x50, 0x4B];
  }

  lemma LocalStartHolds(p: Part)
    requires PartOk(p)
    ensures var h := LocalStart(p);
      && At(h, 0, LOCAL_SIGNATURE) && At(h, 6, Le16(p.flags)) && At(h, 8, Le16(p.compression))
      && At(h, 14, Le32(p.crc32))
  {
    Signature([3, 4]);
  }

  lemma LocalSizesHold(p: Part)
    requires PartOk(p)
    ensures var h := LocalSizes(p);
      && At(h, 0, Le32(if p.zip64 then U32_SENTINEL else |p.data|))
      && At(h, 4, Le32(if p.zip64 then U32_SENTINEL else p.uncompressed))
      && At(h, 8, Le16(|NameOf(p)|)) && At(h, 10, Le16(|LocalExtra(p)|))
  {
  }

  lemma CentralStartHolds(p: Part)
    requires PartOk(p)
    ensures var h := CentralStart(p);
      && At(h, 0, CENTRAL_SIGNATURE) && At(h, 8, Le16(p.flags)) && At(h, 10, Le16(p.compression))
      && At(h, 16, Le32(p.crc32))
  {
    Signature([1, 2]);
  }

  lemma CentralSizesHold(p: Part)
    requires PartOk(p)
    ensures var h := CentralSizes(p);
      && At(h, 0, Le32(|p.data|)) && At(h, 4, Le32(p.uncompressed))
      && At(h, 8, Le16(|NameOf(p)|)) && At(h, 10, Le16(0)) && At(h, 12, Le16(0)) && At(h, 14, Le16(0))
  {
  }

  lemma CentralPlaceHolds(p: Part, at: nat)
    requires PartOk(p) && at < 0xFFFF_FFFF
    ensures var h := CentralPlace(p, at);
      && At(h, 0, Le16(0)) && At(h, 2, Le32(p.attributes)) && At(h, 6, Le32(at))
  {
  }

  lemma EndRecordHolds(size: nat, offset: nat, comment: seq<Byte>)
    requires size < 0xFFFF_FFFF && offset < 0xFFFF_FFFF && |comment| < 0x1_0000
    ensures var h := EndRecord(size, offset, comment);
      && At(h, 0, EOCD_SIGNATURE) && At(h, 4, Le16(0)) && At(h, 6, Le16(0)) && At(h, 8, Le16(2)) && At(h, 10, Le16(2))
      && At(h, 12, Le32(size)) && At(h, 16, Le32(offset)) && At(h, 20, Le16(|comment|))
  {
    Signature([5, 6]);
  }

  lemma NameRole(p: Part)
    ensures RoleOf(NameOf(p)) == Some(p.role)
  {
    assert Ascii("source") == SOURCE_NAME && Ascii("target") == TARGET_NAME;
    assert Ascii("source.npy") == SOURCE_NAME + NPY_SUFFIX && Ascii("target.npy") == TARGET_NAME + NPY_SUFFIX;
    assert Ascii("source")[0] == 0x73 && Ascii("source.npy")[0] == 0x73;
    assert Ascii("target")[0] == 0x74 && Ascii("target.npy")[0] == 0x74;
  }

  /** The signature, sixteen bytes of fields, the length of the comment, and the comment to the end of the archive. */
  ghost predicate EndsWith(raw: seq<Byte>, at: nat, fields: seq<Byte>, comment: seq<Byte>) {
    && at <= |raw| && |fields| == 16 && |comment| < 0x1_0000
    && raw[at..] == Ascii("PK") + [5, 6] + (fields + Le16(|comment|) + comment)
  }

  lemma TailPieces(tail: seq<Byte>, a: seq<Byte>, b: seq<Byte>, c: seq<Byte>, d: seq<Byte>)
    requires tail == a + (b + c + d)
    ensures At(tail, 0, a) && At(tail, |a|, b) && At(tail, |a| + |b|, c) && |tail| == |a| + |b| + |c| + |d|
  {
  }

  lemma SplitTail(raw: seq<Byte>, at: nat)
    requires IsEnd(raw, at)
    ensures EndsWith(raw, at, raw[at + 4..at + 20], raw[at + 22..])
  {
    Signature([5, 6]);
    var fields, comment := raw[at + 4..at + 20], raw[at + 22..];
    assert raw[at + 20..at + 22] == Le16(|comment|);
    assert raw[at..] == raw[at..at + 4] + (fields + raw[at + 20..at + 22] + comment);
  }

  lemma JoinTail(raw: seq<Byte>, at: nat, fields: seq<Byte>, comment: seq<Byte>)
    requires EndsWith(raw, at, fields, comment)
    ensures IsEnd(raw, at)
  {
    Signature([5, 6]);
    var tail := raw[at..];
    TailPieces(tail, EOCD_SIGNATURE, fields, Le16(|comment|), comment);
    assert At(raw, at, tail);
    AtWithin(raw, at, tail, 0, EOCD_SIGNATURE);
    AtWithin(raw, at, tail, 20, Le16(|comment|));
    ReadLe16(raw, at + 20, |comment|);
  }

  /** A candidate of the search is such a record, and nothing else is. */
  lemma EndIff(raw: seq<Byte>, at: nat)
    ensures IsEnd(raw, at) <==> exists fields, comment :: EndsWith(raw, at, fields, comment)
  {
    hide EndsWith;
    if IsEnd(raw, at) { SplitTail(raw, at); }
    if fields, comment :| EndsWith(raw, at, fields, comment) { JoinTail(raw, at, fields, comment); }
  }

  // ---------------------------------------------------------------- one member

  function CentralOf(p: Part, at: nat): Central {
    Central(p.role, NameOf(p), p.flags, p.compression, p.crc32, |p.data|, p.uncompressed, at)
  }

  /** The member the preflight should find for a part written at this offset. */
  function MemberOf(p: Part, at: nat): Member
    requires PartOk(p)
  {
    var start := at + 30 + |NameOf(p)| + |LocalExtra(p)|;
    Member(p.role, NameOf(p), p.flags, p.compression, p.crc32, |p.data|, p.uncompressed, at, start, start + |p.data|,
           p.zip64)
  }

  lemma LocalPieces(p: Part)
    requires PartOk(p)
    ensures var s, nameEnd := Local(p), 30 + |NameOf(p)|;
      && At(s, 0, LocalStart(p)) && At(s, 18, LocalSizes(p)) && At(s, 30, NameOf(p))
      && At(s, nameEnd, LocalExtra(p)) && At(s, nameEnd + |LocalExtra(p)|, p.data)
      && |s| == nameEnd + |LocalExtra(p)| + |p.data|
  {
  }

  /** The fields of the local header, read where the archive holds it. */
  lemma LocalFields(raw: seq<Byte>, at: nat, p: Part)
    requires PartOk(p) && At(raw, at, LocalStart(p)) && At(raw, at + 18, LocalSizes(p))
    ensures At(raw, at, LOCAL_SIGNATURE) && U16(raw, at + 6) == p.flags && U16(raw, at + 8) == p.compression
    ensures U32(raw, at + 14) == p.crc32
    ensures U32(raw, at + 18) == (if p.zip64 then U32_SENTINEL else |p.data|)
    ensures U32(raw, at + 22) == (if p.zip64 then U32_SENTINEL else p.uncompressed)
    ensures U16(raw, at + 26) == |NameOf(p)| && U16(raw, at + 28) == |LocalExtra(p)|
  {
    hide NameOf, LocalStart, LocalSizes, LocalExtra;
    LocalStartHolds(p);
    LocalSizesHold(p);
    var start, sizes := LocalStart(p), LocalSizes(p);
    AtWithin(raw, at, start, 0, LOCAL_SIGNATURE);
    Within16(raw, at, start, 6, p.flags);
    Within16(raw, at, start, 8, p.compression);
    Within32(raw, at, start, 14, p.crc32);
    Within32(raw, at + 18, sizes, 0, if p.zip64 then U32_SENTINEL else |p.data|);
    Within32(raw, at + 18, sizes, 4, if p.zip64 then U32_SENTINEL else p.uncompressed);
    Within16(raw, at + 18, sizes, 8, |NameOf(p)|);
    Within16(raw, at + 18, sizes, 10, |LocalExtra(p)|);
  }

  lemma Within16(raw: seq<Byte>, at: nat, head: seq<Byte>, k: nat, n: nat)
    requires n < 0x1_0000 && At(raw, at, head) && At(head, k, Le16(n))
    ensures U16(raw, at + k) == n
  {
    AtWithin(raw, at, head, k, Le16(n));
    ReadLe16(raw, at + k, n);
  }

  lemma Within32(raw: seq<Byte>, at: nat, head: seq<Byte>, k: nat, n: nat)
    requires n < 0x1_0000_0000 && At(raw, at, head) && At(head, k, Le32(n))
    ensures U32(raw, at + k) == n
  {
    AtWithin(raw, at, head, k, Le32(n));
    ReadLe32(raw, at + k, n);
  }

  lemma NoFields()
    ensures ExtraFields([]) == Ok([]) && !HasId([], ZIP64_EXTRA_ID) && PayloadOf([], ZIP64_EXTRA_ID) == None
  {
  }

  /** The extra field of a local header parses, and it makes the header stand for the written sizes. */
  lemma ExtraStands(p: Part)
    requires PartOk(p)
    ensures ExtraFields(LocalExtra(p)).Ok?
    ensures var zip64 := PayloadOf(ExtraFields(LocalExtra(p)).value, ZIP64_EXTRA_ID);
      && zip64.Some? == p.zip64
      && EffectiveSizes(if p.zip64 then U32_SENTINEL else |p.data|, if p.zip64 then U32_SENTINEL else p.uncompressed,
                        zip64) == Some(Sizes(p.uncompressed, |p.data|))
  {
    if p.zip64 {
      var uncompressed, compressed := Le64(p.uncompressed), Le64(|p.data|);
      var payload := uncompressed + compressed;
      var fields := [Field(1, payload)];
      assert ConcatFrom(fields, 1) == [];
      assert FieldBytes(fields[0]) == LocalExtra(p);
      assert ConcatFrom(fields, 0) == LocalExtra(p);
      ExtraFieldsIff(LocalExtra(p), fields);
      assert forall i :: 0 <= i < 8 ==> payload[i] == uncompressed[i] && payload[8 + i] == compressed[i];
      assert U64(payload, 0) == U64(uncompressed, 0) && U64(payload, 8) == U64(compressed, 0);
    } else {
      NoFields();
    }
  }

  /** The local header of a written part agrees with its central record, and its data stand between the two offsets. */
  lemma PartAgrees(raw: seq<Byte>, centralOffset: nat, p: Part, at: nat)
    requires PartOk(p) && At(raw, at, Local(p)) && at + |Local(p)| <= centralOffset <= |raw|
    ensures LocalAgrees(raw, centralOffset, CentralOf(p, at), MemberOf(p, at))
    ensures raw[MemberOf(p, at).dataOffset..MemberOf(p, at).dataEnd] == p.data
  {
    hide NameOf, LocalStart, LocalSizes, LocalExtra, Local, ExtraFields, PayloadOf, EffectiveSizes, U16, U32;
    LocalPieces(p);
    var name, extra := NameOf(p), LocalExtra(p);
    AtWithin(raw, at, Local(p), 0, LocalStart(p));
    AtWithin(raw, at, Local(p), 18, LocalSizes(p));
    AtWithin(raw, at, Local(p), 30, name);
    AtWithin(raw, at, Local(p), 30 + |name|, extra);
    AtWithin(raw, at, Local(p), 30 + |name| + |extra|, p.data);
    LocalFields(raw, at, p);
    ExtraStands(p);
  }

  lemma RecordPieces(p: Part, at: nat)
    requires PartOk(p) && at < 0xFFFF_FFFF
    ensures var s := CentralRecord(p, at);
      At(s, 0, CentralStart(p)) && At(s, 20, CentralSizes(p)) && At(s, 36, CentralPlace(p, at)) && At(s, 46, NameOf(p))
  {
    hide CentralStart, CentralSizes, CentralPlace, NameOf;
  }

  /** The fields of a central record, read where the archive holds it. */
  lemma CentralFields(raw: seq<Byte>, pos: nat, p: Part, at: nat)
    requires PartOk(p) && at < 0xFFFF_FFFF && At(raw, pos, CentralStart(p)) && At(raw, pos + 20, CentralSizes(p))
    requires At(raw, pos + 36, CentralPlace(p, at))
    ensures At(raw, pos, CENTRAL_SIGNATURE) && U16(raw, pos + 8) == p.flags && U16(raw, pos + 10) == p.compression
    ensures U32(raw, pos + 16) == p.crc32 && U32(raw, pos + 20) == |p.data| && U32(raw, pos + 24) == p.uncompressed
    ensures U16(raw, pos + 28) == |NameOf(p)| && U16(raw, pos + 30) == 0 && U16(raw, pos + 32) == 0
    ensures U16(raw, pos + 34) == 0 && U16(raw, pos + 36) == 0
    ensures U32(raw, pos + 38) == p.attributes && U32(raw, pos + 42) == at
  {
    hide NameOf, CentralStart, CentralSizes, CentralPlace;
    CentralStartHolds(p);
    CentralSizesHold(p);
    CentralPlaceHolds(p, at);
    var start, sizes, place := CentralStart(p), CentralSizes(p), CentralPlace(p, at);
    AtWithin(raw, pos, start, 0, CENTRAL_SIGNATURE);
    Within16(raw, pos, start, 8, p.flags);
    Within16(raw, pos, start, 10, p.compression);
    Within32(raw, pos, start, 16, p.crc32);
    Within32(raw, pos + 20, sizes, 0, |p.data|);
    Within32(raw, pos + 20, sizes, 4, p.uncompressed);
    Within16(raw, pos + 20, sizes, 8, |NameOf(p)|);
    Within16(raw, pos + 20, sizes, 10, 0);
    Within16(raw, pos + 20, sizes, 12, 0);
    Within16(raw, pos + 20, sizes, 14, 0);
    Within16(raw, pos + 36, place, 0, 0);
    Within32(raw, pos + 36, place, 2, p.attributes);
    Within32(raw, pos + 36, place, 6, at);
  }

  /** A written central record describes its part, and is no ZIP64 locator 20 bytes before its end. */
  lemma PartDescribed(raw: seq<Byte>, pos: nat, p: Part, at: nat)
    requires PartOk(p) && Legal(p) && at < 0xFFFF_FFFF && At(raw, pos, CentralRecord(p, at))
    ensures Describes(raw, pos, CentralOf(p, at), pos + 46 + |NameOf(p)|)
    ensures !At(raw, pos + 26 + |NameOf(p)|, ZIP64_LOCATOR_SIGNATURE)
  {
    hide NameOf, CentralStart, CentralSizes, CentralPlace, CentralRecord, KindAllowed, RoleOf, U32;
    RecordPieces(p, at);
    AtWithin(raw, pos, CentralRecord(p, at), 0, CentralStart(p));
    AtWithin(raw, pos, CentralRecord(p, at), 20, CentralSizes(p));
    AtWithin(raw, pos, CentralRecord(p, at), 36, CentralPlace(p, at));
    AtWithin(raw, pos, CentralRecord(p, at), 46, NameOf(p));
    CentralFields(raw, pos, p, at);
    NameRole(p);
    NoFields();
    assert raw[pos + 46 + |NameOf(p)|..pos + 46 + |NameOf(p)| + 0] == [];
    if At(raw, pos + 26 + |NameOf(p)|, ZIP64_LOCATOR_SIGNATURE) {
      ByteAt(raw, pos + 26 + |NameOf(p)|, ZIP64_LOCATOR_SIGNATURE, 0);
    }
  }

  // ---------------------------------------------------------------- the whole archive

  /** What precedes the members, the two members in the order they are written, and the comment. */
  datatype Contents = Contents(before: seq<Byte>, x: Part, y: Part, comment: seq<Byte>)

  predicate Writable(w: Contents) {
    && PartOk(w.x) && PartOk(w.y) && w.x.role != w.y.role
    && |w.before| + |Local(w.x)| + |Local(w.y)| < 0xFFFF_FFFF && |w.comment| < 0x1_0000
  }

  function DirectorySize(w: Contents): (size: nat)
    ensures size <= 112
  {
    92 + |NameOf(w.x)| + |NameOf(w.y)|
  }

  function DirectoryAt(w: Contents): nat
    requires Writable(w)
  {
    |w.before| + |Local(w.x)| + |Local(w.y)|
  }

  /** Both members, both central records and the end record, one after the other. */
  function Built(w: Contents): seq<Byte>
    requires Writable(w)
  {
    var first, second := CentralRecord(w.x, |w.before|), CentralRecord(w.y, |w.before| + |Local(w.x)|);
    w.before + Local(w.x) + Local(w.y) + first + second + EndRecord(DirectorySize(w), DirectoryAt(w), w.comment)
  }

  /** What the preflight should return. */
  function BuiltArchive(w: Contents): Archive
    requires Writable(w)
  {
    var mx, my := MemberOf(w.x, |w.before|), MemberOf(w.y, |w.before| + |Local(w.x)|);
    Archive(DirectoryAt(w) + DirectorySize(w), DirectoryAt(w), DirectorySize(w),
            if w.x.role.Source? then mx else my, if w.x.role.Source? then my else mx)
  }

  /** The piece stands at the position, byte by byte. */
  ghost predicate Holds(raw: seq<Byte>, at: nat, piece: seq<Byte>) {
    at + |piece| <= |raw| && forall i {:trigger piece[i]} :: 0 <= i < |piece| ==> raw[at + i] == piece[i]
  }

  lemma HoldsAt(raw: seq<Byte>, at: nat, piece: seq<Byte>)
    requires Holds(raw, at, piece)
    ensures At(raw, at, piece)
  {
  }

  lemma PiecesHeld(z: seq<Byte>, a: seq<Byte>, b: seq<Byte>, c: seq<Byte>, d: seq<Byte>, e: seq<Byte>)
    ensures var s := z + a + b + c + d + e;
      && Holds(s, |z|, a) && Holds(s, |z| + |a|, b) && Holds(s, |z| + |a| + |b|, c)
      && Holds(s, |z| + |a| + |b| + |c|, d) && Holds(s, |z| + |a| + |b| + |c| + |d|, e)
      && |s| == |z| + |a| + |b| + |c| + |d| + |e|
  {
  }

  /** Where the two members stand. */
  ghost predicate MembersPlaced(raw: seq<Byte>, w: Contents)
    requires Writable(w)
  {
    Holds(raw, |w.before|, Local(w.x)) && Holds(raw, |w.before| + |Local(w.x)|, Local(w.y))
  }

  /** Where the two central records stand. */
  ghost predicate RecordsPlaced(raw: seq<Byte>, w: Contents)
    requires Writable(w)
  {
    && Holds(raw, DirectoryAt(w), CentralRecord(w.x, |w.before|))
    && Holds(raw, DirectoryAt(w) + 46 + |NameOf(w.x)|, CentralRecord(w.y, |w.before| + |Local(w.x)|))
  }

  /** Where the end record stands, with the comment to the end of the archive. */
  ghost predicate EndPlaced(raw: seq<Byte>, w: Contents)
    requires Writable(w)
  {
    var size, offset := DirectorySize(w), DirectoryAt(w);
    Holds(raw, offset + size, EndRecord(size, offset, w.comment)) && |raw| == offset + size + 22 + |w.comment|
  }

  lemma BuiltMembers(w: Contents)
    requires Writable(w)
    ensures MembersPlaced(Built(w), w) && EndPlaced(Built(w), w)
  {
    hide Local, CentralRecord, EndRecord, NameOf, Holds, PartOk;
    PiecesHeld(w.before, Local(w.x), Local(w.y), CentralRecord(w.x, |w.before|),
               CentralRecord(w.y, |w.before| + |Local(w.x)|),
               EndRecord(DirectorySize(w), DirectoryAt(w), w.comment));
  }

  lemma BuiltRecords(w: Contents)
    requires Writable(w)
    ensures RecordsPlaced(Built(w), w)
  {
    hide Local, CentralRecord, EndRecord, NameOf, Holds, PartOk;
    PiecesHeld(w.before, Local(w.x), Local(w.y), CentralRecord(w.x, |w.before|),
               CentralRecord(w.y, |w.before| + |Local(w.x)|),
               EndRecord(DirectorySize(w), DirectoryAt(w), w.comment));
  }

  lemma EndFields(raw: seq<Byte>, eocd: nat, size: nat, offset: nat, comment: seq<Byte>)
    requires size < 0xFFFF_FFFF && offset < 0xFFFF_FFFF && |comment| < 0x1_0000
    requires At(raw, eocd, EndRecord(size, offset, comment)) && |raw| == eocd + 22 + |comment|
    requires offset + size == eocd && size <= DIRECTORY_LIMIT
    requires !(eocd >= 20 && At(raw, eocd - 20, ZIP64_LOCATOR_SIGNATURE))
    ensures EndPlaces(raw, eocd, offset, size) && IsEnd(raw, eocd)
  {
    EndRecordHolds(size, offset, comment);
    var h := EndRecord(size, offset, comment);
    AtWithin(raw, eocd, h, 0, EOCD_SIGNATURE);
    Within16(raw, eocd, h, 4, 0);
    Within16(raw, eocd, h, 6, 0);
    Within16(raw, eocd, h, 8, 2);
    Within16(raw, eocd, h, 10, 2);
    Within32(raw, eocd, h, 12, size);
    Within32(raw, eocd, h, 16, offset);
    Within16(raw, eocd, h, 20, |comment|);
  }

  lemma LocalHeld(raw: seq<Byte>, centralOffset: nat, p: Part, at: nat)
    requires PartOk(p) && Holds(raw, at, Local(p)) && at + |Local(p)| <= centralOffset <= |raw|
    ensures LocalAgrees(raw, centralOffset, CentralOf(p, at), MemberOf(p, at))
    ensures raw[MemberOf(p, at).dataOffset..MemberOf(p, at).dataEnd] == p.data
  {
    HoldsAt(raw, at, Local(p));
    PartAgrees(raw, centralOffset, p, at);
  }

  lemma RecordHeld(raw: seq<Byte>, pos: nat, p: Part, at: nat)
    requires PartOk(p) && Legal(p) && at < 0xFFFF_FFFF && Holds(raw, pos, CentralRecord(p, at))
    ensures Describes(raw, pos, CentralOf(p, at), pos + 46 + |NameOf(p)|)
    ensures !At(raw, pos + 26 + |NameOf(p)|, ZIP64_LOCATOR_SIGNATURE)
  {
    HoldsAt(raw, pos, CentralRecord(p, at));
    PartDescribed(raw, pos, p, at);
  }

  lemma EndHeld(raw: seq<Byte>, eocd: nat, size: nat, offset: nat, comment: seq<Byte>)
    requires size < 0xFFFF_FFFF && offset < 0xFFFF_FFFF && |comment| < 0x1_0000
    requires Holds(raw, eocd, EndRecord(size, offset, comment)) && |raw| == eocd + 22 + |comment|
    requires offset + size == eocd && size <= DIRECTORY_LIMIT
    requires eocd >= 20 && !At(raw, eocd - 20, ZIP64_LOCATOR_SIGNATURE)
    ensures EndPlaces(raw, eocd, offset, size) && IsEnd(raw, eocd)
  {
    HoldsAt(raw, eocd, EndRecord(size, offset, comment));
    EndFields(raw, eocd, size, offset, comment);
  }

  /** Both members as their headers are read back. */
  ghost predicate MembersFound(raw: seq<Byte>, w: Contents)
    requires Writable(w)
  {
    var first, second := |w.before|, |w.before| + |Local(w.x)|;
    && LocalAgrees(raw, DirectoryAt(w), CentralOf(w.x, first), MemberOf(w.x, first))
    && LocalAgrees(raw, DirectoryAt(w), CentralOf(w.y, second), MemberOf(w.y, second))
  }

  /** The directory as it is read back. */
  ghost predicate DirectoryFound(raw: seq<Byte>, w: Contents)
    requires Writable(w)
  {
    var offset, end := DirectoryAt(w), DirectoryAt(w) + DirectorySize(w);
    var middle := offset + 46 + |NameOf(w.x)|;
    && Describes(raw, offset, CentralOf(w.x, |w.before|), middle)
    && Describes(raw, middle, CentralOf(w.y, |w.before| + |Local(w.x)|), end)
    && end >= 20 && !At(raw, end - 20, ZIP64_LOCATOR_SIGNATURE)
  }

  /** Each data range holds the bytes that were written. */
  ghost predicate DataFound(raw: seq<Byte>, w: Contents)
    requires Writable(w)
  {
    var x, y := MemberOf(w.x, |w.before|), MemberOf(w.y, |w.before| + |Local(w.x)|);
    && x.dataEnd <= |raw| && raw[x.dataOffset..x.dataEnd] == w.x.data
    && y.dataEnd <= |raw| && raw[y.dataOffset..y.dataEnd] == w.y.data
  }

  lemma FindMembers(raw: seq<Byte>, w: Contents)
    requires Writable(w) && MembersPlaced(raw, w) && DirectoryAt(w) <= |raw|
    ensures MembersFound(raw, w) && DataFound(raw, w)
  {
    hide Local, NameOf, LocalAgrees, Holds;
    LocalHeld(raw, DirectoryAt(w), w.x, |w.before|);
    LocalHeld(raw, DirectoryAt(w), w.y, |w.before| + |Local(w.x)|);
  }

  lemma FindRecords(raw: seq<Byte>, w: Contents)
    requires Writable(w) && Legal(w.x) && Legal(w.y) && RecordsPlaced(raw, w)
    ensures DirectoryFound(raw, w)
  {
    hide Local, CentralRecord, NameOf, KindAllowed, Describes, Holds;
    RecordHeld(raw, DirectoryAt(w), w.x, |w.before|);
    RecordHeld(raw, DirectoryAt(w) + 46 + |NameOf(w.x)|, w.y, |w.before| + |Local(w.x)|);
  }

  lemma FoundRead(raw: seq<Byte>, w: Contents)
    requires Writable(w) && MembersFound(raw, w) && DirectoryFound(raw, w) && BuiltArchive(w).eocd + 22 <= |raw|
    requires var a := BuiltArchive(w); EndPlaces(raw, a.eocd, a.centralOffset, a.centralSize)
    ensures ReadDirectory(raw, BuiltArchive(w).eocd) == Ok(BuiltArchive(w))
  {
    hide Local, CentralRecord, NameOf, Describes, LocalAgrees, EndPlaces, ReadDirectory, KindAllowed;
    var a, first, second := BuiltArchive(w), |w.before|, |w.before| + |Local(w.x)|;
    RecordsAccepted(raw, a, CentralOf(w.x, first), CentralOf(w.y, second), a.centralOffset + 46 + |NameOf(w.x)|,
                    MemberOf(w.x, first), MemberOf(w.y, second));
  }

  /**
   * Whatever two members are written, in either order, with or without ZIP64 sizes: the preflight finds exactly
   * their offsets, sizes and checksums, and each range holds what was written.
   */
  lemma BuiltRead(w: Contents)
    requires Writable(w) && Legal(w.x) && Legal(w.y)
    ensures var raw, a := Built(w), BuiltArchive(w);
      IsEnd(raw, a.eocd) && ReadDirectory(raw, a.eocd) == Ok(a) && DataFound(raw, w)
  {
    hide Local, CentralRecord, EndRecord, NameOf, Built, Holds, MembersPlaced, RecordsPlaced, KindAllowed;
    hide ReadDirectory, DataFound, MembersFound, EndPlaces;
    var raw, a := Built(w), BuiltArchive(w);
    BuiltMembers(w);
    BuiltRecords(w);
    FindMembers(raw, w);
    FindRecords(raw, w);
    EndHeld(raw, a.eocd, a.centralSize, a.centralOffset, w.comment);
    FoundRead(raw, w);
  }
}
