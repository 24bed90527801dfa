/** The metadata checks an NPZ archive passes before any member is extracted. */
module NpzPreflight {
  import opened Wrappers
  import opened Bytes
  import opened ZipFields

  const CENTRAL_SIGNATURE: seq<Byte> := [0x50, 0x4B, 0x01, 0x02]
  const LOCAL_SIGNATURE: seq<Byte> := [0x50, 0x4B, 0x03, 0x04]
  const ZIP64_LOCATOR_SIGNATURE: seq<Byte> := [0x50, 0x4B, 0x06, 0x07]
  const CENTRAL_SIZE: nat := 46
  const LOCAL_SIZE: nat := 30
  const DIRECTORY_LIMIT: nat := 16_384

  datatype Role = Source | Target

  const SOURCE_NAME: seq<Byte> := [0x73, 0x6F, 0x75, 0x72, 0x63, 0x65]
  const TARGET_NAME: seq<Byte> := [0x74, 0x61, 0x72, 0x67, 0x65, 0x74]
  const NPY_SUFFIX: seq<Byte> := [0x2E, 0x6E, 0x70, 0x79]

  function RoleOf(name: seq<Byte>): Option<Role> {
    if name == SOURCE_NAME || name == SOURCE_NAME + NPY_SUFFIX then Some(Source)
    else if name == TARGET_NAME || name == TARGET_NAME + NPY_SUFFIX then Some(Target)
    else None
  }

  datatype Member = Member(
    role: Role, name: seq<Byte>, flags: nat, compression: nat, crc32: nat, compressed: nat, uncompressed: nat,
    localOffset: nat, dataOffset: nat, dataEnd: nat, zip64: bool)

  datatype Archive = Archive(eocd: nat, centralOffset: nat, centralSize: nat, source: Member, target: Member)

  // ---------------------------------------------------------------- the end record

  /** The end record places a two-entry directory right before itself, on one disk and without ZIP64. */
  predicate EndPlaces(raw: seq<Byte>, eocd: nat, centralOffset: nat, centralSize: nat)
    requires eocd + EOCD_SIZE <= |raw|
  {
    && U16(raw, eocd + 4) == 0 && U16(raw, eocd + 6) == 0
    && U16(raw, eocd + 8) == 2 && U16(raw, eocd + 10) == 2
    && U32(raw, eocd + 12) == centralSize != U32_SENTINEL
    && U32(raw, eocd + 16) == centralOffset != U32_SENTINEL
    && centralOffset + centralSize == eocd && centralSize <= 16_384
    && !(eocd >= 20 && At(raw, eocd - 20, [0x50, 0x4B, 0x06, 0x07]))
  }

  datatype Directory = Directory(offset: nat, size: nat)

  function ReadEnd(raw: seq<Byte>, eocd: nat): (r: Result<Directory, NpzError>)
    requires eocd + EOCD_SIZE <= |raw|
    ensures r.Ok? ==> EndPlaces(raw, eocd, r.value.offset, r.value.size)
    ensures r.Err? ==> forall offset, size :: !EndPlaces(raw, eocd, offset, size)
  {
    var disk, centralDisk := U16(raw, eocd + 4), U16(raw, eocd + 6);
    var diskEntries, entries := U16(raw, eocd + 8), U16(raw, eocd + 10);
    var size, offset := U32(raw, eocd + 12), U32(raw, eocd + 16);
    if diskEntries == U16_SENTINEL || entries == U16_SENTINEL || size == U32_SENTINEL || offset == U32_SENTINEL
    then Err(Malformed)
    else if disk != 0 || centralDisk != 0 then Err(Malformed)
    else if diskEntries != 2 || entries != 2 then Err(WrongKeys)
    else if eocd >= 20 && At(raw, eocd - 20, ZIP64_LOCATOR_SIGNATURE) then Err(Malformed)
    else if offset + size != eocd then Err(Malformed)
    else if size > DIRECTORY_LIMIT then Err(DirectoryLimit(size))
    else Ok(Directory(offset, size))
  }

  // ---------------------------------------------------------------- central records

  /** One bit of a field; the mask is a power of two. */
  predicate HasBit(field: nat, mask: nat)
    requires mask > 0
  {
    field / mask % 2 == 1
  }

  /** Neither encrypted, streamed, strongly encrypted nor masked; stored or deflated; no directory. */
  predicate KindAllowed(flags: nat, compression: nat, attributes: nat) {
    && !HasBit(flags, 0x1) && !HasBit(flags, 0x8) && !HasBit(flags, 0x40) && !HasBit(flags, 0x2000)
    && (compression == 0 || compression == 8)
    && !HasBit(attributes, 0x10) && attributes / 0x1000_0000 % 16 != 4
  }

  datatype Central = Central(
    role: Role, name: seq<Byte>, flags: nat, compression: nat, crc32: nat, compressed: nat, uncompressed: nat,
    localOffset: nat)

  function RecordEnd(raw: seq<Byte>, at: nat): nat
    requires at + CENTRAL_SIZE <= |raw|
  {
    at + CENTRAL_SIZE + U16(raw, at + 28) + U16(raw, at + 30) + U16(raw, at + 32)
  }

  /** The bytes from at to next are one central record, and it describes c. */
  predicate Describes(raw: seq<Byte>, at: nat, c: Central, next: nat) {
    && at + CENTRAL_SIZE <= |raw| && At(raw, at, CENTRAL_SIGNATURE) && next == RecordEnd(raw, at) <= |raw|
    && c.flags == U16(raw, at + 8) && c.compression == U16(raw, at + 10) && c.crc32 == U32(raw, at + 16)
    && c.compressed == U32(raw, at + 20) != U32_SENTINEL && c.uncompressed == U32(raw, at + 24) != U32_SENTINEL
    && c.localOffset == U32(raw, at + 42) != U32_SENTINEL && U16(raw, at + 34) == 0
    && KindAllowed(c.flags, c.compression, U32(raw, at + 38))
    && var nameEnd := at + CENTRAL_SIZE + U16(raw, at + 28);
       && c.name == raw[at + CENTRAL_SIZE..nameEnd] && RoleOf(c.name) == Some(c.role)
       && var fields := ExtraFields(raw[nameEnd..nameEnd + U16(raw, at + 30)]);
          fields.Ok? && !HasId(fields.value, ZIP64_EXTRA_ID)
  }

  datatype Entry = Entry(central: Central, next: nat)

  function ReadCentral(raw: seq<Byte>, eocd: nat, cursor: nat): (r: Result<Entry, NpzError>)
    requires eocd <= |raw|
    ensures r.Ok? ==> Describes(raw, cursor, r.value.central, r.value.next) && r.value.next <= eocd
    ensures r.Err? ==> forall c, next: nat :: next <= eocd ==> !Describes(raw, cursor, c, next)
  {
    if cursor + CENTRAL_SIZE > eocd then Err(Malformed)
    else if !At(raw, cursor, CENTRAL_SIGNATURE) then Err(Malformed)
    else
      var flags, compression, crc32 := U16(raw, cursor + 8), U16(raw, cursor + 10), U32(raw, cursor + 16);
      var compressed, uncompressed := U32(raw, cursor + 20), U32(raw, cursor + 24);
      var localOffset := U32(raw, cursor + 42);
      if !KindAllowed(flags, compression, U32(raw, cursor + 38)) then Err(Malformed)
      else if compressed == U32_SENTINEL || uncompressed == U32_SENTINEL || localOffset == U32_SENTINEL
              || U16(raw, cursor + 34) != 0
      then Err(Malformed)
      else
        var nameEnd := cursor + CENTRAL_SIZE + U16(raw, cursor + 28);
        var extraEnd := nameEnd + U16(raw, cursor + 30);
        if RecordEnd(raw, cursor) > eocd then Err(Malformed)
        else
          var name := raw[cursor + CENTRAL_SIZE..nameEnd];
          var fields := ExtraFields(raw[nameEnd..extraEnd]);
          if fields.Err? || HasId(fields.value, ZIP64_EXTRA_ID) || RoleOf(name).None? then Err(Malformed)
          else
            Ok(Entry(Central(RoleOf(name).value, name, flags, compression, crc32, compressed, uncompressed,
                             localOffset), RecordEnd(raw, cursor)))
  }

  // ---------------------------------------------------------------- local headers

  /** The local header repeats what the central record says, and the data lie between it and the directory. */
  predicate LocalAgrees(raw: seq<Byte>, centralOffset: nat, c: Central, m: Member) {
    && m.role == c.role && m.name == c.name && m.flags == c.flags && m.compression == c.compression
    && m.crc32 == c.crc32 && m.compressed == c.compressed && m.uncompressed == c.uncompressed
    && m.localOffset == c.localOffset
    && var at := m.localOffset;
       && at + LOCAL_SIZE <= centralOffset <= |raw| && At(raw, at, LOCAL_SIGNATURE)
       && U16(raw, at + 6) == m.flags && U16(raw, at + 8) == m.compression && U32(raw, at + 14) == m.crc32
       && var nameEnd := at + LOCAL_SIZE + U16(raw, at + 26);
          && m.dataOffset == nameEnd + U16(raw, at + 28) && m.dataEnd == m.dataOffset + m.compressed <= centralOffset
          && raw[at + LOCAL_SIZE..nameEnd] == m.name
          && var fields := ExtraFields(raw[nameEnd..m.dataOffset]);
             && fields.Ok?
             && m.zip64 == PayloadOf(fields.value, ZIP64_EXTRA_ID).Some?
             && EffectiveSizes(U32(raw, at + 18), U32(raw, at + 22), PayloadOf(fields.value, ZIP64_EXTRA_ID))
                == Some(Sizes(m.uncompressed, m.compressed))
  }

  function ParseLocalMember(raw: seq<Byte>, centralOffset: nat, c: Central): Result<Member, NpzError>
    requires centralOffset <= |raw|
  {
    var at := c.localOffset;
    if at + LOCAL_SIZE > centralOffset then Err(Malformed)
    else if !At(raw, at, LOCAL_SIGNATURE) then Err(Malformed)
    else
      var nameEnd := at + LOCAL_SIZE + U16(raw, at + 26);
      var dataOffset := nameEnd + U16(raw, at + 28);
      if dataOffset > centralOffset then Err(Malformed)
      else
        var fields :- ExtraFields(raw[nameEnd..dataOffset]);
        if raw[at + LOCAL_SIZE..nameEnd] != c.name || U16(raw, at + 6) != c.flags
           || U16(raw, at + 8) != c.compression || U32(raw, at + 14) != c.crc32
        then Err(Malformed)
        else
          var zip64 :- LocalZip64Sizes(U32(raw, at + 18), U32(raw, at + 22), c.compressed, c.uncompressed, fields);
          if dataOffset + c.compressed > centralOffset then Err(Malformed)
          else
            Ok(Member(c.role, c.name, c.flags, c.compression, c.crc32, c.compressed, c.uncompressed, at,
                      dataOffset, dataOffset + c.compressed, zip64))
  }

  lemma ParsedAgrees(raw: seq<Byte>, centralOffset: nat, c: Central, m: Member)
    requires centralOffset <= |raw| && ParseLocalMember(raw, centralOffset, c) == Ok(m)
    ensures LocalAgrees(raw, centralOffset, c, m)
  {
    var at := c.localOffset;
    var fields := ExtraFields(raw[at + LOCAL_SIZE + U16(raw, at + 26)..m.dataOffset]).value;
    LocalSizesAgree(U32(raw, at + 18), U32(raw, at + 22), c.compressed, c.uncompressed, fields);
  }

  lemma AgreesParsed(raw: seq<Byte>, centralOffset: nat, c: Central, m: Member)
    requires LocalAgrees(raw, centralOffset, c, m)
    ensures ParseLocalMember(raw, centralOffset, c) == Ok(m)
  {
    hide ExtraFields, PayloadOf, EffectiveSizes, LocalZip64Sizes, U16, U32;
    var at := c.localOffset;
    var fields := ExtraFields(raw[at + LOCAL_SIZE + U16(raw, at + 26)..m.dataOffset]).value;
    LocalSizesAgree(U32(raw, at + 18), U32(raw, at + 22), c.compressed, c.uncompressed, fields);
  }

  /** A local header is accepted exactly when it agrees with its central record. */
  lemma ParseLocalMemberIff(raw: seq<Byte>, centralOffset: nat, c: Central, m: Member)
    requires centralOffset <= |raw|
    ensures ParseLocalMember(raw, centralOffset, c) == Ok(m) <==> LocalAgrees(raw, centralOffset, c, m)
  {
    if ParseLocalMember(raw, centralOffset, c) == Ok(m) {
      ParsedAgrees(raw, centralOffset, c, m);
    } else if LocalAgrees(raw, centralOffset, c, m) {
      AgreesParsed(raw, centralOffset, c, m);
    }
  }

  // ---------------------------------------------------------------- the whole archive

  /** The members seen so far and the end of the last central record. */
  datatype Progress = Progress(members: seq<Member>, roles: set<Role>, cursor: nat)

  function ReadRecord(raw: seq<Byte>, eocd: nat, centralOffset: nat, p: Progress): (r: Result<Progress, NpzError>)
    requires centralOffset <= eocd <= |raw|
    ensures r.Ok? ==> |r.value.members| == |p.members| + 1
  {
    var entry :- ReadCentral(raw, eocd, p.cursor);
    if entry.central.role in p.roles then Err(WrongKeys)
    else
      var member :- ParseLocalMember(raw, centralOffset, entry.central);
      Ok(Progress(p.members + [member], p.roles + {entry.central.role}, entry.next))
  }

  function ReadRecords(raw: seq<Byte>, eocd: nat, centralOffset: nat, left: nat, p: Progress)
      : (r: Result<Progress, NpzError>)
    requires centralOffset <= eocd <= |raw|
    ensures r.Ok? ==> |r.value.members| == |p.members| + left
  {
    if left == 0 then Ok(p)
    else
      match ReadRecord(raw, eocd, centralOffset, p)
      case Err(e) => Err(e)
      case Ok(next) => ReadRecords(raw, eocd, centralOffset, left - 1, next)
  }

  /** The two ranges in the order of their offsets do not overlap, and stay below the directory. */
  predicate RangesApart(x: Member, y: Member, centralOffset: nat) {
    var xFirst := x.localOffset < y.localOffset || (x.localOffset == y.localOffset && x.dataEnd <= y.dataEnd);
    && (if xFirst then x.dataEnd <= y.localOffset else y.dataEnd <= x.localOffset)
    && x.dataEnd <= centralOffset && y.dataEnd <= centralOffset
  }

  /** What follows the two records: their keys, their ranges, and the members in the order of their names. */
  function Assemble(eocd: nat, dir: Directory, p: Progress): Result<Archive, NpzError>
    requires |p.members| == 2
  {
    if p.cursor != eocd || p.roles != {Source, Target} then Err(WrongKeys)
    else if !RangesApart(p.members[0], p.members[1], dir.offset) then Err(Malformed)
    else
      var (source, target) := if p.members[0].role.Source? then (p.members[0], p.members[1])
                              else (p.members[1], p.members[0]);
      Ok(Archive(eocd, dir.offset, dir.size, source, target))
  }

  function ReadDirectory(raw: seq<Byte>, eocd: nat): Result<Archive, NpzError>
    requires eocd + EOCD_SIZE <= |raw|
  {
    var dir :- ReadEnd(raw, eocd);
    var p :- ReadRecords(raw, eocd, dir.offset, 2, Progress([], {}, dir.offset));
    Assemble(eocd, dir, p)
  }

  /** The loop over the two central records between the end record and the final key and range checks. */
  method PreflightArchive(raw: seq<Byte>) returns (r: Result<Archive, NpzError>)
    ensures r.Ok? ==> UniqueEnd(raw, r.value.eocd)
    ensures forall eocd: nat :: UniqueEnd(raw, eocd) ==> r == ReadDirectory(raw, eocd)
  {
    var end := FindEocdOffset(raw);
    if end.Err? { return Err(end.error); }
    var eocd := end.value;
    var found := ReadEnd(raw, eocd);
    if found.Err? { return Err(found.error); }
    var dir := found.value;
    var members: seq<Member> := [];
    var roles: set<Role> := {};
    var cursor := dir.offset;
    for i := 0 to 2
      invariant |members| == i
      invariant ReadRecords(raw, eocd, dir.offset, 2 - i, Progress(members, roles, cursor))
             == ReadRecords(raw, eocd, dir.offset, 2, Progress([], {}, dir.offset))
    {
      var entry := ReadCentral(raw, eocd, cursor);
      if entry.Err? { return Err(entry.error); }
      var central := entry.value.central;
      if central.role in roles { return Err(WrongKeys); }
      roles := roles + {central.role};
      var member := ParseLocalMember(raw, dir.offset, central);
      if member.Err? { return Err(member.error); }
      members := members + [member.value];
      cursor := entry.value.next;
    }
    r := Assemble(eocd, dir, Progress(members, roles, cursor));
  }

  // ---------------------------------------------------------------- what an accepted archive looks like

  /** The records of the source and the target fill the directory, one after the other in either order. */
  predicate Tiles(raw: seq<Byte>, a: Archive, source: Central, target: Central, middle: nat) {
    && source.role.Source? && target.role.Target?
    && ((Describes(raw, a.centralOffset, source, middle) && Describes(raw, middle, target, a.eocd))
        || (Describes(raw, a.centralOffset, target, middle) && Describes(raw, middle, source, a.eocd)))
  }

  /** The two central records tile the directory, each local header agrees, and the members lie apart below it. */
  predicate Layout(raw: seq<Byte>, a: Archive, source: Central, target: Central, middle: nat) {
    && a.eocd + EOCD_SIZE <= |raw| && EndPlaces(raw, a.eocd, a.centralOffset, a.centralSize)
    && Tiles(raw, a, source, target, middle)
    && LocalAgrees(raw, a.centralOffset, source, a.source) && LocalAgrees(raw, a.centralOffset, target, a.target)
    && (a.source.dataEnd <= a.target.localOffset || a.target.dataEnd <= a.source.localOffset)
  }

  lemma DescribesOne(raw: seq<Byte>, at: nat, c: Central, next: nat, d: Central, end: nat)
    requires Describes(raw, at, c, next) && Describes(raw, at, d, end)
    ensures c == d && next == end
  {
  }

  /** A described record is read, its member parsed, and the walk goes on after it. */
  lemma RecordRead(raw: seq<Byte>, eocd: nat, centralOffset: nat, p: Progress, c: Central, next: nat, m: Member)
    requires centralOffset <= eocd <= |raw| && next <= eocd && c.role !in p.roles
    requires Describes(raw, p.cursor, c, next) && LocalAgrees(raw, centralOffset, c, m)
    ensures ReadRecord(raw, eocd, centralOffset, p) == Ok(Progress(p.members + [m], p.roles + {c.role}, next))
  {
    var entry := ReadCentral(raw, eocd, p.cursor);
    DescribesOne(raw, p.cursor, c, next, entry.value.central, entry.value.next);
    ParseLocalMemberIff(raw, centralOffset, c, m);
  }

  lemma RecordMeans(raw: seq<Byte>, eocd: nat, centralOffset: nat, p: Progress) returns (c: Central, m: Member)
    requires centralOffset <= eocd <= |raw| && ReadRecord(raw, eocd, centralOffset, p).Ok?
    ensures var next := ReadRecord(raw, eocd, centralOffset, p).value;
      && Describes(raw, p.cursor, c, next.cursor) && next.cursor <= eocd && LocalAgrees(raw, centralOffset, c, m)
      && c.role !in p.roles && next == Progress(p.members + [m], p.roles + {c.role}, next.cursor)
  {
    c := ReadCentral(raw, eocd, p.cursor).value.central;
    m := ParseLocalMember(raw, centralOffset, c).value;
    ParseLocalMemberIff(raw, centralOffset, c, m);
  }

  /** Both records of an accepted directory. */
  lemma BothRecordsMean(raw: seq<Byte>, eocd: nat, offset: nat) returns (x: Central, y: Central, middle: nat)
    requires offset <= eocd <= |raw| && ReadRecords(raw, eocd, offset, 2, Progress([], {}, offset)).Ok?
    ensures var p := ReadRecords(raw, eocd, offset, 2, Progress([], {}, offset)).value;
      && Describes(raw, offset, x, middle) && Describes(raw, middle, y, p.cursor) && x.role != y.role
      && LocalAgrees(raw, offset, x, p.members[0]) && LocalAgrees(raw, offset, y, p.members[1])
      && p.roles == {x.role, y.role}
  {
    var start := Progress([], {}, offset);
    var first := ReadRecord(raw, eocd, offset, start).value;
    var m0, m1;
    x, m0 := RecordMeans(raw, eocd, offset, start);
    assert ReadRecords(raw, eocd, offset, 2, start) == ReadRecords(raw, eocd, offset, 1, first);
    y, m1 := RecordMeans(raw, eocd, offset, first);
    var second := ReadRecord(raw, eocd, offset, first).value;
    assert ReadRecords(raw, eocd, offset, 1, first) == ReadRecords(raw, eocd, offset, 0, second);
    middle := first.cursor;
  }

  lemma BothRecordsRead(raw: seq<Byte>, eocd: nat, offset: nat, x: Central, y: Central, middle: nat,
                        mx: Member, my: Member)
    requires offset <= eocd <= |raw| && middle <= eocd && x.role != y.role
    requires Describes(raw, offset, x, middle) && Describes(raw, middle, y, eocd)
    requires LocalAgrees(raw, offset, x, mx) && LocalAgrees(raw, offset, y, my)
    ensures ReadRecords(raw, eocd, offset, 2, Progress([], {}, offset))
         == Ok(Progress([mx, my], {x.role, y.role}, eocd))
  {
    hide Describes, LocalAgrees, ReadRecord;
    var start, first := Progress([], {}, offset), Progress([mx], {x.role}, middle);
    var second := Progress([mx, my], {x.role, y.role}, eocd);
    RecordRead(raw, eocd, offset, start, x, middle, mx);
    assert [] + [mx] == [mx] && {} + {x.role} == {x.role};
    RecordRead(raw, eocd, offset, first, y, eocd, my);
    assert [mx] + [my] == [mx, my] && {x.role} + {y.role} == {x.role, y.role};
    assert ReadRecords(raw, eocd, offset, 0, second) == Ok(second);
    assert ReadRecords(raw, eocd, offset, 1, first) == Ok(second);
  }

  lemma AcceptedLayout(raw: seq<Byte>, eocd: nat, a: Archive) returns (source: Central, target: Central, middle: nat)
    requires eocd + EOCD_SIZE <= |raw| && ReadDirectory(raw, eocd) == Ok(a)
    ensures a.eocd == eocd && Layout(raw, a, source, target, middle)
  {
    var dir := ReadEnd(raw, eocd).value;
    var x, y, m := BothRecordsMean(raw, eocd, dir.offset);
    source, target, middle := if x.role.Source? then x else y, if x.role.Source? then y else x, m;
  }

  lemma AssembleTwo(a: Archive, dir: Directory, mx: Member, my: Member)
    requires dir == Directory(a.centralOffset, a.centralSize) && mx.role != my.role
    requires mx.dataEnd <= my.localOffset || my.dataEnd <= mx.localOffset
    requires mx.localOffset < mx.dataEnd <= dir.offset && my.localOffset < my.dataEnd <= dir.offset
    requires a.source == (if mx.role.Source? then mx else my) && a.target == (if mx.role.Source? then my else mx)
    ensures Assemble(a.eocd, dir, Progress([mx, my], {mx.role, my.role}, a.eocd)) == Ok(a)
  {
    assert {mx.role, my.role} == {Source, Target};
  }

  /** Two described records in this order are accepted, whichever of them is the source. */
  lemma RecordsAccepted(raw: seq<Byte>, a: Archive, x: Central, y: Central, middle: nat, mx: Member, my: Member)
    requires a.eocd + EOCD_SIZE <= |raw| && EndPlaces(raw, a.eocd, a.centralOffset, a.centralSize)
    requires Describes(raw, a.centralOffset, x, middle) && Describes(raw, middle, y, a.eocd) && x.role != y.role
    requires LocalAgrees(raw, a.centralOffset, x, mx) && LocalAgrees(raw, a.centralOffset, y, my)
    requires mx.dataEnd <= my.localOffset || my.dataEnd <= mx.localOffset
    requires a.source == (if x.role.Source? then mx else my) && a.target == (if x.role.Source? then my else mx)
    ensures ReadDirectory(raw, a.eocd) == Ok(a)
  {
    hide ExtraFields, PayloadOf, EffectiveSizes, ReadRecords, Assemble;
    var dir := Directory(a.centralOffset, a.centralSize);
    BothRecordsRead(raw, a.eocd, dir.offset, x, y, middle, mx, my);
    AssembleTwo(a, dir, mx, my);
  }

  lemma LayoutAccepted(raw: seq<Byte>, a: Archive, source: Central, target: Central, middle: nat)
    requires Layout(raw, a, source, target, middle)
    ensures ReadDirectory(raw, a.eocd) == Ok(a)
  {
    if Describes(raw, a.centralOffset, source, middle) && Describes(raw, middle, target, a.eocd) {
      RecordsAccepted(raw, a, source, target, middle, a.source, a.target);
    } else {
      RecordsAccepted(raw, a, target, source, middle, a.target, a.source);
    }
  }

  /** An archive passes exactly when its directory and its headers have this layout. */
  lemma PreflightIff(raw: seq<Byte>, a: Archive)
    requires a.eocd + EOCD_SIZE <= |raw|
    ensures ReadDirectory(raw, a.eocd) == Ok(a)
       <==> exists source, target, middle :: Layout(raw, a, source, target, middle)
  {
    if ReadDirectory(raw, a.eocd) == Ok(a) {
      var source, target, middle := AcceptedLayout(raw, a.eocd, a);
    }
    if source, target, middle :| Layout(raw, a, source, target, middle) {
      LayoutAccepted(raw, a, source, target, middle);
    }
  }
}
