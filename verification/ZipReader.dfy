/**
 Reading an archive: finding the end record, parsing the central directory,
 checking a local header against it, and getting one file's content back.
 Nothing is assumed about the bytes.
 */
module ZipReader {
  import opened Prelude
  import opened ZipBytes
  import opened ZipFormat
  import opened ArchivePath
  import opened ZipWriter

  // ------------------------------------------------------- the end record

  const TAIL_SIZE: nat := END_SIZE + U16_MAX

  /** An end record whose comment runs exactly to the end of the file. */
  predicate IsEnd(s: Bytes, i: nat) {
    && i + END_SIZE <= |s|
    && At32(s, i) == END_SIGNATURE
    && i + END_SIZE + At16(s, i + 20) == |s|
  }

  /** The right-most end record among the first `k` positions. */
  function RightmostEnd(s: Bytes, k: nat): (r: Option<nat>)
    ensures r.Some? ==> r.value < k && IsEnd(s, r.value) && forall j :: r.value < j < k ==> !IsEnd(s, j)
    ensures r.None? ==> forall j :: 0 <= j < k ==> !IsEnd(s, j)
  {
    if k == 0 then None else if IsEnd(s, k - 1) then Some(k - 1) else RightmostEnd(s, k - 1)
  }

  datatype End = End(offset: U32, size: U32, count: U16)

  function CheckedEnd(s: Bytes, i: nat): (r: Result<End, Error>)
    requires i + END_SIZE <= |s|
  {
    if At16(s, i + 4) != 0 || At16(s, i + 6) != 0 || At16(s, i + 8) != At16(s, i + 10) then Err(MultiDisk)
    else if At32(s, i + 12) == U32_MAX || At32(s, i + 16) == U32_MAX then Err(Zip64)
    else Ok(End(At32(s, i + 16), At32(s, i + 12), At16(s, i + 10)))
  }

  /** What searching the whole file finds. */
  function Located(s: Bytes): (r: Result<End, Error>) {
    if |s| < END_SIZE then Err(TooSmall)
    else
      var i := RightmostEnd(s, |s|);
      if i.None? then Err(MissingEnd) else CheckedEnd(s, i.value)
  }

  /** A position in the tail is an end record exactly if it is one in the file,
      and none lies before the tail: a comment is at most 65535 bytes long. */
  lemma EndInTail(s: Bytes, base: nat, k: nat)
    requires base <= |s| && (base == 0 || base + TAIL_SIZE == |s|)
    ensures IsEnd(s[base..], k) <==> IsEnd(s, base + k)
    ensures k < base ==> !IsEnd(s, k)
    ensures k + END_SIZE <= |s[base..]| ==> CheckedEnd(s[base..], k) == CheckedEnd(s, base + k)
  {
    var tail := s[base..];
    if k + END_SIZE <= |tail| {
      Within(s, base, tail, k);
      Within(s, base, tail, k + 4);
      Within(s, base, tail, k + 6);
      Within(s, base, tail, k + 8);
      Within(s, base, tail, k + 10);
      Within(s, base, tail, k + 12);
      Within(s, base, tail, k + 16);
      Within(s, base, tail, k + 20);
    }
  }

  /** Scans only the last 65557 bytes, backwards. */
  method LocateEndOfCentralDirectory(s: Bytes) returns (r: Result<End, Error>)
    ensures r == Located(s)
  {
    if |s| < END_SIZE {
      return Err(TooSmall);
    }
    var tailSize := if |s| < TAIL_SIZE then |s| else TAIL_SIZE;
    var base := |s| - tailSize;
    var tail := s[base..];
    var index := tailSize - END_SIZE + 1;
    while index > 0
      invariant index <= tailSize - END_SIZE + 1
      invariant forall k :: base + index <= k ==> !IsEnd(s, k)
      decreases index
    {
      index := index - 1;
      EndInTail(s, base, index);
      if At32(tail, index) != END_SIGNATURE {
        continue;
      }
      if index + END_SIZE + At16(tail, index + 20) != |tail| {
        continue;
      }
      return CheckedEnd(tail, index);
    }
    forall k: nat | k < base ensures !IsEnd(s, k) {
      EndInTail(s, base, k);
    }
    return Err(MissingEnd);
  }

  /** An end record of section 4.3.16 whose comment ends with the file. */
  ghost predicate EndFits(s: Bytes, i: nat) {
    i + 22 <= |s| && At32(s, i) == 0x06054b50 && i + 22 + At16(s, i + 20) == |s|
  }

  /** For arbitrary bytes: the end record in use is the right-most one whose
      comment ends with the file. It is refused exactly if it speaks of several
      disks, or has a size or offset that stands for ZIP64. */
  lemma LocatedExactly(s: Bytes) returns (last: Option<nat>)
    ensures Located(s) == Err(TooSmall) <==> |s| < 22
    ensures Located(s) == Err(MissingEnd) <==> |s| >= 22 && last.None?
    ensures last.None? ==> forall j :: 0 <= j ==> !EndFits(s, j)
    ensures last.Some? ==> EndFits(s, last.value) && forall j :: last.value < j ==> !EndFits(s, j)
    ensures last.Some? ==>
      var i := last.value;
      var oneDisk := At16(s, i + 4) == 0 && At16(s, i + 6) == 0 && At16(s, i + 8) == At16(s, i + 10);
      var size, offset := At32(s, i + 12), At32(s, i + 16);
      && (Located(s) == Err(MultiDisk) <==> !oneDisk)
      && (Located(s) == Err(Zip64) <==> oneDisk && (size == 0xffff_ffff || offset == 0xffff_ffff))
      && (Located(s) == Ok(End(offset, size, At16(s, i + 10))) <==>
            oneDisk && size < 0xffff_ffff && offset < 0xffff_ffff)
  {
    last := RightmostEnd(s, |s|);
    forall j: nat ensures IsEnd(s, j) <==> EndFits(s, j) {
    }
    hide RightmostEnd;
  }

  // ------------------------------------------------------- the central directory

  predicate HasBit(flags: U16, bit: nat)
    requires bit > 0
  {
    flags / bit % 2 == 1
  }

  /** The fixed fields of a directory entry up to the sizes, and after them. */
  datatype Front = Front(
    signature: U32, madeBy: U16, flags: U16, compression: U16, crc32: U32, compressed: U32, uncompressed: U32)

  datatype Back = Back(nameLength: U16, extraLength: U16, commentLength: U16, attributes: U32, localOffset: U32)

  const FRONT_SIZE: nat := 28

  function FrontAt(d: Bytes, o: nat): (r: Front)
    requires o + FRONT_SIZE <= |d|
  {
    Front(At32(d, o), At16(d, o + 4), At16(d, o + 8), At16(d, o + 10), At32(d, o + 16), At32(d, o + 20),
        At32(d, o + 24))
  }

  function BackAt(d: Bytes, o: nat): (r: Back)
    requires o + CENTRAL_SIZE - FRONT_SIZE <= |d|
  {
    Back(At16(d, o), At16(d, o + 2), At16(d, o + 4), At32(d, o + 10), At32(d, o + 14))
  }

  function Mode(b: Back): (mode: U16) { b.attributes / 0x1_0000 }

  /** The record in a directory entry; only entries made on Unix carry a mode. */
  function ToRecord(f: Front, b: Back, path: Bytes): (r: ArchiveRecord) {
    ArchiveRecord(path, f.madeBy / 0x100 == UNIX_OS && AnyExecuteBit(Mode(b)), f.compressed, f.uncompressed,
                  b.localOffset, f.crc32, f.compression, f.flags, f.madeBy)
  }

  /** One entry: its record, its mode and where the next entry begins. */
  datatype Item = Item(record: ArchiveRecord, mode: U16, next: nat)

  function ItemAt(d: Bytes, o: nat): (r: Result<Item, Error>)
    requires o <= |d|
    ensures r.Ok? ==> o + CENTRAL_SIZE <= r.value.next <= |d|
  {
    if o + CENTRAL_SIZE > |d| then Err(EntryTruncated)
    else
      var f, b := FrontAt(d, o), BackAt(d, o + FRONT_SIZE);
      var name := o + CENTRAL_SIZE;
      var next := name + b.nameLength + b.extraLength + b.commentLength;
      if f.signature != CENTRAL_SIGNATURE then Err(SignatureMismatch)
      else if next > |d| then Err(PayloadTruncated)
      else Ok(Item(ToRecord(f, b, d[name..name + b.nameLength]), Mode(b), next))
  }

  /** Why a record is refused, in the order of the checks. */
  function Refusal(e: ArchiveRecord, mode: U16, seen: set<Bytes>, size: nat): (r: Option<Error>) {
    if HasBit(e.flags, 0x1) then Some(Encrypted)
    else if HasBit(e.flags, 0x8) then Some(DataDescriptor)
    else if HasBit(e.flags, 0x40) then Some(StrongEncryption)
    else if e.compression != STORED && e.compression != DEFLATED then Some(UnsupportedMethod)
    else if e.compressedSize == U32_MAX || e.uncompressedSize == U32_MAX || e.localHeaderOffset == U32_MAX then
        Some(Zip64)
    else if !Safe(e.path) then Some(UnsafePath)
    else if e.path in seen then Some(DuplicatePath)
    else if e.localHeaderOffset >= size then Some(OutsideFile)
    else if e.compression == STORED && e.compressedSize != e.uncompressedSize then Some(StoredSizeMismatch)
    else if e.versionMadeBy / 0x100 == UNIX_OS && FileType(mode) == 10 then Some(Symlink)
    else if e.versionMadeBy / 0x100 == UNIX_OS && FileType(mode) != 0 && FileType(mode) != 8 then
        Some(UnsupportedFileType)
    else None
  }

  function ParsedEntry(d: Bytes, o: nat, seen: set<Bytes>, size: nat): (r: Result<Item, Error>)
    requires o <= |d|
    ensures r.Ok? ==> o < r.value.next <= |d|
  {
    var item := ItemAt(d, o);
    if item.Err? then item
    else
      var refusal := Refusal(item.value.record, item.value.mode, seen, size);
      if refusal.Some? then Err(refusal.value) else item
  }

  function ParsedEntries(d: Bytes, o: nat, count: nat, seen: set<Bytes>, size: nat)
    : (r: Result<seq<ArchiveRecord>, Error>)
    requires o <= |d|
    decreases count
  {
    if count == 0 then (if o == |d| then Ok([]) else Err(TrailingData))
    else
      var first := ParsedEntry(d, o, seen, size);
      if first.Err? then Err(first.error)
      else After([first.value.record],
          ParsedEntries(d, first.value.next, count - 1, seen + {first.value.record.path}, size))
  }

  function After(front: seq<ArchiveRecord>, rest: Result<seq<ArchiveRecord>, Error>)
    : (r: Result<seq<ArchiveRecord>, Error>)
  {
    if rest.Ok? then Ok(front + rest.value) else rest
  }

  /** The records of an archive. */
  function Parsed(s: Bytes): (r: Result<seq<ArchiveRecord>, Error>) {
    var end := Located(s);
    if end.Err? then Err(end.error)
    else if end.value.offset + end.value.size > |s| then Err(DirectoryTruncated)
    else ParsedEntries(s[end.value.offset..end.value.offset + end.value.size], 0, end.value.count, {}, |s|)
  }

  method ReadFront(reader: ByteReader) returns (r: Front)
    requires reader.Valid() && reader.Remaining() >= FRONT_SIZE
    modifies reader`offset
    ensures reader.Valid() && reader.offset == old(reader.offset) + FRONT_SIZE
    ensures r == FrontAt(reader.data, old(reader.offset))
  {
    var signature := reader.ReadU32();
    var madeBy := reader.ReadU16();
    var needed := reader.ReadU16();
    var flags := reader.ReadU16();
    var compression := reader.ReadU16();
    var _ := reader.Skip(4);
    var crc := reader.ReadU32();
    var compressed := reader.ReadU32();
    var uncompressed := reader.ReadU32();
    r := Front(signature.value, madeBy.value, flags.value, compression.value, crc.value, compressed.value,
        uncompressed.value);
  }

  method ReadBack(reader: ByteReader) returns (r: Back)
    requires reader.Valid() && reader.Remaining() >= CENTRAL_SIZE - FRONT_SIZE
    modifies reader`offset
    ensures reader.Valid() && reader.offset == old(reader.offset) + CENTRAL_SIZE - FRONT_SIZE
    ensures r == BackAt(reader.data, old(reader.offset))
  {
    var nameLength := reader.ReadU16();
    var extraLength := reader.ReadU16();
    var commentLength := reader.ReadU16();
    var _ := reader.Skip(4);
    var attributes := reader.ReadU32();
    var localOffset := reader.ReadU32();
    r := Back(nameLength.value, extraLength.value, commentLength.value, attributes.value, localOffset.value);
  }

  method ReadItem(reader: ByteReader) returns (r: Result<Item, Error>)
    requires reader.Valid()
    modifies reader`offset
    ensures reader.Valid()
    ensures r == ItemAt(reader.data, old(reader.offset))
    ensures r.Ok? ==> reader.offset == r.value.next
    ensures var d, o := reader.data, old(reader.offset);
      && (r == Err(EntryTruncated) <==> o + 46 > |d|)
      && (r == Err(SignatureMismatch) <==> o + 46 <= |d| && At32(d, o) != 0x02014b50)
      && (r == Err(PayloadTruncated) <==>
            o + 46 <= |d| && At32(d, o) == 0x02014b50
            && o + 46 + At16(d, o + 28) + At16(d, o + 30) + At16(d, o + 32) > |d|)
      && (r.Ok? || r.error in {EntryTruncated, SignatureMismatch, PayloadTruncated})
    ensures r.Ok? ==>
      var d, o, e := reader.data, old(reader.offset), r.value.record;
      && e.versionMadeBy == At16(d, o + 4) && e.flags == At16(d, o + 8) && e.compression == At16(d, o + 10)
      && e.crc32 == At32(d, o + 16) && e.compressedSize == At32(d, o + 20) && e.uncompressedSize == At32(d, o + 24)
      && e.localHeaderOffset == At32(d, o + 42) && e.path == d[o + 46..o + 46 + At16(d, o + 28)]
      && r.value.mode == At32(d, o + 38) / 0x1_0000
      && r.value.next == o + 46 + At16(d, o + 28) + At16(d, o + 30) + At16(d, o + 32)
      && (e.executable <==>
            At16(d, o + 4) / 0x100 == 3
            && (r.value.mode % 2 == 1 || r.value.mode / 8 % 2 == 1 || r.value.mode / 64 % 2 == 1))
  {
    if reader.Remaining() < CENTRAL_SIZE {
      return Err(EntryTruncated);
    }
    var f := ReadFront(reader);
    var b := ReadBack(reader);
    if f.signature != CENTRAL_SIGNATURE {
      return Err(SignatureMismatch);
    }
    var path := reader.ReadString(b.nameLength);
    if path.None? {
      return Err(PayloadTruncated);
    }
    var extra := reader.Skip(b.extraLength);
    if !extra {
      return Err(PayloadTruncated);
    }
    var comment := reader.Skip(b.commentLength);
    if !comment {
      return Err(PayloadTruncated);
    }
    return Ok(Item(ToRecord(f, b, path.value), Mode(b), reader.offset));
  }

  /** The condition behind each refusal. */
  predicate Fails(x: Error, e: ArchiveRecord, mode: U16, seen: set<Bytes>, size: nat) {
    var fromUnix, fileType := e.versionMadeBy / 0x100 == 3, mode / 0x1000;
    match x
    case Encrypted => e.flags % 2 == 1
    case DataDescriptor => e.flags / 8 % 2 == 1
    case StrongEncryption => e.flags / 0x40 % 2 == 1
    case UnsupportedMethod => e.compression != 0 && e.compression != 8
    case Zip64 => 0xffff_ffff in [e.compressedSize, e.uncompressedSize, e.localHeaderOffset]
    case UnsafePath => !Safe(e.path)
    case DuplicatePath => e.path in seen
    case OutsideFile => e.localHeaderOffset >= size
    case StoredSizeMismatch => e.compression == 0 && e.compressedSize != e.uncompressedSize
    case Symlink => fromUnix && fileType == 10
    case UnsupportedFileType => fromUnix && fileType !in {0, 8, 10}
    case _ => false
  }

  /** The order of the checks. */
  function CheckOrder(x: Error): (n: nat) {
    match x
    case Encrypted => 0
    case DataDescriptor => 1
    case StrongEncryption => 2
    case UnsupportedMethod => 3
    case Zip64 => 4
    case UnsafePath => 5
    case DuplicatePath => 6
    case OutsideFile => 7
    case StoredSizeMismatch => 8
    case Symlink => 9
    case _ => 10
  }

  ghost predicate FailsFirst(x: Error, e: ArchiveRecord, mode: U16, seen: set<Bytes>, size: nat) {
    && Fails(x, e, mode, seen, size)
    && forall y :: Fails(y, e, mode, seen, size) ==> CheckOrder(x) <= CheckOrder(y)
  }

  /** An entry is refused exactly if a check fails, for the first that does. */
  lemma RefusesFirst(e: ArchiveRecord, mode: U16, seen: set<Bytes>, size: nat)
    ensures match Refusal(e, mode, seen, size)
      case None => forall x :: !Fails(x, e, mode, seen, size)
      case Some(x) => FailsFirst(x, e, mode, seen, size)
  {
    hide Safe;
  }

  /** Answers the first check that fails. */
  method CheckEntry(e: ArchiveRecord, mode: U16, seen: set<Bytes>, size: nat) returns (r: Option<Error>)
    ensures r == Refusal(e, mode, seen, size)
    ensures r.None? ==> forall x :: !Fails(x, e, mode, seen, size)
    ensures r.Some? ==> FailsFirst(r.value, e, mode, seen, size)
  {
    RefusesFirst(e, mode, seen, size);
    hide Fails, FailsFirst;
    if HasBit(e.flags, 0x1) { return Some(Encrypted); }
    if HasBit(e.flags, 0x8) { return Some(DataDescriptor); }
    if HasBit(e.flags, 0x40) { return Some(StrongEncryption); }
    if e.compression != STORED && e.compression != DEFLATED { return Some(UnsupportedMethod); }
    if e.compressedSize == U32_MAX || e.uncompressedSize == U32_MAX || e.localHeaderOffset == U32_MAX {
      return Some(Zip64);
    }
    var safe := IsSafeRelativeArchivePath(e.path);
    if !safe { return Some(UnsafePath); }
    if e.path in seen { return Some(DuplicatePath); }
    if e.localHeaderOffset >= size { return Some(OutsideFile); }
    if e.compression == STORED && e.compressedSize != e.uncompressedSize { return Some(StoredSizeMismatch); }
    if e.versionMadeBy / 0x100 == UNIX_OS {
      var fileType := FileType(mode);
      if fileType == 10 { return Some(Symlink); }
      if fileType != 0 && fileType != 8 { return Some(UnsupportedFileType); }
    }
    return None;
  }

  method ParseEntry(reader: ByteReader, seen: set<Bytes>, size: nat) returns (r: Result<Item, Error>)
    requires reader.Valid()
    modifies reader`offset
    ensures reader.Valid()
    ensures r == ParsedEntry(reader.data, old(reader.offset), seen, size)
    ensures r.Ok? ==> reader.offset == r.value.next
  {
    hide ItemAt, Refusal;
    r := ReadItem(reader);
    if r.Ok? {
      var refusal := CheckEntry(r.value.record, r.value.mode, seen, size);
      if refusal.Some? {
        return Err(refusal.value);
      }
    }
  }

  method ParseEntries(directory: Bytes, count: nat, size: nat) returns (r: Result<seq<ArchiveRecord>, Error>)
    ensures r == ParsedEntries(directory, 0, count, {}, size)
  {
    hide ParsedEntries, ParsedEntry, After;
    var reader := new ByteReader(directory);
    var entries: seq<ArchiveRecord> := [];
    var seen: set<Bytes> := {};
    ghost var goal := ParsedEntries(directory, 0, count, {}, size);
    AfterNothing(goal);
    for index := 0 to count
      invariant fresh(reader) && reader.Valid() && reader.data == directory
      invariant goal == After(entries, ParsedEntries(directory, reader.offset, count - index, seen, size))
    {
      EntriesStep(entries, directory, reader.offset, count - index, seen, size);
      var item := ParseEntry(reader, seen, size);
      if item.Err? {
        return Err(item.error);
      }
      seen := seen + {item.value.record.path};
      entries := entries + [item.value.record];
    }
    EntriesEnd(entries, directory, reader.offset, seen, size);
    if reader.Remaining() != 0 {
      return Err(TrailingData);
    }
    return Ok(entries);
  }

  /** Parsing one more entry, with those before it in front. */
  lemma EntriesStep(front: seq<ArchiveRecord>, d: Bytes, o: nat, count: nat, seen: set<Bytes>, size: nat)
    requires o <= |d| && count > 0
    ensures var first := ParsedEntry(d, o, seen, size);
      After(front, ParsedEntries(d, o, count, seen, size)) ==
        if first.Err? then Err(first.error)
        else
          var e := first.value.record;
          After(front + [e], ParsedEntries(d, first.value.next, count - 1, seen + {e.path}, size))
  {
    var first := ParsedEntry(d, o, seen, size);
    if first.Ok? {
      var e := first.value.record;
      AfterAfter(front, e, ParsedEntries(d, first.value.next, count - 1, seen + {e.path}, size));
    }
    hide ParsedEntry;
  }

  lemma EntriesEnd(front: seq<ArchiveRecord>, d: Bytes, o: nat, seen: set<Bytes>, size: nat)
    requires o <= |d|
    ensures After(front, ParsedEntries(d, o, 0, seen, size)) == if o == |d| then Ok(front) else Err(TrailingData)
  {
    assert front + [] == front;
  }

  method ParseCentralDirectory(s: Bytes) returns (r: Result<seq<ArchiveRecord>, Error>)
    ensures r == Parsed(s)
  {
    hide ParsedEntries, Located;
    var end := LocateEndOfCentralDirectory(s);
    if end.Err? {
      return Err(end.error);
    }
    if end.value.offset + end.value.size > |s| {
      return Err(DirectoryTruncated);
    }
    r := ParseEntries(s[end.value.offset..end.value.offset + end.value.size], end.value.count, |s|);
  }

  lemma AfterNothing(rest: Result<seq<ArchiveRecord>, Error>)
    ensures After([], rest) == rest
  {
    if rest.Ok? {
      assert [] + rest.value == rest.value;
    }
  }

  lemma AfterAfter(front: seq<ArchiveRecord>, e: ArchiveRecord, rest: Result<seq<ArchiveRecord>, Error>)
    ensures After(front, After([e], rest)) == After(front + [e], rest)
  {
    if rest.Ok? {
      AppendAssociates(front, [e], rest.value);
    }
  }

  // ------------------------------------------------------- what a successful parse means

  /** The entries lie end to end from `o` to `end`: each begins where the one
      before ended. */
  ghost predicate Tiled(d: Bytes, o: nat, items: seq<Item>, end: nat)
    requires o <= |d|
    decreases |items|
  {
    if items == [] then o == end else ItemAt(d, o) == Ok(items[0]) && Tiled(d, items[0].next, items[1..], end)
  }

  /** A regular, unencrypted, stored or deflated file with its sizes in its
      entry, below the 32-bit marker, and a safe path. */
  ghost predicate Admissible(item: Item, size: nat) {
    var r, fileType := item.record, item.mode / 0x1000;
    && Safe(r.path)
    && r.flags % 2 == 0 && r.flags / 8 % 2 == 0 && r.flags / 0x40 % 2 == 0
    && (r.compression == 0 || r.compression == 8)
    && r.compressedSize < 0xffff_ffff && r.uncompressedSize < 0xffff_ffff && r.localHeaderOffset < 0xffff_ffff
    && r.localHeaderOffset < size
    && (r.compression == 0 ==> r.compressedSize == r.uncompressedSize)
    && (r.versionMadeBy / 0x100 == 3 ==> fileType == 0 || fileType == 8)
  }

  predicate DistinctRecords(records: seq<ArchiveRecord>) {
    forall i, j :: 0 <= i < j < |records| ==> records[i].path != records[j].path
  }

  lemma FieldsFit(d: Bytes, o: nat)
    requires o <= |d| && ItemAt(d, o).Ok?
    ensures var r := ItemAt(d, o).value.record;
      r.compressedSize <= U32_MAX && r.uncompressedSize <= U32_MAX && r.localHeaderOffset <= U32_MAX
  {
  }

  /** An entry is accepted exactly if it can be read, its path is new and it is
      admissible, and then as it was read. */
  lemma EntryAccepted(d: Bytes, o: nat, seen: set<Bytes>, size: nat)
    requires o <= |d|
    ensures var item := ItemAt(d, o);
      && (ParsedEntry(d, o, seen, size).Ok? <==>
            item.Ok? && item.value.record.path !in seen && Admissible(item.value, size))
      && (ParsedEntry(d, o, seen, size).Ok? ==> ParsedEntry(d, o, seen, size) == item)
  {
    if ItemAt(d, o).Ok? {
      FieldsFit(d, o);
    }
    hide ItemAt, Safe;
  }

  ghost predicate RecordsOf(items: seq<Item>, records: seq<ArchiveRecord>) {
    |items| == |records| && forall i :: 0 <= i < |items| ==> items[i].record == records[i]
  }

  /** The entries that parsing accepts: they lie end to end, are admissible, and
      have paths that are new and distinct. */
  ghost predicate Acceptable(d: Bytes, o: nat, items: seq<Item>, end: nat, seen: set<Bytes>, size: nat)
    requires o <= |d|
  {
    && Tiled(d, o, items, end)
    && (forall item :: item in items ==> Admissible(item, size) && item.record.path !in seen)
    && (forall i, j :: 0 <= i < j < |items| ==> items[i].record.path != items[j].record.path)
  }

  function Paths(items: seq<Item>): (r: set<Bytes>) { set item | item in items :: item.record.path }

  /** Why entries after `next` are refused: there are too few bytes for one more,
      or its first failing check, or bytes are left after the last one. */
  ghost predicate RefusedAt(d: Bytes, next: nat, more: nat, seen: set<Bytes>, size: nat, x: Error)
    requires next <= |d|
  {
    if more == 0 then next < |d| && x == TrailingData
    else
      match ItemAt(d, next)
      case Err(error) => x == error
      case Ok(item) => FailsFirst(x, item.record, item.mode, seen, size)
  }

  lemma RefusedHere(d: Bytes, o: nat, count: nat, seen: set<Bytes>, size: nat)
    requires o <= |d| && (count == 0 || ParsedEntry(d, o, seen, size).Err?)
    ensures ParsedEntries(d, o, count, seen, size).Err? ==>
      RefusedAt(d, o, count, seen, size, ParsedEntries(d, o, count, seen, size).error)
  {
    if count > 0 && ItemAt(d, o).Ok? {
      RefusesFirst(ItemAt(d, o).value.record, ItemAt(d, o).value.mode, seen, size);
    }
    hide FailsFirst, Refusal, ItemAt;
  }

  lemma EntriesUnfold(d: Bytes, o: nat, count: nat, seen: set<Bytes>, size: nat)
    requires o <= |d| && count > 0 && ParsedEntry(d, o, seen, size).Ok?
    ensures var first := ParsedEntry(d, o, seen, size).value;
      var rest := ParsedEntries(d, first.next, count - 1, seen + {first.record.path}, size);
      ParsedEntries(d, o, count, seen, size) == if rest.Ok? then Ok([first.record] + rest.value) else rest
  {
    hide ParsedEntry;
  }

  /** When parsing fails, it is at the first entry after acceptable ones. */
  lemma {:induction false} EntriesRefused(d: Bytes, o: nat, count: nat, seen: set<Bytes>, size: nat)
    returns (items: seq<Item>, next: nat)
    requires o <= |d|
    ensures next <= |d|
    ensures ParsedEntries(d, o, count, seen, size).Err? ==>
      && |items| <= count && Acceptable(d, o, items, next, seen, size)
      && RefusedAt(d, next, count - |items|, seen + Paths(items), size, ParsedEntries(d, o, count, seen, size).error)
    decreases count
  {
    items, next := [], o;
    assert Paths([]) == {} && seen + {} == seen;
    if count == 0 || ParsedEntry(d, o, seen, size).Err? {
      RefusedHere(d, o, count, seen, size);
      hide ParsedEntries, ParsedEntry, RefusedAt, Paths;
    } else {
      EntryAccepted(d, o, seen, size);
      var first := ParsedEntry(d, o, seen, size).value;
      var rest: seq<Item>;
      EntriesUnfold(d, o, count, seen, size);
      hide ParsedEntries, ParsedEntry, Admissible, ItemAt, RefusedAt, Acceptable, Paths, FailsFirst;
      rest, next := EntriesRefused(d, first.next, count - 1, seen + {first.record.path}, size);
      if ParsedEntries(d, o, count, seen, size).Err? {
        items := [first] + rest;
        AcceptableCons(d, o, first, rest, next, seen, size);
        PathsCons(first, rest, seen);
      }
    }
  }

  lemma PathsCons(first: Item, rest: seq<Item>, seen: set<Bytes>)
    ensures seen + Paths([first] + rest) == seen + {first.record.path} + Paths(rest)
  {
    assert first in [first] + rest && forall item :: item in rest ==> item in [first] + rest;
  }

  lemma AcceptableCons(d: Bytes, o: nat, first: Item, rest: seq<Item>, end: nat, seen: set<Bytes>, size: nat)
    requires o <= |d| && ItemAt(d, o) == Ok(first) && Admissible(first, size) && first.record.path !in seen
    requires Acceptable(d, first.next, rest, end, seen + {first.record.path}, size)
    ensures Acceptable(d, o, [first] + rest, end, seen, size)
  {
    hide Admissible, ItemAt;
    assert ([first] + rest)[1..] == rest;
  }

  /** What was parsed came from acceptable entries that fill the directory. */
  lemma {:induction false} EntriesSound(d: Bytes, o: nat, count: nat, seen: set<Bytes>, size: nat)
    returns (items: seq<Item>)
    requires o <= |d|
    ensures ParsedEntries(d, o, count, seen, size).Ok? ==>
      && |items| == count && Acceptable(d, o, items, |d|, seen, size)
      && RecordsOf(items, ParsedEntries(d, o, count, seen, size).value)
    decreases count
  {
    items := [];
    if count == 0 || ParsedEntry(d, o, seen, size).Err? {
      hide ParsedEntry;
    } else {
      var first := ParsedEntry(d, o, seen, size).value;
      EntryAccepted(d, o, seen, size);
      EntriesUnfold(d, o, count, seen, size);
      hide ParsedEntries, ParsedEntry, Admissible, ItemAt, Acceptable, RecordsOf;
      var rest := EntriesSound(d, first.next, count - 1, seen + {first.record.path}, size);
      var parsed := ParsedEntries(d, first.next, count - 1, seen + {first.record.path}, size);
      items := [first] + rest;
      if parsed.Ok? {
        AcceptableCons(d, o, first, rest, |d|, seen, size);
        RecordsCons(first, rest, parsed.value);
      }
    }
  }

  lemma AcceptableRest(d: Bytes, o: nat, items: seq<Item>, seen: set<Bytes>, size: nat)
    requires o <= |d| && items != [] && Acceptable(d, o, items, |d|, seen, size)
    ensures ParsedEntry(d, o, seen, size) == Ok(items[0]) && items[0].next <= |d|
    ensures Acceptable(d, items[0].next, items[1..], |d|, seen + {items[0].record.path}, size)
  {
    EntryAccepted(d, o, seen, size);
    var first, rest := items[0], items[1..];
    assert first in items && ItemAt(d, o) == Ok(first);
    hide ParsedEntry, Admissible, ItemAt;
    forall i | 0 <= i < |rest|
      ensures Admissible(rest[i], size) && rest[i].record.path !in seen && rest[i].record.path != first.record.path
    {
      assert rest[i] == items[i + 1] && items[i + 1] in items;
    }
    forall i, j | 0 <= i < j < |rest| ensures rest[i].record.path != rest[j].record.path {
      assert rest[i] == items[i + 1] && rest[j] == items[j + 1];
    }
  }

  lemma RecordsCons(item: Item, items: seq<Item>, records: seq<ArchiveRecord>)
    requires RecordsOf(items, records)
    ensures RecordsOf([item] + items, [item.record] + records)
  {
  }

  /** Acceptable entries that fill the directory are parsed, to their records. */
  lemma {:induction false} EntriesComplete(d: Bytes, o: nat, items: seq<Item>, seen: set<Bytes>, size: nat)
    requires o <= |d| && Acceptable(d, o, items, |d|, seen, size)
    ensures ParsedEntries(d, o, |items|, seen, size).Ok?
    ensures RecordsOf(items, ParsedEntries(d, o, |items|, seen, size).value)
    decreases |items|
  {
    if items != [] {
      var first, rest := items[0], items[1..];
      AcceptableRest(d, o, items, seen, size);
      EntriesComplete(d, first.next, rest, seen + {first.record.path}, size);
      EntriesUnfold(d, o, |items|, seen, size);
      hide ParsedEntries, Acceptable, ParsedEntry, RecordsOf;
      RecordsCons(first, rest, ParsedEntries(d, first.next, |rest|, seen + {first.record.path}, size).value);
      assert items == [first] + rest;
    }
  }

  /** The records of an archive are those of these entries: the directory that
      its end record names holds exactly them, and all are acceptable. */
  ghost predicate Holds(s: Bytes, items: seq<Item>, records: seq<ArchiveRecord>) {
    && Located(s).Ok?
    && var end := Located(s).value;
       && end.offset + end.size <= |s| && |items| == end.count
       && Acceptable(s[end.offset..end.offset + end.size], 0, items, end.size, {}, |s|)
       && RecordsOf(items, records)
  }

  /** For arbitrary bytes: an archive parses to some records if and only if they
      are those of acceptable entries that tile the central directory exactly. */
  lemma ParsedExactly(s: Bytes, records: seq<ArchiveRecord>)
    ensures Parsed(s) == Ok(records) <==> exists items :: Holds(s, items, records)
  {
    hide Located, ParsedEntries, Acceptable;
    if Located(s).Ok? && Located(s).value.offset + Located(s).value.size <= |s| {
      var end := Located(s).value;
      var d := s[end.offset..end.offset + end.size];
      if Parsed(s) == Ok(records) {
        var items := EntriesSound(d, 0, end.count, {}, |s|);
        assert Holds(s, items, records);
      }
      forall items | Holds(s, items, records) ensures Parsed(s) == Ok(records) {
        EntriesComplete(d, 0, items, {}, |s|);
        assert Parsed(s).value == records;
      }
    }
  }

  lemma ParsedDistinct(s: Bytes)
    ensures Parsed(s).Ok? ==>
      forall e, f :: e in Parsed(s).value && f in Parsed(s).value && e.path == f.path ==> e == f
  {
    if Parsed(s).Ok? {
      var records := Parsed(s).value;
      ParsedExactly(s, records);
      var items: seq<Item> :| Holds(s, items, records);
      hide Parsed, Tiled, Admissible;
      forall e, f | e in records && f in records && e.path == f.path ensures e == f {
        var i :| 0 <= i < |records| && records[i] == e;
        var j :| 0 <= j < |records| && records[j] == f;
        assert items[i].record == e && items[j].record == f;
      }
    }
  }

  /** Why an archive does not parse: its end record, a directory that leaves the
      file, or the first entry after acceptable ones that is refused. */
  lemma ParseRefused(s: Bytes) returns (items: seq<Item>, next: nat)
    ensures Located(s).Err? ==> Parsed(s) == Err(Located(s).error)
    ensures Located(s).Ok? ==>
      var end := Located(s).value;
      && (end.offset + end.size > |s| ==> Parsed(s) == Err(DirectoryTruncated))
      && (end.offset + end.size <= |s| && Parsed(s).Err? ==>
            var d := s[end.offset..end.offset + end.size];
            && next <= |d| && |items| <= end.count && Acceptable(d, 0, items, next, {}, |s|)
            && RefusedAt(d, next, end.count - |items|, Paths(items), |s|, Parsed(s).error))
  {
    hide Located, ParsedEntries, Acceptable, RefusedAt;
    items, next := [], 0;
    if Located(s).Ok? && Located(s).value.offset + Located(s).value.size <= |s| {
      var end := Located(s).value;
      items, next := EntriesRefused(s[end.offset..end.offset + end.size], 0, end.count, {}, |s|);
      assert {} + Paths(items) == Paths(items);
    }
  }

  // ------------------------------------------------------- one file's content

  datatype Local = Local(
    signature: U32, flags: U16, compression: U16, crc32: U32, compressed: U32, uncompressed: U32,
    nameLength: U16, extraLength: U16)

  function LocalAt(d: Bytes, o: nat): (r: Local)
    requires o + LOCAL_SIZE <= |d|
  {
    Local(At32(d, o), At16(d, o + 6), At16(d, o + 8), At32(d, o + 14), At32(d, o + 18), At32(d, o + 22),
          At16(d, o + 26), At16(d, o + 28))
  }

  /** What a local header has against its directory record. */
  function LocalRefusal(h: Local, e: ArchiveRecord): (r: Option<Error>) {
    if h.signature != LOCAL_SIGNATURE then Some(HeaderSignature)
    else if HasBit(h.flags, 0x1) then Some(Encrypted)
    else if HasBit(h.flags, 0x8) then Some(DataDescriptor)
    else if h.compression != e.compression then Some(MethodMismatch)
    else if h.crc32 != e.crc32 || h.compressed != e.compressedSize || h.uncompressed != e.uncompressedSize
    then Some(MetadataMismatch)
    else None
  }

  /** Where an entry's data starts, once its local header agrees with the
      central directory. The extra field may run past the end; the size check
      then refuses the entry. */
  function DataOffset(s: Bytes, e: ArchiveRecord): (r: Result<nat, Error>)
    ensures r.Ok? ==> r.value + e.compressedSize <= |s|
  {
    var o := e.localHeaderOffset;
    if o + LOCAL_SIZE > |s| then Err(HeaderTruncated)
    else
      var h := LocalAt(s, o);
      var refusal := LocalRefusal(h, e);
      var name := o + LOCAL_SIZE + h.nameLength;
      if refusal.Some? then Err(refusal.value)
      else if name > |s| then Err(NameTruncated)
      else if s[o + LOCAL_SIZE..name] != e.path then Err(NameMismatch)
      else if name + h.extraLength + e.compressedSize > |s| then Err(DataTruncated)
      else Ok(name + h.extraLength)
  }

  /** Where the local header's name ends, by section 4.3.7. */
  function NameEnd(s: Bytes, o: nat): (n: nat)
    requires o + 30 <= |s|
  {
    o + 30 + At16(s, o + 26)
  }

  /** The condition behind each disagreement of a complete local header with its
      directory record. */
  predicate Disagrees(x: Error, s: Bytes, e: ArchiveRecord)
    requires e.localHeaderOffset + 30 <= |s|
  {
    var o := e.localHeaderOffset;
    match x
    case HeaderSignature => At32(s, o) != 0x04034b50
    case Encrypted => At16(s, o + 6) % 2 == 1
    case DataDescriptor => At16(s, o + 6) / 8 % 2 == 1
    case MethodMismatch => At16(s, o + 8) != e.compression
    case MetadataMismatch =>
      At32(s, o + 14) != e.crc32 || At32(s, o + 18) != e.compressedSize || At32(s, o + 22) != e.uncompressedSize
    case NameTruncated => NameEnd(s, o) > |s|
    case NameMismatch => NameEnd(s, o) > |s| || s[o + 30..NameEnd(s, o)] != e.path
    case DataTruncated => NameEnd(s, o) + At16(s, o + 28) + e.compressedSize > |s|
    case _ => false
  }

  function DisagreementOrder(x: Error): (n: nat) {
    match x
    case HeaderSignature => 0
    case Encrypted => 1
    case DataDescriptor => 2
    case MethodMismatch => 3
    case MetadataMismatch => 4
    case NameTruncated => 5
    case NameMismatch => 6
    case _ => 7
  }

  /** An entry's data is found exactly if its local header is all there and
      agrees with the directory; otherwise the first disagreement is reported. */
  lemma LocatesData(s: Bytes, e: ArchiveRecord)
    ensures DataOffset(s, e) == Err(HeaderTruncated) <==> e.localHeaderOffset + 30 > |s|
    ensures e.localHeaderOffset + 30 <= |s| ==>
      match DataOffset(s, e)
      case Ok(start) =>
        && (forall x :: !Disagrees(x, s, e))
        && start == NameEnd(s, e.localHeaderOffset) + At16(s, e.localHeaderOffset + 28)
      case Err(error) =>
        && Disagrees(error, s, e)
        && forall x :: Disagrees(x, s, e) ==> DisagreementOrder(error) <= DisagreementOrder(x)
  {
    hide At16, At32;
  }

  method ReadLocal(reader: ByteReader) returns (r: Local)
    requires reader.Valid() && reader.Remaining() >= LOCAL_SIZE
    modifies reader`offset
    ensures reader.Valid()
    ensures r == LocalAt(reader.data, old(reader.offset))
  {
    var signature := reader.ReadU32();
    var _ := reader.Skip(2);
    var flags := reader.ReadU16();
    var compression := reader.ReadU16();
    var _ := reader.Skip(4);
    var crc := reader.ReadU32();
    var compressed := reader.ReadU32();
    var uncompressed := reader.ReadU32();
    var nameLength := reader.ReadU16();
    var extraLength := reader.ReadU16();
    r := Local(signature.value, flags.value, compression.value, crc.value, compressed.value, uncompressed.value,
               nameLength.value, extraLength.value);
  }

  lemma HeaderCopy(s: Bytes, o: nat)
    requires o + LOCAL_SIZE <= |s|
    ensures LocalAt(s[o..o + LOCAL_SIZE], 0) == LocalAt(s, o)
  {
    var h := s[o..o + LOCAL_SIZE];
    Within(s, o, h, 0);
    Within(s, o, h, 6);
    Within(s, o, h, 8);
    Within(s, o, h, 14);
    Within(s, o, h, 18);
    Within(s, o, h, 22);
    Within(s, o, h, 26);
    Within(s, o, h, 28);
  }

  method ReadLocalFileInfo(s: Bytes, e: ArchiveRecord) returns (r: Result<nat, Error>)
    ensures r == DataOffset(s, e)
  {
    var o := e.localHeaderOffset;
    if o + LOCAL_SIZE > |s| {
      return Err(HeaderTruncated);
    }
    var reader := new ByteReader(s[o..o + LOCAL_SIZE]);
    HeaderCopy(s, o);
    var h := ReadLocal(reader);
    if h.signature != LOCAL_SIGNATURE {
      return Err(HeaderSignature);
    }
    if HasBit(h.flags, 0x1) {
      return Err(Encrypted);
    }
    if HasBit(h.flags, 0x8) {
      return Err(DataDescriptor);
    }
    if h.compression != e.compression {
      return Err(MethodMismatch);
    }
    if h.crc32 != e.crc32 || h.compressed != e.compressedSize || h.uncompressed != e.uncompressedSize {
      return Err(MetadataMismatch);
    }
    var nameEnd := o + LOCAL_SIZE + h.nameLength;
    if nameEnd > |s| {
      return Err(NameTruncated);
    }
    if s[o + LOCAL_SIZE..nameEnd] != e.path {
      return Err(NameMismatch);
    }
    if nameEnd + h.extraLength + e.compressedSize > |s| {
      return Err(DataTruncated);
    }
    return Ok(nameEnd + h.extraLength);
  }

  function EntryContent(codec: Codec, s: Bytes, e: ArchiveRecord): (r: Result<Bytes, Error>) {
    var start := DataOffset(s, e);
    if start.Err? then Err(start.error)
    else
      var data := s[start.value..start.value + e.compressedSize];
      if e.compression == STORED then (if |data| != e.uncompressedSize then Err(StoredSizeMismatch) else Ok(data))
      else if e.compression == DEFLATED then
        var content := codec.inflate(data);
        if content.None? then Err(InflateFailed)
        else if |content.value| != e.uncompressedSize then Err(SizeMismatch)
        else Ok(content.value)
      else Err(UnsupportedMethod)
  }

  datatype ArchiveEntry = ArchiveEntry(path: Bytes, executable: bool, compressedSize: nat, uncompressedSize: nat)

  method ListArchiveEntries(s: Bytes) returns (r: Result<seq<ArchiveEntry>, Error>)
    ensures r.Ok? <==> Parsed(s).Ok?
    ensures r.Err? ==> r.error == Parsed(s).error
    ensures r.Ok? ==> |r.value| == |Parsed(s).value| && forall i :: 0 <= i < |r.value| ==>
      var e := Parsed(s).value[i];
      r.value[i] == ArchiveEntry(e.path, e.executable, e.compressedSize, e.uncompressedSize)
  {
    var records := ParseCentralDirectory(s);
    if records.Err? {
      return Err(records.error);
    }
    var entries: seq<ArchiveEntry> := [];
    for k := 0 to |records.value|
      invariant |entries| == k
      invariant forall i :: 0 <= i < k ==>
        var e := records.value[i];
        entries[i] == ArchiveEntry(e.path, e.executable, e.compressedSize, e.uncompressedSize)
    {
      var e := records.value[k];
      entries := entries + [ArchiveEntry(e.path, e.executable, e.compressedSize, e.uncompressedSize)];
    }
    return Ok(entries);
  }

  /** The first record of that path. */
  method FindArchiveRecord(records: seq<ArchiveRecord>, path: Bytes) returns (r: Option<ArchiveRecord>)
    ensures r.None? <==> forall e :: e in records ==> e.path != path
    ensures r.Some? ==> r.value in records && r.value.path == path
  {
    for i := 0 to |records|
      invariant forall j :: 0 <= j < i ==> records[j].path != path
    {
      if records[i].path == path {
        return Some(records[i]);
      }
    }
    return None;
  }

  /** What a file of the archive reads as; paths of a parsed archive are distinct. */
  ghost predicate ReadsAs(codec: Codec, s: Bytes, path: Bytes, r: Result<Bytes, Error>) {
    if !Safe(path) then r == Err(UnsafePath)
    else if Parsed(s).Err? then r == Err(Parsed(s).error)
    else if forall e :: e in Parsed(s).value ==> e.path != path then r == Err(NotFound)
    else exists e :: e in Parsed(s).value && e.path == path && r == EntryContent(codec, s, e)
  }

  method ReadArchiveEntryBytes(codec: Codec, s: Bytes, e: ArchiveRecord) returns (r: Result<Bytes, Error>)
    ensures r == EntryContent(codec, s, e)
    ensures DataOffset(s, e).Err? ==> r == Err(DataOffset(s, e).error)
    ensures DataOffset(s, e).Ok? ==>
      var data := s[DataOffset(s, e).value..][..e.compressedSize];
      && (r.Ok? ==> |r.value| == e.uncompressedSize)
      && (e.compression == 0 ==>
            if |data| == e.uncompressedSize then r == Ok(data) else r == Err(StoredSizeMismatch))
      && (e.compression == 8 ==>
            match codec.inflate(data)
            case None => r == Err(InflateFailed)
            case Some(content) => r == if |content| == e.uncompressedSize then Ok(content) else Err(SizeMismatch))
      && (e.compression != 0 && e.compression != 8 ==> r == Err(UnsupportedMethod))
  {
    var start := ReadLocalFileInfo(s, e);
    if start.Err? {
      return Err(start.error);
    }
    var data := s[start.value..start.value + e.compressedSize];
    assert data == s[start.value..][..e.compressedSize];
    if e.compression == STORED {
      if |data| != e.uncompressedSize {
        return Err(StoredSizeMismatch);
      }
      return Ok(data);
    }
    if e.compression == DEFLATED {
      var content := codec.inflate(data);
      if content.None? {
        return Err(InflateFailed);
      }
      if |content.value| != e.uncompressedSize {
        return Err(SizeMismatch);
      }
      return Ok(content.value);
    }
    return Err(UnsupportedMethod);
  }

  method ReadArchiveFile(codec: Codec, s: Bytes, path: Bytes) returns (r: Result<Bytes, Error>)
    ensures ReadsAs(codec, s, path, r)
    ensures !Safe(path) ==> r == Err(UnsafePath)
    ensures Safe(path) && Parsed(s).Err? ==> r == Err(Parsed(s).error)
    ensures Safe(path) && Parsed(s).Ok? && (forall e :: e in Parsed(s).value ==> e.path != path) ==> r == Err(NotFound)
    ensures Safe(path) && Parsed(s).Ok? ==>
      forall e :: e in Parsed(s).value && e.path == path ==> r == EntryContent(codec, s, e)
  {
    hide Parsed, EntryContent, Safe;
    ParsedDistinct(s);
    var safe := IsSafeRelativeArchivePath(path);
    if !safe {
      return Err(UnsafePath);
    }
    var records := ParseCentralDirectory(s);
    if records.Err? {
      return Err(records.error);
    }
    var record := FindArchiveRecord(records.value, path);
    if record.None? {
      return Err(NotFound);
    }
    r := ReadArchiveEntryBytes(codec, s, record.value);
  }
}
