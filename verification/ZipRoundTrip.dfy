/**
 What the reader makes of the archives the writer produces: the exact
 conditions for writing and for reading back, and the round trip itself.
 */
module ZipRoundTrip {
  import opened Prelude
  import opened ZipBytes
  import opened ZipFormat
  import opened ArchivePath
  import opened ZipWriter
  import opened ZipReader

  // ------------------------------------------------------- the end record

  lemma EndFields(front: Bytes, count: U16, size: U32, offset: U32)
    ensures var s := front + EndRecord(count, size, offset);
      IsEnd(s, |front|) && CheckedEnd(s, |front|) ==
        if size == U32_MAX || offset == U32_MAX then Err(Zip64) else Ok(End(offset, size, count))
  {
    var e := EndRecord(count, size, offset);
    var s := front + e;
    EndRecordAt(count, size, offset);
    Within(s, |front|, e, 0);
    Within(s, |front|, e, 4);
    Within(s, |front|, e, 6);
    Within(s, |front|, e, 8);
    Within(s, |front|, e, 10);
    Within(s, |front|, e, 12);
    Within(s, |front|, e, 16);
    Within(s, |front|, e, 20);
  }

  /** A file that ends in an end record without comment is read through it,
      whatever the bytes before look like. */
  lemma EndFound(front: Bytes, count: U16, size: U32, offset: U32)
    ensures Located(front + EndRecord(count, size, offset)) ==
      if size == U32_MAX || offset == U32_MAX then Err(Zip64) else Ok(End(offset, size, count))
  {
    EndFields(front, count, size, offset);
    assert RightmostEnd(front + EndRecord(count, size, offset), |front| + END_SIZE) == Some(|front|);
  }

  // ------------------------------------------------------- the central directory

  lemma FrontReadsBack(d: Bytes, o: nat, r: ArchiveRecord)
    requires Writable(r)
    requires o + |CentralEntry(r)| <= |d| && d[o..o + |CentralEntry(r)|] == CentralEntry(r)
    ensures FrontAt(d, o) == Front(CENTRAL_SIGNATURE, UNIX_OS * 0x100 + ZIP_VERSION, r.flags, r.compression, r.crc32,
                                   r.compressedSize, r.uncompressedSize)
  {
    var e := CentralEntry(r);
    CentralEntryAt(r);
    Within(d, o, e, 0);
    Within(d, o, e, 4);
    Within(d, o, e, 8);
    Within(d, o, e, 10);
    Within(d, o, e, 16);
    Within(d, o, e, 20);
    Within(d, o, e, 24);
  }

  lemma BackReadsBack(d: Bytes, o: nat, r: ArchiveRecord)
    requires Writable(r)
    requires o + |CentralEntry(r)| <= |d| && d[o..o + |CentralEntry(r)|] == CentralEntry(r)
    ensures BackAt(d, o + FRONT_SIZE) == Back(|r.path|, 0, 0, FileMode(r.executable) * 0x1_0000, r.localHeaderOffset)
    ensures d[o + CENTRAL_SIZE..o + CENTRAL_SIZE + |r.path|] == r.path
  {
    var e := CentralEntry(r);
    CentralEntryAt(r);
    Within(d, o, e, 28);
    Within(d, o, e, 30);
    Within(d, o, e, 32);
    Within(d, o, e, 38);
    Within(d, o, e, 42);
    assert d[o + CENTRAL_SIZE..o + CENTRAL_SIZE + |r.path|] == e[46..];
  }

  lemma ItemReadsBack(d: Bytes, o: nat, r: ArchiveRecord)
    requires Writable(r) && r.versionMadeBy == UNIX_OS * 0x100 + ZIP_VERSION
    requires o + |CentralEntry(r)| <= |d| && d[o..o + |CentralEntry(r)|] == CentralEntry(r)
    ensures ItemAt(d, o) == Ok(Item(r, FileMode(r.executable), o + |CentralEntry(r)|))
  {
    FrontReadsBack(d, o, r);
    BackReadsBack(d, o, r);
    OwnFileMode(r.executable);
    var f, b := FrontAt(d, o), BackAt(d, o + FRONT_SIZE);
    assert Mode(b) == FileMode(r.executable);
    assert ToRecord(f, b, r.path) == r;
  }

  /** A record as the writer makes it, in an archive that could be finished. */
  ghost predicate Written(r: ArchiveRecord, size: nat) {
    && Writable(r) && Safe(r.path)
    && r.versionMadeBy == UNIX_OS * 0x100 + ZIP_VERSION && r.flags == UTF8_FLAG && r.compression == DEFLATED
    && r.compressedSize < U32_MAX && r.localHeaderOffset < U32_MAX && r.localHeaderOffset < size
  }

  lemma EntryReadsBack(d: Bytes, o: nat, r: ArchiveRecord, seen: set<Bytes>, size: nat)
    requires Written(r, size) && r.path !in seen
    requires o + |CentralEntry(r)| <= |d| && d[o..o + |CentralEntry(r)|] == CentralEntry(r)
    ensures ParsedEntry(d, o, seen, size) ==
      if r.uncompressedSize == U32_MAX then Err(Zip64) else Ok(Item(r, FileMode(r.executable), o + |CentralEntry(r)|))
  {
    OwnFileMode(r.executable);
    ItemReadsBack(d, o, r);
  }

  lemma {:induction false} DirectoryPrefix(records: seq<ArchiveRecord>, k: nat, n: nat)
    requires k <= n <= |records|
    ensures |Directory(records, k)| <= |Directory(records, n)|
    ensures Directory(records, n)[..|Directory(records, k)|] == Directory(records, k)
    decreases n
  {
    hide CentralEntry;
    if k < n {
      DirectoryPrefix(records, k, n - 1);
    }
  }

  lemma EntryInDirectory(records: seq<ArchiveRecord>, k: nat)
    requires k < |records|
    ensures var d, o, e := Directory(records, |records|), |Directory(records, k)|, CentralEntry(records[k]);
      o + |e| <= |d| && d[o..o + |e|] == e && o + |e| == |Directory(records, k + 1)|
  {
    var d, e := Directory(records, |records|), CentralEntry(records[k]);
    DirectoryPrefix(records, k + 1, |records|);
    var part := Directory(records, k + 1);
    assert part == Directory(records, k) + e;
    assert d[..|part|] == part;
    assert d[|Directory(records, k)|..|part|] == part[|Directory(records, k)|..];
  }

  /** `d` from `o` on is the entries of these records and nothing else. */
  ghost predicate LaidOut(d: Bytes, o: nat, records: seq<ArchiveRecord>)
    decreases |records|
  {
    if records == [] then o == |d|
    else
      var e := CentralEntry(records[0]);
      o + |e| <= |d| && d[o..o + |e|] == e && LaidOut(d, o + |e|, records[1..])
  }

  lemma {:induction false} DirectoryLaidOut(records: seq<ArchiveRecord>, k: nat)
    requires k <= |records|
    ensures LaidOut(Directory(records, |records|), |Directory(records, k)|, records[k..])
    decreases |records| - k
  {
    hide CentralEntry;
    if k < |records| {
      EntryInDirectory(records, k);
      DirectoryLaidOut(records, k + 1);
      assert records[k..][0] == records[k] && records[k..][1..] == records[k + 1..];
    }
  }

  predicate NoMarker(records: seq<ArchiveRecord>) {
    forall r :: r in records ==> r.uncompressedSize != U32_MAX
  }

  /** Written entries parse back to their records, unless one of them has the
      uncompressed size that stands for ZIP64. */
  lemma {:induction false} EntriesReadBack(d: Bytes, o: nat, records: seq<ArchiveRecord>, seen: set<Bytes>, size: nat)
    requires o <= |d| && LaidOut(d, o, records) && DistinctRecords(records)
    requires forall r :: r in records ==> Written(r, size) && r.path !in seen
    ensures ParsedEntries(d, o, |records|, seen, size) == if NoMarker(records) then Ok(records) else Err(Zip64)
    decreases |records|
  {
    hide CentralEntry, ItemAt, Refusal, Safe, Writable;
    if records != [] {
      var r, rest := records[0], records[1..];
      var next := o + |CentralEntry(r)|;
      EntryReadsBack(d, o, r, seen, size);
      RestFresh(records, seen, size);
      hide Written, DistinctRecords, NoMarker;
      EntriesReadBack(d, next, rest, seen + {r.path}, size);
      assert records == [r] + rest;
      hide LaidOut, ParsedEntry;
    }
  }

  lemma RestFresh(records: seq<ArchiveRecord>, seen: set<Bytes>, size: nat)
    requires records != [] && DistinctRecords(records)
    requires forall r :: r in records ==> Written(r, size) && r.path !in seen
    ensures var first, rest := records[0], records[1..];
      && DistinctRecords(rest)
      && (forall r :: r in rest ==> Written(r, size) && r.path !in seen + {first.path})
      && (NoMarker(records) <==> first.uncompressedSize != U32_MAX && NoMarker(rest))
  {
    var first, rest := records[0], records[1..];
    hide Written;
    assert records == [first] + rest;
    forall i | 0 <= i < |rest| ensures rest[i] == records[i + 1] && rest[i].path != first.path {
    }
  }

  // ------------------------------------------------------- one entry's data

  lemma LocalReadsBack(s: Bytes, o: nat, name: Bytes, crc: U32, compressed: U32, uncompressed: U32)
    requires |name| <= U16_MAX
    requires o + LOCAL_SIZE + |name| <= |s|
    requires s[o..o + LOCAL_SIZE + |name|] == LocalHeader(name, crc, compressed, uncompressed)
    ensures LocalAt(s, o) == Local(LOCAL_SIGNATURE, UTF8_FLAG, DEFLATED, crc, compressed, uncompressed, |name|, 0)
    ensures s[o + LOCAL_SIZE..o + LOCAL_SIZE + |name|] == name
  {
    var h := LocalHeader(name, crc, compressed, uncompressed);
    LocalHeaderAt(name, crc, compressed, uncompressed);
    Within(s, o, h, 0);
    Within(s, o, h, 6);
    Within(s, o, h, 8);
    Within(s, o, h, 14);
    Within(s, o, h, 18);
    Within(s, o, h, 22);
    Within(s, o, h, 26);
    Within(s, o, h, 28);
    assert s[o + LOCAL_SIZE..o + LOCAL_SIZE + |name|] == h[30..];
  }

  lemma Pieces(s: Bytes, o: nat, a: Bytes, b: Bytes)
    requires o + |a| + |b| <= |s| && s[o..o + |a| + |b|] == a + b
    ensures s[o..o + |a|] == a && s[o + |a|..o + |a| + |b|] == b
  {
    var whole := s[o..o + |a| + |b|];
    assert whole[..|a|] == a && whole[|a|..] == b;
    assert s[o..o + |a|] == whole[..|a|] && s[o + |a|..o + |a| + |b|] == whole[|a|..];
  }

  lemma HeaderAgrees(s: Bytes, o: nat, name: Bytes, crc: U32, compressed: U32, uncompressed: U32, e: ArchiveRecord)
    requires |name| <= U16_MAX
    requires o + LOCAL_SIZE + |name| + compressed <= |s|
    requires s[o..o + LOCAL_SIZE + |name|] == LocalHeader(name, crc, compressed, uncompressed)
    requires e.path == name && e.crc32 == crc && e.compressedSize == compressed && e.uncompressedSize == uncompressed
    requires e.compression == DEFLATED && e.localHeaderOffset == o
    ensures DataOffset(s, e) == Ok(o + LOCAL_SIZE + |name|)
  {
    LocalReadsBack(s, o, name, crc, compressed, uncompressed);
  }

  /** The local header in place agrees with the record, and the data behind it
      is the deflated content: whatever the CRC function, which is never
      applied again. */
  lemma ContentReadsBack(codec: Codec, s: Bytes, o: nat, f: SourceFile)
    requires Lossless(codec) && Deflatable(codec, f) && |f.path| <= U16_MAX
    requires o + |LocalPart(codec, f)| <= |s| && s[o..o + |LocalPart(codec, f)|] == LocalPart(codec, f)
    ensures EntryContent(codec, s, RecordOf(codec, f, o)) == Ok(f.content)
  {
    var data := codec.deflate(f.content);
    var h := LocalHeader(f.path, codec.crc32(f.content), |data|, |f.content|);
    assert LocalPart(codec, f) == h + data;
    hide LocalHeader, LocalPart;
    Pieces(s, o, h, data);
    HeaderAgrees(s, o, f.path, codec.crc32(f.content), |data|, |f.content|, RecordOf(codec, f, o));
  }

  lemma {:induction false} LocalsGrow(codec: Codec, files: seq<SourceFile>, k: nat, n: nat)
    requires k <= n <= |files|
    ensures |Locals(codec, files, k)| <= |Locals(codec, files, n)|
    ensures Locals(codec, files, n)[..|Locals(codec, files, k)|] == Locals(codec, files, k)
    decreases n
  {
    hide LocalPart;
    if k < n {
      LocalsGrow(codec, files, k, n - 1);
    }
  }

  lemma LocalInArchive(codec: Codec, files: seq<SourceFile>, k: nat, back: Bytes)
    requires k < |files|
    ensures var s, o, part := Locals(codec, files, |files|) + back, |Locals(codec, files, k)|,
        LocalPart(codec, files[k]);
      o + |part| <= |s| && s[o..o + |part|] == part
  {
    var all, before, part := Locals(codec, files, |files|), Locals(codec, files, k), LocalPart(codec, files[k]);
    LocalsGrow(codec, files, k + 1, |files|);
    assert all[..|before| + |part|] == before + part;
    assert (all + back)[0..|before| + |part|] == all[..|before| + |part|];
    Pieces(all + back, 0, before, part);
  }

  // ------------------------------------------------------- sizes

  /** A sum over files that does not depend on their order. */
  function Total(weight: SourceFile -> nat, files: seq<SourceFile>): (n: nat) {
    if files == [] then 0 else weight(files[0]) + Total(weight, files[1..])
  }

  lemma {:induction false} TotalInsert(weight: SourceFile -> nat, f: SourceFile, files: seq<SourceFile>)
    ensures Total(weight, Insert(f, files)) == weight(f) + Total(weight, files)
  {
    if files != [] && !Before(f.path, files[0].path) {
      TotalInsert(weight, f, files[1..]);
      assert Insert(f, files)[1..] == Insert(f, files[1..]);
    } else {
      assert Insert(f, files)[1..] == files;
    }
  }

  lemma {:induction false} TotalSorted(weight: SourceFile -> nat, files: seq<SourceFile>)
    ensures Total(weight, SortByPath(files)) == Total(weight, files)
  {
    if files != [] {
      TotalSorted(weight, files[1..]);
      TotalInsert(weight, files[0], SortByPath(files[1..]));
    }
  }

  lemma {:induction false} TotalSnoc(weight: SourceFile -> nat, files: seq<SourceFile>, f: SourceFile)
    ensures Total(weight, files + [f]) == Total(weight, files) + weight(f)
  {
    if files == [] {
      assert [] + [f] == [f] && [f][1..] == [];
    } else {
      assert (files + [f])[1..] == files[1..] + [f];
      TotalSnoc(weight, files[1..], f);
    }
  }

  function LocalWeight(codec: Codec): (w: SourceFile -> nat) {
    (f: SourceFile) => LOCAL_SIZE + |f.path| + |codec.deflate(f.content)|
  }

  function DirectoryWeight(): (w: SourceFile -> nat) {
    (f: SourceFile) => CENTRAL_SIZE + |f.path|
  }

  lemma {:induction false} LocalsLength(codec: Codec, files: seq<SourceFile>, k: nat)
    requires k <= |files|
    ensures |Locals(codec, files, k)| == Total(LocalWeight(codec), files[..k])
  {
    if k > 0 {
      LocalsLength(codec, files, k - 1);
      assert files[..k] == files[..k - 1] + [files[k - 1]];
      TotalSnoc(LocalWeight(codec), files[..k - 1], files[k - 1]);
    }
  }

  lemma {:induction false} DirectoryLength(codec: Codec, files: seq<SourceFile>, k: nat)
    requires k <= |files|
    ensures |Directory(Records(codec, files, |files|), k)| == Total(DirectoryWeight(), files[..k])
  {
    if k > 0 {
      DirectoryLength(codec, files, k - 1);
      assert files[..k] == files[..k - 1] + [files[k - 1]];
      TotalSnoc(DirectoryWeight(), files[..k - 1], files[k - 1]);
      RecordAt(codec, files, k - 1, |files|);
    }
  }

  /** The lengths of the two parts of an archive, from the files in any order. */
  lemma PartLengths(codec: Codec, files: seq<SourceFile>)
    ensures var entries := SortByPath(files);
      && |Locals(codec, entries, |entries|)| == Total(LocalWeight(codec), files)
      && |Directory(Records(codec, entries, |entries|), |entries|)| == Total(DirectoryWeight(), files)
  {
    var entries := SortByPath(files);
    assert entries[..|entries|] == entries;
    LocalsLength(codec, entries, |entries|);
    DirectoryLength(codec, entries, |entries|);
    TotalSorted(LocalWeight(codec), files);
    TotalSorted(DirectoryWeight(), files);
  }

  // ------------------------------------------------------- when an archive can be written

  ghost predicate CanBeWritten(codec: Codec, files: seq<SourceFile>) {
    && (forall f :: f in files ==> Collectable(f) && Deflatable(codec, f))
    && DistinctPaths(files)
    && (exists f :: f in files && f.path == MANIFEST_PATH)
    && Total(LocalWeight(codec), files) <= U32_MAX
    && Total(DirectoryWeight(), files) <= U32_MAX
    && |files| <= U16_MAX
  }

  /** An archive is written exactly for distinct safe paths with a manifest,
      when every size, the two totals and the count fit their fields. */
  lemma WrittenExactly(codec: Codec, files: seq<SourceFile>)
    ensures Created(codec, files).Ok? <==> CanBeWritten(codec, files)
  {
    hide CentralEntry, EndRecord, LocalPart, RecordOf, Total, Collectable, CollectError;
    CollectErrorMeans(files, {});
    PartLengths(codec, files);
    SameMembers(SortByPath(files), files);
  }

  /** Why there is no archive of files that can all be collected: no manifest; a
      file whose deflated data is too long; or too many bytes or files. */
  lemma RefusedExactly(codec: Codec, files: seq<SourceFile>)
    ensures CollectError(files, {}).Some? ==> Created(codec, files) == Err(CollectError(files, {}).value)
    ensures CollectError(files, {}).None? ==>
      var manifest := exists f :: f in files && f.path == MANIFEST_PATH;
      var deflatable := forall f :: f in files ==> |codec.deflate(f.content)| <= 0xffff_ffff;
      var fits := Total(LocalWeight(codec), files) <= 0xffff_ffff && Total(DirectoryWeight(), files) <= 0xffff_ffff
          && |files| <= 0xffff;
      && (Created(codec, files) == Err(MissingManifest) <==> !manifest)
      && (Created(codec, files) == Err(FileTooLarge) <==> manifest && !deflatable)
      && (Created(codec, files) == Err(Zip64) <==> manifest && deflatable && !fits)
      && (Created(codec, files).Ok? <==> manifest && deflatable && fits)
  {
    hide CentralEntry, EndRecord, LocalPart, RecordOf, Total, CollectError, MANIFEST_PATH, Locals, Records, Directory,
         SortByPath, Safe;
    if CollectError(files, {}).None? {
      CollectErrorMeans(files, {});
      PartLengths(codec, files);
      var entries := SortByPath(files);
      SameMembers(entries, files);
      assert Created(codec, files) == ArchiveOf(codec, entries);
      hide Created;
      assert (exists f :: f in entries && !Deflatable(codec, f)) <==>
             !(forall f :: f in files ==> |codec.deflate(f.content)| <= 0xffff_ffff);
      hide Deflatable, DistinctPaths, Collectable;
    }
  }

  // ------------------------------------------------------- when it can be read back

  /** No size and no offset has the one 32-bit value that stands for ZIP64. */
  ghost predicate CanBeRead(codec: Codec, files: seq<SourceFile>) {
    && (forall f :: f in files ==> |f.content| != U32_MAX)
    && Total(LocalWeight(codec), files) != U32_MAX
    && Total(DirectoryWeight(), files) != U32_MAX
  }

  lemma WrittenRecord(codec: Codec, files: seq<SourceFile>, size: nat, i: nat)
    requires i < |files| && Collectable(files[i]) && Deflatable(codec, files[i])
    requires |Locals(codec, files, |files|)| <= U32_MAX && |Locals(codec, files, |files|)| < size
    ensures var r := Records(codec, files, |files|)[i];
      r == RecordOf(codec, files[i], |Locals(codec, files, i)|) && Written(r, size)
  {
    hide LocalPart, Safe;
    RecordAt(codec, files, i, |files|);
    LocalsGrow(codec, files, i + 1, |files|);
    assert Locals(codec, files, i + 1) == Locals(codec, files, i) + LocalPart(codec, files[i]);
  }

  lemma WrittenRecords(codec: Codec, files: seq<SourceFile>, size: nat)
    requires forall f :: f in files ==> Collectable(f) && Deflatable(codec, f)
    requires DistinctPaths(files)
    requires |Locals(codec, files, |files|)| <= U32_MAX && |Locals(codec, files, |files|)| < size
    ensures var records := Records(codec, files, |files|);
      && (forall r :: r in records ==> Written(r, size)) && DistinctRecords(records)
      && (NoMarker(records) <==> forall f :: f in files ==> |f.content| != U32_MAX)
  {
    hide Locals, Records, Written, Collectable, Deflatable;
    var records := Records(codec, files, |files|);
    forall i | 0 <= i < |files|
      ensures records[i] == RecordOf(codec, files[i], |Locals(codec, files, i)|) && Written(records[i], size)
    {
      assert files[i] in files;
      WrittenRecord(codec, files, size, i);
    }
    if NoMarker(records) {
      forall f | f in files ensures |f.content| != U32_MAX {
        var i :| 0 <= i < |files| && files[i] == f;
        assert records[i] in records;
      }
    }
  }

  lemma SortedDistinct(files: seq<SourceFile>)
    requires DistinctPaths(files)
    ensures Ordered(SortByPath(files)) && DistinctPaths(SortByPath(files))
  {
    var entries := SortByPath(files);
    SortOrdered(files);
    forall i, j | 0 <= i < j < |entries| ensures entries[i].path != entries[j].path {
      BeforeTotal(entries[i].path, entries[j].path);
    }
  }

  /** The three parts of an archive. */
  lemma Image(codec: Codec, files: seq<SourceFile>)
    ensures Created(codec, files).Ok? ==>
      var entries := SortByPath(files);
      var n := |entries|;
      var locals, directory := Locals(codec, entries, n), Directory(Records(codec, entries, n), n);
      && n <= U16_MAX && |locals| <= U32_MAX && |directory| <= U32_MAX
      && Created(codec, files).value == locals + directory + EndRecord(n, |directory|, |locals|)
  {
    hide EndRecord, Locals, Records, Directory, CollectError, SortByPath, Deflatable;
  }

  lemma ParsesImage(records: seq<ArchiveRecord>, locals: Bytes)
    requires |records| <= U16_MAX && |locals| <= U32_MAX && |Directory(records, |records|)| <= U32_MAX
    requires DistinctRecords(records)
    requires var directory := Directory(records, |records|);
      forall r :: r in records ==> Written(r, |locals| + |directory| + END_SIZE)
    ensures var directory := Directory(records, |records|);
      Parsed(locals + directory + EndRecord(|records|, |directory|, |locals|)) ==
        if NoMarker(records) && |locals| != U32_MAX && |directory| != U32_MAX then Ok(records) else Err(Zip64)
  {
    hide Directory, EndRecord, Located, ParsedEntries, Written, NoMarker;
    var directory := Directory(records, |records|);
    var s := locals + directory + EndRecord(|records|, |directory|, |locals|);
    DirectoryLaidOut(records, 0);
    assert records[0..] == records;
    assert Directory(records, 0) == [] by { DirectoryStart(records); }
    EntriesReadBack(directory, 0, records, {}, |s|);
    EndFound(locals + directory, |records|, |directory|, |locals|);
    assert s[|locals|..|locals| + |directory|] == directory;
  }

  lemma DirectoryStart(records: seq<ArchiveRecord>)
    ensures Directory(records, 0) == []
  {
  }

  /** What was written parses back to the same records in path order, or is
      taken for ZIP64: exactly when a size or offset is the marker value. */
  lemma ParsesBack(codec: Codec, files: seq<SourceFile>)
    ensures Created(codec, files).Ok? ==>
      Parsed(Created(codec, files).value) ==
        if CanBeRead(codec, files) then Ok(Records(codec, SortByPath(files), |files|)) else Err(Zip64)
  {
    hide Created, Directory, EndRecord, Records, Locals, Total, SortByPath, Parsed, Written, NoMarker, Collectable,
        Deflatable;
    if Created(codec, files).Ok? {
      var entries, s := SortByPath(files), Created(codec, files).value;
      var records := Records(codec, entries, |entries|);
      WrittenExactly(codec, files);
      PartLengths(codec, files);
      SameMembers(entries, files);
      SortedDistinct(files);
      Image(codec, files);
      WrittenRecords(codec, entries, |s|);
      ParsesImage(records, Locals(codec, entries, |entries|));
    }
  }

  lemma EntryRoundTrip(codec: Codec, files: seq<SourceFile>, i: nat)
    requires Lossless(codec) && i < |SortByPath(files)|
    ensures Created(codec, files).Ok? ==>
      var entries, s := SortByPath(files), Created(codec, files).value;
      EntryContent(codec, s, RecordOf(codec, entries[i], |Locals(codec, entries, i)|)) == Ok(entries[i].content)
  {
    hide Created, Directory, EndRecord, Records, Locals, LocalPart, Total, SortByPath, EntryContent, RecordOf, Safe;
    if Created(codec, files).Ok? {
      var entries, s := SortByPath(files), Created(codec, files).value;
      WrittenExactly(codec, files);
      SameMembers(entries, files);
      Image(codec, files);
      assert entries[i] in entries;
      var n := |entries|;
      var directory := Directory(Records(codec, entries, n), n);
      var end := EndRecord(n, |directory|, |Locals(codec, entries, n)|);
      AppendAssociates(Locals(codec, entries, n), directory, end);
      LocalInArchive(codec, entries, i, directory + end);
      ContentReadsBack(codec, s, |Locals(codec, entries, i)|, entries[i]);
    }
  }

  /** The round trip. What CreateArchive wrote lists exactly the files given to
      it, sorted by path, with their executable bits and sizes, and every one
      of them reads back as its content, whatever CRC function was used. */
  lemma RoundTrip(codec: Codec, files: seq<SourceFile>)
    requires Lossless(codec) && Created(codec, files).Ok? && CanBeRead(codec, files)
    ensures var entries, parsed := SortByPath(files), Parsed(Created(codec, files).value);
      && Ordered(entries) && multiset(entries) == multiset(files)
      && parsed.Ok? && |parsed.value| == |entries|
      && forall i :: 0 <= i < |entries| ==>
           && parsed.value[i].path == entries[i].path && parsed.value[i].executable == entries[i].executable
           && parsed.value[i].uncompressedSize == |entries[i].content|
           && parsed.value[i].compressedSize == |codec.deflate(entries[i].content)|
    ensures forall f, r :: f in files ==>
        (ReadsAs(codec, Created(codec, files).value, f.path, r) <==> r == Ok(f.content))
  {
    hide Created, Directory, EndRecord, Records, Locals, Total, SortByPath, EntryContent, Parsed, Safe;
    var entries, s := SortByPath(files), Created(codec, files).value;
    var records := Records(codec, entries, |entries|);
    WrittenExactly(codec, files);
    ParsesBack(codec, files);
    SortedDistinct(files);
    SameMembers(entries, files);
    forall i | 0 <= i < |entries|
      ensures records[i] == RecordOf(codec, entries[i], |Locals(codec, entries, i)|)
      ensures EntryContent(codec, s, records[i]) == Ok(entries[i].content)
    {
      RecordAt(codec, entries, i, |entries|);
      EntryRoundTrip(codec, files, i);
    }
    forall f, r | f in files ensures ReadsAs(codec, s, f.path, r) <==> r == Ok(f.content) {
      var i :| 0 <= i < |entries| && entries[i] == f;
      assert records[i] in records && records[i].path == f.path;
      forall e | e in records && e.path == f.path ensures e == records[i] {
        var j :| 0 <= j < |records| && records[j] == e;
        assert records[j].path == entries[j].path;
      }
    }
  }

  // ------------------------------------------------------- an archive that cannot be read

  function Zeros(n: nat): (r: Bytes)
    ensures |r| == n
  {
    seq(n, i => 0)
  }

  /** A lossless codec that is good at one content. */
  function ShortCodec(content: Bytes): (c: Codec) {
    Codec((x: Bytes) => if x == content then [0] else [1] + x,
          (y: Bytes) => if y == [0] then Some(content) else if y != [] && y[0] == 1 then Some(y[1..]) else None,
          (x: Bytes) => 0)
  }

  lemma ShortCodecLossless(content: Bytes)
    ensures Lossless(ShortCodec(content))
  {
    var c := ShortCodec(content);
    forall x ensures c.inflate(c.deflate(x)) == Some(x) {
      assert ([1] + x)[1..] == x && ([1] + x)[0] == 1;
    }
  }

  lemma ManifestBytes()
    ensures var name := "META/manifest.json";
      |MANIFEST_PATH| == |name| && forall i :: 0 <= i < |name| ==> MANIFEST_PATH[i] == name[i] as int
    ensures |MANIFEST_PATH| == 18 && BACKSLASH !in MANIFEST_PATH && !IsWindowsDrivePrefix(MANIFEST_PATH)
    ensures MANIFEST_PATH[4] == SLASH && forall i :: 0 <= i < 18 && i != 4 ==>
        MANIFEST_PATH[i] > SLASH || MANIFEST_PATH[i] == DOT
  {
    assert BACKSLASH !in MANIFEST_PATH[..9] && BACKSLASH !in MANIFEST_PATH[9..];
    assert MANIFEST_PATH == MANIFEST_PATH[..9] + MANIFEST_PATH[9..];
  }

  lemma ManifestIsSafe()
    ensures Safe(MANIFEST_PATH)
  {
    hide MANIFEST_PATH;
    ManifestBytes();
    var p := MANIFEST_PATH;
    assert Find(p, SLASH, 0) == 4 && Find(p, SLASH, 5) == |p|;
    assert Components(p, 5) == [p[5..]];
    assert Components(p, 0) == [p[0..4]] + Components(p, 5);
    assert |p[0..4]| == 4 && |p[5..]| == 13;
  }

  /** A file of 2^32 - 1 bytes is packed without complaint, and then no entry of
      the archive can be read. */
  lemma MarkerSizeIsLost()
    ensures var content := Zeros(U32_MAX);
      var codec, files := ShortCodec(content), [SourceFile(MANIFEST_PATH, false, content)];
      Lossless(codec) && Created(codec, files).Ok? && Parsed(Created(codec, files).value) == Err(Zip64)
  {
    hide Created, Parsed, Safe;
    var content := Zeros(U32_MAX);
    var codec, f := ShortCodec(content), SourceFile(MANIFEST_PATH, false, content);
    ShortCodecLossless(content);
    ManifestIsSafe();
    assert [f][1..] == [];
    assert Total(LocalWeight(codec), [f]) == LOCAL_SIZE + |f.path| + 1;
    assert Total(DirectoryWeight(), [f]) == CENTRAL_SIZE + |f.path|;
    assert f in [f];
    WrittenExactly(codec, [f]);
    ParsesBack(codec, [f]);
  }
}
