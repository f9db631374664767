/**
 CreateArchive: the files of a package directory become local entries, a
 central directory and an end record. Deflate and CRC-32 are parameters.
 */
module ZipWriter {
  import opened Prelude
  import opened ZipBytes
  import opened ZipFormat
  import opened ArchivePath

  /** zlib as the archive code uses it; `inflate` fails on what is not exactly
      one deflate stream. */
  datatype Codec = Codec(deflate: Bytes -> Bytes, inflate: Bytes -> Option<Bytes>, crc32: Bytes -> U32)

  ghost predicate Lossless(codec: Codec) {
    forall x :: codec.inflate(codec.deflate(x)) == Some(x)
  }

  /** A regular file below the package directory, by its relative path. */
  datatype SourceFile = SourceFile(path: Bytes, executable: bool, content: Bytes)

  const MANIFEST_PATH: Bytes := [77, 69, 84, 65, 47, 109, 97, 110, 105, 102, 101, 115, 116, 46, 106, 115, 111, 110]

  // ------------------------------------------------------- collecting and sorting

  /** Sorted by path, without repetition. */
  predicate Ordered(files: seq<SourceFile>) {
    forall i, j :: 0 <= i < j < |files| ==> Before(files[i].path, files[j].path)
  }

  predicate DistinctPaths(files: seq<SourceFile>) {
    forall i, j :: 0 <= i < j < |files| ==> files[i].path != files[j].path
  }

  predicate Collectable(f: SourceFile) {
    Safe(f.path) && |f.path| <= U16_MAX && |f.content| <= U32_MAX
  }

  function Insert(f: SourceFile, files: seq<SourceFile>): (r: seq<SourceFile>)
    ensures multiset(r) == multiset(files) + multiset{f}
  {
    if files == [] then [f]
    else if Before(f.path, files[0].path) then [f] + files
    else
      assert files == [files[0]] + files[1..];
      [files[0]] + Insert(f, files[1..])
  }

  /** The files in path order; with distinct paths there is only one such order. */
  function SortByPath(files: seq<SourceFile>): (r: seq<SourceFile>)
    ensures multiset(r) == multiset(files)
  {
    if files == [] then []
    else
      assert files == [files[0]] + files[1..];
      Insert(files[0], SortByPath(files[1..]))
  }

  lemma SameMembers<T>(a: seq<T>, b: seq<T>)
    requires multiset(a) == multiset(b)
    ensures |a| == |b|
    ensures forall x :: x in a <==> x in b
  {
    assert |multiset(a)| == |multiset(b)|;
    forall x ensures x in a <==> x in b {
      assert x in multiset(a) <==> x in multiset(b);
    }
  }

  lemma OrderedCons(f: SourceFile, files: seq<SourceFile>)
    requires Ordered(files)
    requires forall g :: g in files ==> Before(f.path, g.path)
    ensures Ordered([f] + files)
  {
  }

  lemma {:induction false} InsertOrdered(f: SourceFile, files: seq<SourceFile>)
    requires Ordered(files)
    requires forall g :: g in files ==> g.path != f.path
    ensures Ordered(Insert(f, files))
  {
    if files != [] {
      BeforeTotal(f.path, files[0].path);
      var rest := files[1..];
      assert forall i :: 0 <= i < |rest| ==> Before(files[0].path, files[i + 1].path) && rest[i] == files[i + 1];
      if Before(f.path, files[0].path) {
        forall g | g in rest ensures Before(f.path, g.path) {
          BeforeTransitive(f.path, files[0].path, g.path);
        }
        assert forall g :: g in files ==> g == files[0] || g in rest;
        OrderedCons(f, files);
      } else {
        InsertOrdered(f, rest);
        SameMembers(Insert(f, rest), rest + [f]);
        OrderedCons(files[0], Insert(f, rest));
      }
    }
  }

  lemma {:induction false} SortOrdered(files: seq<SourceFile>)
    requires DistinctPaths(files)
    ensures Ordered(SortByPath(files))
  {
    if files != [] {
      SortOrdered(files[1..]);
      SameMembers(SortByPath(files[1..]), files[1..]);
      InsertOrdered(files[0], SortByPath(files[1..]));
    }
  }

  /** The first complaint about the files in directory order. */
  function CollectError(files: seq<SourceFile>, seen: set<Bytes>): (r: Option<Error>)
    decreases |files|
  {
    if files == [] then None
    else
      var f := files[0];
      if !Safe(f.path) then Some(UnsafePath)
      else if f.path in seen then Some(DuplicatePath)
      else if |f.path| > U16_MAX then Some(PathTooLong)
      else if |f.content| > U32_MAX then Some(FileTooLarge)
      else CollectError(files[1..], seen + {f.path})
  }

  lemma {:induction false} CollectErrorMeans(files: seq<SourceFile>, seen: set<Bytes>)
    ensures CollectError(files, seen).None? <==>
      && (forall f :: f in files ==> Collectable(f) && f.path !in seen)
      && DistinctPaths(files)
    decreases |files|
  {
    if files != [] {
      var f, rest := files[0], files[1..];
      CollectErrorMeans(rest, seen + {f.path});
      assert forall g :: g in files <==> g == f || g in rest;
      if CollectError(files, seen).None? {
        forall i, j | 0 <= i < j < |files| ensures files[i].path != files[j].path {
          if i == 0 {
            assert files[j] in rest;
          } else {
            assert rest[i - 1].path != rest[j - 1].path;
          }
        }
      } else if Collectable(f) && f.path !in seen && DistinctPaths(files) {
        assert DistinctPaths(rest);
        forall g | g in rest ensures g.path != f.path {
          var j :| 0 <= j < |rest| && rest[j] == g;
          assert files[j + 1] == g;
        }
      }
    }
  }

  /** What can be said against a file that comes after others. */
  predicate Objects(x: Error, f: SourceFile, seen: set<Bytes>) {
    match x
    case UnsafePath => !Safe(f.path)
    case DuplicatePath => f.path in seen
    case PathTooLong => |f.path| > 0xffff
    case FileTooLarge => |f.content| > 0xffff_ffff
    case _ => false
  }

  function ObjectionOrder(x: Error): (n: nat) {
    match x
    case UnsafePath => 0
    case DuplicatePath => 1
    case PathTooLong => 2
    case _ => 3
  }

  function SourcePaths(files: seq<SourceFile>): (r: set<Bytes>) { set f | f in files :: f.path }

  lemma SourcePathsCons(f: SourceFile, rest: seq<SourceFile>, seen: set<Bytes>)
    ensures seen + SourcePaths([f] + rest) == seen + {f.path} + SourcePaths(rest)
  {
    assert f in [f] + rest && forall g :: g in rest ==> g in [f] + rest;
  }

  /** A complaint is about the first file that cannot be taken after those before
      it, and is the first there is about that file. */
  lemma {:induction false} CollectComplains(files: seq<SourceFile>, seen: set<Bytes>) returns (k: nat)
    ensures CollectError(files, seen).Some? ==>
      var x := CollectError(files, seen).value;
      && k < |files| && CollectError(files[..k], seen).None?
      && Objects(x, files[k], seen + SourcePaths(files[..k]))
      && forall y :: Objects(y, files[k], seen + SourcePaths(files[..k])) ==> ObjectionOrder(x) <= ObjectionOrder(y)
    decreases |files|
  {
    k := 0;
    if files != [] && CollectError(files, seen).Some? {
      var f, rest := files[0], files[1..];
      assert files[..0] == [] && seen + SourcePaths([]) == seen;
      if Collectable(f) && f.path !in seen {
        var n := CollectComplains(rest, seen + {f.path});
        k := n + 1;
        assert files[..k][0] == f && files[..k][1..] == rest[..n];
        assert files[..k] == [f] + rest[..n];
        SourcePathsCons(f, rest[..if n < |rest| then n else 0], seen);
        hide Objects, Safe, SourcePaths;
      }
    }
  }

  method CollectSourceEntries(files: seq<SourceFile>) returns (r: Result<seq<SourceFile>, Error>)
    ensures CollectError(files, {}).Some? ==> r == Err(CollectError(files, {}).value)
    ensures CollectError(files, {}).None? ==> r == Ok(SortByPath(files))
  {
    var seen: set<Bytes> := {};
    for i := 0 to |files|
      invariant CollectError(files, {}) == CollectError(files[i..], seen)
    {
      var f := files[i];
      assert files[i..][0] == f && files[i..][1..] == files[i + 1..];
      var safe := IsSafeRelativeArchivePath(f.path);
      if !safe {
        return Err(UnsafePath);
      }
      if f.path in seen {
        return Err(DuplicatePath);
      }
      seen := seen + {f.path};
      if |f.path| > U16_MAX {
        return Err(PathTooLong);
      }
      if |f.content| > U32_MAX {
        return Err(FileTooLarge);
      }
    }
    return Ok(SortByPath(files));
  }

  // ------------------------------------------------------- what is written

  function LocalPart(codec: Codec, f: SourceFile): (r: Bytes)
    ensures |r| == LOCAL_SIZE + |f.path| + |codec.deflate(f.content)|
  {
    LocalHeader(f.path, codec.crc32(f.content), |codec.deflate(f.content)|, |f.content|) + codec.deflate(f.content)
  }

  function RecordOf(codec: Codec, f: SourceFile, offset: nat): (r: ArchiveRecord) {
    ArchiveRecord(f.path, f.executable, |codec.deflate(f.content)|, |f.content|, offset, codec.crc32(f.content),
                  DEFLATED, UTF8_FLAG, UNIX_OS * 0x100 + ZIP_VERSION)
  }

  /** The local entries of the first `k` files. */
  function Locals(codec: Codec, files: seq<SourceFile>, k: nat): (r: Bytes)
    requires k <= |files|
  {
    if k == 0 then [] else Locals(codec, files, k - 1) + LocalPart(codec, files[k - 1])
  }

  function Records(codec: Codec, files: seq<SourceFile>, k: nat): (r: seq<ArchiveRecord>)
    requires k <= |files|
    ensures |r| == k
  {
    if k == 0 then []
    else Records(codec, files, k - 1) + [RecordOf(codec, files[k - 1], |Locals(codec, files, k - 1)|)]
  }

  lemma {:induction false} RecordAt(codec: Codec, files: seq<SourceFile>, i: nat, k: nat)
    requires i < k <= |files|
    ensures Records(codec, files, k)[i] == RecordOf(codec, files[i], |Locals(codec, files, i)|)
    decreases k
  {
    var before := Records(codec, files, k - 1);
    assert Records(codec, files, k) == before + [RecordOf(codec, files[k - 1], |Locals(codec, files, k - 1)|)];
    if i < k - 1 {
      RecordAt(codec, files, i, k - 1);
    }
  }

  /** The central directory entries of the first `k` records. */
  function Directory(records: seq<ArchiveRecord>, k: nat): (r: Bytes)
    requires k <= |records|
  {
    if k == 0 then [] else Directory(records, k - 1) + CentralEntry(records[k - 1])
  }

  predicate Deflatable(codec: Codec, f: SourceFile) {
    |f.content| <= U32_MAX && |codec.deflate(f.content)| <= U32_MAX
  }

  /** The archive of files already in order, or why there is none. */
  function ArchiveOf(codec: Codec, files: seq<SourceFile>): (r: Result<Bytes, Error>) {
    var locals, directory := Locals(codec, files, |files|), Directory(Records(codec, files, |files|), |files|);
    if forall f :: f in files ==> f.path != MANIFEST_PATH then Err(MissingManifest)
    else if exists f :: f in files && !Deflatable(codec, f) then Err(FileTooLarge)
    else if |locals| > U32_MAX || |directory| > U32_MAX || |files| > U16_MAX then Err(Zip64)
    else Ok(locals + directory + EndRecord(|files|, |directory|, |locals|))
  }

  /** The whole of CreateArchive on the files below a directory. */
  function Created(codec: Codec, files: seq<SourceFile>): (r: Result<Bytes, Error>) {
    var problem := CollectError(files, {});
    if problem.Some? then Err(problem.value) else ArchiveOf(codec, SortByPath(files))
  }

  // ------------------------------------------------------- the writer

  method WriteSizeFields(file: OutputFile, crc: U32, compressed: nat, uncompressed: nat)
    requires file.Valid()
    modifies file
    ensures file.Valid() && file.pos == old(file.pos) + 12
    ensures old(file.AtEnd()) ==>
      file.AtEnd() && file.data == old(file.data) + SizeFields(crc, compressed, uncompressed)
    ensures old(file.pos) + 12 <= old(|file.data|) ==>
      file.data == Overwritten(old(file.data), old(file.pos), SizeFields(crc, compressed, uncompressed))
  {
    file.WriteU32(crc);
    file.WriteU32(Cast32(compressed));
    file.WriteU32(Cast32(uncompressed));
  }

  method WriteLocalFileHeader(file: OutputFile, name: Bytes)
    requires file.AtEnd()
    modifies file
    ensures file.AtEnd() && file.data == old(file.data) + LocalHeader(name, 0, 0, 0)
  {
    file.WriteU32(LOCAL_SIGNATURE);
    file.WriteU16(ZIP_VERSION);
    file.WriteU16(UTF8_FLAG);
    file.WriteU16(DEFLATED);
    file.WriteU16(0);
    file.WriteU16(0);
    assert file.data == old(file.data) + LocalHead();
    WriteSizeFields(file, 0, 0, 0);
    label Tail:
    file.WriteU16(Cast16(|name|));
    file.WriteU16(0);
    file.Write(name);
    assert file.data == old@Tail(file.data) + LocalTail(name);
    AppendAssociates(old(file.data), LocalHead(), SizeFields(0, 0, 0));
    AppendAssociates(old(file.data), LocalHead() + SizeFields(0, 0, 0), LocalTail(name));
  }

  /** Replaces bytes 14 to 25 of the header and goes back to where it was. */
  method PatchLocalFileHeader(file: OutputFile, header: nat, crc: U32, compressed: nat, uncompressed: nat)
    requires file.AtEnd() && header + LOCAL_SIZE <= |file.data|
    modifies file
    ensures file.AtEnd()
    ensures file.data == Overwritten(old(file.data), header + 14, SizeFields(crc, compressed, uncompressed))
  {
    var current := file.pos;
    file.Seek(header + 14);
    WriteSizeFields(file, crc, compressed, uncompressed);
    file.Seek(current);
  }

  method WriteCentralHead(file: OutputFile, entry: ArchiveRecord)
    requires file.AtEnd()
    modifies file
    ensures file.AtEnd() && file.data == old(file.data) + CentralHead(entry)
  {
    file.WriteU32(CENTRAL_SIGNATURE);
    file.WriteU16(UNIX_OS * 0x100 + ZIP_VERSION);
    file.WriteU16(ZIP_VERSION);
    file.WriteU16(entry.flags);
    file.WriteU16(entry.compression);
    file.WriteU16(0);
    file.WriteU16(0);
    assert file.data == old(file.data) + CentralHead(entry);
  }

  method WriteCentralTail(file: OutputFile, entry: ArchiveRecord)
    requires file.AtEnd()
    modifies file
    ensures file.AtEnd() && file.data == old(file.data) + CentralTail(entry)
  {
    file.WriteU16(Cast16(|entry.path|));
    file.WriteU16(0);
    file.WriteU16(0);
    file.WriteU16(0);
    file.WriteU16(0);
    file.WriteU32(FileMode(entry.executable) * 0x1_0000);
    file.WriteU32(Cast32(entry.localHeaderOffset));
    assert file.data == old(file.data) + CentralTail(entry);
  }

  method WriteCentralDirectoryEntry(file: OutputFile, entry: ArchiveRecord)
    requires file.AtEnd()
    modifies file
    ensures file.AtEnd() && file.data == old(file.data) + CentralEntry(entry)
  {
    ghost var start, head, sizes, tail := file.data,
      CentralHead(entry), SizeFields(entry.crc32, entry.compressedSize, entry.uncompressedSize), CentralTail(entry);
    WriteCentralHead(file, entry);
    WriteSizeFields(file, entry.crc32, entry.compressedSize, entry.uncompressedSize);
    WriteCentralTail(file, entry);
    file.Write(entry.path);
    AppendAssociates(start, head, sizes);
    AppendAssociates(start, head + sizes, tail);
    AppendAssociates(start, head + sizes + tail, entry.path);
  }

  /** Patching the zeroed header in place gives the header with its sizes. */
  lemma PatchedHeader(before: Bytes, name: Bytes, body: Bytes, crc: U32, compressed: nat, uncompressed: nat)
    ensures Overwritten(before + LocalHeader(name, 0, 0, 0) + body, |before| + 14,
        SizeFields(crc, compressed, uncompressed))
         == before + (LocalHeader(name, crc, compressed, uncompressed) + body)
  {
    var zeroed := before + LocalHeader(name, 0, 0, 0) + body;
    assert zeroed == before + LocalHead() + SizeFields(0, 0, 0) + (LocalTail(name) + body);
    assert zeroed[..|before| + 14] == before + LocalHead();
    assert zeroed[|before| + 26..] == LocalTail(name) + body;
  }

  /** One entry: header with zero sizes, data, then the patch. */
  method WriteEntry(codec: Codec, file: OutputFile, entry: SourceFile) returns (r: Result<ArchiveRecord, Error>)
    requires file.AtEnd()
    modifies file
    ensures r.Err? ==> r.error == FileTooLarge && !Deflatable(codec, entry)
    ensures r.Ok? ==>
      && Deflatable(codec, entry) && file.AtEnd()
      && file.data == old(file.data) + LocalPart(codec, entry)
      && r.value == RecordOf(codec, entry, old(|file.data|))
  {
    var header := file.pos;
    WriteLocalFileHeader(file, entry.path);
    var compressed := codec.deflate(entry.content);
    if |entry.content| > U32_MAX || |compressed| > U32_MAX {
      return Err(FileTooLarge);
    }
    file.Write(compressed);
    PatchedHeader(old(file.data), entry.path, compressed, codec.crc32(entry.content), |compressed|, |entry.content|);
    PatchLocalFileHeader(file, header, codec.crc32(entry.content), |compressed|, |entry.content|);
    return Ok(ArchiveRecord(entry.path, entry.executable, |compressed|, |entry.content|, header,
                            codec.crc32(entry.content), DEFLATED, UTF8_FLAG, UNIX_OS * 0x100 + ZIP_VERSION));
  }

  method WriteEndRecord(file: OutputFile, count: U16, size: U32, offset: U32)
    requires file.AtEnd()
    modifies file
    ensures file.AtEnd() && file.data == old(file.data) + EndRecord(count, size, offset)
  {
    file.WriteU32(END_SIGNATURE);
    file.WriteU16(0);
    file.WriteU16(0);
    file.WriteU16(count);
    file.WriteU16(count);
    file.WriteU32(size);
    file.WriteU32(offset);
    file.WriteU16(0);
    assert file.data == old(file.data) + EndRecord(count, size, offset);
  }

  method WriteEntries(codec: Codec, file: OutputFile, entries: seq<SourceFile>) returns (r: Option<seq<ArchiveRecord>>)
    requires file.AtEnd() && file.data == []
    modifies file
    ensures r.None? ==> exists f :: f in entries && !Deflatable(codec, f)
    ensures r.Some? ==>
      && file.AtEnd() && file.data == Locals(codec, entries, |entries|)
      && r.value == Records(codec, entries, |entries|)
      && forall f :: f in entries ==> Deflatable(codec, f)
  {
    var written: seq<ArchiveRecord> := [];
    for k := 0 to |entries|
      invariant file.AtEnd() && file.data == Locals(codec, entries, k)
      invariant written == Records(codec, entries, k)
      invariant forall i :: 0 <= i < k ==> Deflatable(codec, entries[i])
    {
      var entry := WriteEntry(codec, file, entries[k]);
      if entry.Err? {
        assert entries[k] in entries && !Deflatable(codec, entries[k]);
        return None;
      }
      written := written + [entry.value];
    }
    return Some(written);
  }

  method WriteDirectory(file: OutputFile, written: seq<ArchiveRecord>)
    requires file.AtEnd()
    modifies file
    ensures file.AtEnd() && file.data == old(file.data) + Directory(written, |written|)
  {
    ghost var before := file.data;
    for k := 0 to |written|
      invariant file.AtEnd() && file.data == before + Directory(written, k)
    {
      AppendAssociates(before, Directory(written, k), CentralEntry(written[k]));
      WriteCentralDirectoryEntry(file, written[k]);
    }
  }

  method PackEntries(codec: Codec, entries: seq<SourceFile>) returns (r: Result<Bytes, Error>)
    requires exists f :: f in entries && f.path == MANIFEST_PATH
    ensures r == ArchiveOf(codec, entries)
  {
    hide EndRecord, Deflatable, Locals, Records, Directory;
    var archive := new OutputFile();
    var written := WriteEntries(codec, archive, entries);
    if written.None? {
      return Err(FileTooLarge);
    }
    var directoryOffset := archive.pos;
    if directoryOffset > U32_MAX {
      return Err(Zip64);
    }
    WriteDirectory(archive, written.value);
    var directorySize := archive.pos - directoryOffset;
    if directorySize > U32_MAX || |written.value| > U16_MAX {
      return Err(Zip64);
    }
    WriteEndRecord(archive, |written.value|, directorySize, directoryOffset);
    return Ok(archive.data);
  }

  method CreateArchive(codec: Codec, files: seq<SourceFile>) returns (r: Result<Bytes, Error>)
    ensures r == Created(codec, files)
  {
    var collected := CollectSourceEntries(files);
    if collected.Err? {
      return Err(collected.error);
    }
    if forall f :: f in collected.value ==> f.path != MANIFEST_PATH {
      return Err(MissingManifest);
    }
    r := PackEntries(codec, collected.value);
  }
}
