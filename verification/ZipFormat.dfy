/**
 The byte layout of the archive, after APPNOTE.TXT sections 4.3.7 (local file
 header), 4.3.12 (central directory) and 4.3.16 (end of central directory).
 */
module ZipFormat {
  import opened Prelude
  import opened ZipBytes

  const LOCAL_SIGNATURE: U32 := 0x04034b50
  const CENTRAL_SIGNATURE: U32 := 0x02014b50
  const END_SIGNATURE: U32 := 0x06054b50
  const ZIP_VERSION: U16 := 20
  const UTF8_FLAG: U16 := 0x0800
  const STORED: U16 := 0
  const DEFLATED: U16 := 8
  const UNIX_OS: nat := 3
  const LOCAL_SIZE: nat := 30
  const CENTRAL_SIZE: nat := 46
  const END_SIZE: nat := 22

  datatype Error =
    | UnsafePath | DuplicatePath | PathTooLong | FileTooLarge | MissingManifest | Zip64
    | TooSmall | MissingEnd | MultiDisk
    | DirectoryTruncated | EntryTruncated | PayloadTruncated | SignatureMismatch | TrailingData
    | Encrypted | DataDescriptor | StrongEncryption | UnsupportedMethod | OutsideFile | StoredSizeMismatch
    | Symlink | UnsupportedFileType
    | HeaderTruncated | HeaderSignature | MethodMismatch | MetadataMismatch | NameTruncated | NameMismatch
    | DataTruncated | NotFound | InflateFailed | SizeMismatch

  datatype ArchiveRecord = ArchiveRecord(
    path: Bytes,
    executable: bool,
    compressedSize: nat,
    uncompressedSize: nat,
    localHeaderOffset: nat,
    crc32: U32,
    compression: U16,
    flags: U16,
    versionMadeBy: U16)

  // ------------------------------------------------------- file modes

  function FileMode(executable: bool): (mode: U16) {
    if executable then 0x81ed else 0x81a4
  }

  /** The file-type nibble of a Unix mode: 8 a regular file, 10 a symlink. */
  function FileType(mode: U16): (r: nat) { mode / 0x1000 }

  predicate AnyExecuteBit(mode: U16) {
    mode % 2 == 1 || mode / 8 % 2 == 1 || mode / 0x40 % 2 == 1
  }

  // ------------------------------------------------------- layouts

  /** Narrowing casts to an unsigned width. */
  function Cast16(n: nat): (r: U16) { n % 0x1_0000 }

  function Cast32(n: nat): (r: U32) { n % 0x1_0000_0000 }

  /** The twelve bytes a local header is patched with. */
  function SizeFields(crc: U32, compressed: nat, uncompressed: nat): (r: Bytes)
    ensures |r| == 12
  {
    LE32(crc) + LE32(Cast32(compressed)) + LE32(Cast32(uncompressed))
  }

  function LocalHead(): (r: Bytes)
    ensures |r| == 14
  {
    LE32(LOCAL_SIGNATURE) + LE16(ZIP_VERSION) + LE16(UTF8_FLAG) + LE16(DEFLATED) + LE16(0) + LE16(0)
  }

  function LocalTail(name: Bytes): (r: Bytes)
    ensures |r| == 4 + |name|
  {
    LE16(Cast16(|name|)) + LE16(0) + name
  }

  function LocalHeader(name: Bytes, crc: U32, compressed: nat, uncompressed: nat): (r: Bytes)
    ensures |r| == LOCAL_SIZE + |name|
  {
    LocalHead() + SizeFields(crc, compressed, uncompressed) + LocalTail(name)
  }

  predicate Writable(r: ArchiveRecord) {
    |r.path| <= U16_MAX && r.compressedSize <= U32_MAX && r.uncompressedSize <= U32_MAX
        && r.localHeaderOffset <= U32_MAX
  }

  function CentralHead(r: ArchiveRecord): (s: Bytes)
    ensures |s| == 16
  {
    LE32(CENTRAL_SIGNATURE) + LE16(UNIX_OS * 0x100 + ZIP_VERSION) + LE16(ZIP_VERSION) + LE16(r.flags) +
        LE16(r.compression)
    + LE16(0) + LE16(0)
  }

  function CentralTail(r: ArchiveRecord): (s: Bytes)
    ensures |s| == 18
  {
    LE16(Cast16(|r.path|)) + LE16(0) + LE16(0) + LE16(0) + LE16(0)
    + LE32(FileMode(r.executable) * 0x1_0000) + LE32(Cast32(r.localHeaderOffset))
  }

  function CentralEntry(r: ArchiveRecord): (s: Bytes)
    ensures |s| == CENTRAL_SIZE + |r.path|
  {
    CentralHead(r) + SizeFields(r.crc32, r.compressedSize, r.uncompressedSize) + CentralTail(r) + r.path
  }

  function EndRecord(count: U16, size: U32, offset: U32): (s: Bytes)
    ensures |s| == END_SIZE
  {
    LE32(END_SIGNATURE) + LE16(0) + LE16(0) + LE16(count) + LE16(count) + LE32(size) + LE32(offset) + LE16(0)
  }

  // ------------------------------------------------------- reading the layouts back

  lemma SizeFieldsAt(crc: U32, compressed: U32, uncompressed: U32)
    ensures var s := SizeFields(crc, compressed, uncompressed);
      At32(s, 0) == crc && At32(s, 4) == compressed && At32(s, 8) == uncompressed
  {
    var s := SizeFields(crc, compressed, uncompressed);
    hide LE16, LE32;
    ReadBack32(s, 0, crc);
    ReadBack32(s, 4, compressed);
    ReadBack32(s, 8, uncompressed);
  }

  lemma LocalTailAt(name: Bytes)
    requires |name| <= U16_MAX
    ensures var s := LocalTail(name); At16(s, 0) == |name| && At16(s, 2) == 0 && s[4..] == name
  {
    var s := LocalTail(name);
    hide LE16;
    ReadBack16(s, 0, |name|);
    ReadBack16(s, 2, 0);
  }

  lemma LocalHeadAt()
    ensures var s := LocalHead();
      && At32(s, 0) == 0x04034b50 && At16(s, 4) == 20 && At16(s, 6) == 0x0800 && At16(s, 8) == 8
      && At16(s, 10) == 0 && At16(s, 12) == 0
  {
    var s := LocalHead();
    hide LE16, LE32;
    ReadBack32(s, 0, 0x04034b50);
    ReadBack16(s, 4, 20);
    ReadBack16(s, 6, 0x0800);
    ReadBack16(s, 8, 8);
    ReadBack16(s, 10, 0);
    ReadBack16(s, 12, 0);
  }

  /** The fields of a local header, where section 4.3.7 places them: version 2.0,
      UTF-8 names, deflated, no time stamp. */
  lemma LocalHeaderAt(name: Bytes, crc: U32, compressed: U32, uncompressed: U32)
    requires |name| <= U16_MAX
    ensures var h := LocalHeader(name, crc, compressed, uncompressed);
      && At32(h, 0) == 0x04034b50 && At16(h, 4) == 20 && At16(h, 6) == 0x0800 && At16(h, 8) == 8
      && At16(h, 10) == 0 && At16(h, 12) == 0
      && At32(h, 14) == crc && At32(h, 18) == compressed && At32(h, 22) == uncompressed
      && At16(h, 26) == |name| && At16(h, 28) == 0 && h[30..] == name
  {
    var h := LocalHeader(name, crc, compressed, uncompressed);
    var sizes, tail := SizeFields(crc, compressed, uncompressed), LocalTail(name);
    assert h[14..26] == sizes;
    assert h[26..26 + |tail|] == tail;
    assert h[0..14] == LocalHead();
    LocalHeadAt();
    Within(h, 0, LocalHead(), 0);
    Within(h, 0, LocalHead(), 4);
    Within(h, 0, LocalHead(), 6);
    Within(h, 0, LocalHead(), 8);
    Within(h, 0, LocalHead(), 10);
    Within(h, 0, LocalHead(), 12);
    SizeFieldsAt(crc, compressed, uncompressed);
    Within(h, 14, sizes, 0);
    Within(h, 14, sizes, 4);
    Within(h, 14, sizes, 8);
    LocalTailAt(name);
    Within(h, 26, tail, 0);
    Within(h, 26, tail, 2);
    assert h[30..] == tail[4..];
  }

  lemma CentralHeadAt(r: ArchiveRecord)
    ensures var s := CentralHead(r);
      && At32(s, 0) == 0x02014b50 && At16(s, 4) == 0x0314 && At16(s, 6) == 20
      && At16(s, 8) == r.flags && At16(s, 10) == r.compression && At16(s, 12) == 0 && At16(s, 14) == 0
  {
    var s := CentralHead(r);
    hide LE16, LE32;
    ReadBack32(s, 0, 0x02014b50);
    ReadBack16(s, 4, 0x0314);
    ReadBack16(s, 6, 20);
    ReadBack16(s, 8, r.flags);
    ReadBack16(s, 10, r.compression);
    ReadBack16(s, 12, 0);
    ReadBack16(s, 14, 0);
  }

  lemma CentralTailAt(r: ArchiveRecord)
    requires Writable(r)
    ensures var s := CentralTail(r);
      && At16(s, 0) == |r.path| && At16(s, 2) == 0 && At16(s, 4) == 0 && At16(s, 6) == 0 && At16(s, 8) == 0
      && At32(s, 10) == (if r.executable then 0x81ed else 0x81a4) * 0x1_0000 && At32(s, 14) == r.localHeaderOffset
  {
    var s := CentralTail(r);
    hide LE16, LE32;
    assert s[10..14] == LE32(FileMode(r.executable) * 0x1_0000);
    assert s[14..18] == LE32(r.localHeaderOffset);
    ReadBack16(s, 0, |r.path|);
    ReadBack16(s, 2, 0);
    ReadBack16(s, 4, 0);
    ReadBack16(s, 6, 0);
    ReadBack16(s, 8, 0);
    ReadBack32(s, 10, FileMode(r.executable) * 0x1_0000);
    ReadBack32(s, 14, r.localHeaderOffset);
  }

  /** The fields of a central directory entry, where section 4.3.12 places them. */
  lemma CentralEntryAt(r: ArchiveRecord)
    requires Writable(r)
    ensures var s := CentralEntry(r);
      && At32(s, 0) == 0x02014b50 && At16(s, 4) == 0x0314 && At16(s, 6) == 20
      && At16(s, 8) == r.flags && At16(s, 10) == r.compression && At16(s, 12) == 0 && At16(s, 14) == 0
      && At32(s, 16) == r.crc32 && At32(s, 20) == r.compressedSize && At32(s, 24) == r.uncompressedSize
      && At16(s, 28) == |r.path| && At16(s, 30) == 0 && At16(s, 32) == 0 && At16(s, 34) == 0 && At16(s, 36) == 0
      && At32(s, 38) == (if r.executable then 0x81ed else 0x81a4) * 0x1_0000 && At32(s, 42) == r.localHeaderOffset
      && s[46..] == r.path
  {
    var s := CentralEntry(r);
    var head, sizes, tail := CentralHead(r), SizeFields(r.crc32, r.compressedSize, r.uncompressedSize), CentralTail(r);
    assert s[0..16] == head;
    assert s[16..28] == sizes;
    assert s[28..46] == tail;
    CentralHeadAt(r);
    Within(s, 0, head, 0);
    Within(s, 0, head, 4);
    Within(s, 0, head, 6);
    Within(s, 0, head, 8);
    Within(s, 0, head, 10);
    Within(s, 0, head, 12);
    Within(s, 0, head, 14);
    SizeFieldsAt(r.crc32, r.compressedSize, r.uncompressedSize);
    Within(s, 16, sizes, 0);
    Within(s, 16, sizes, 4);
    Within(s, 16, sizes, 8);
    CentralTailAt(r);
    Within(s, 28, tail, 0);
    Within(s, 28, tail, 2);
    Within(s, 28, tail, 4);
    Within(s, 28, tail, 6);
    Within(s, 28, tail, 8);
    Within(s, 28, tail, 10);
    Within(s, 28, tail, 14);
  }

  /** The fields of an end record, where section 4.3.16 places them. */
  lemma EndRecordAt(count: U16, size: U32, offset: U32)
    ensures var s := EndRecord(count, size, offset);
      && At32(s, 0) == 0x06054b50 && At16(s, 4) == 0 && At16(s, 6) == 0
      && At16(s, 8) == count && At16(s, 10) == count
      && At32(s, 12) == size && At32(s, 16) == offset && At16(s, 20) == 0
  {
    var s := EndRecord(count, size, offset);
    hide LE16, LE32;
    ReadBack32(s, 0, 0x06054b50);
    ReadBack16(s, 4, 0);
    ReadBack16(s, 6, 0);
    ReadBack16(s, 8, count);
    ReadBack16(s, 10, count);
    ReadBack32(s, 12, size);
    ReadBack32(s, 16, offset);
    ReadBack16(s, 20, 0);
  }

  lemma OwnFileMode(executable: bool)
    ensures FileType(FileMode(executable)) == 8
    ensures AnyExecuteBit(FileMode(executable)) <==> executable
    ensures FileMode(true) == 0x8000 + 7 * 64 + 5 * 8 + 5 && FileMode(false) == 0x8000 + 6 * 64 + 4 * 8 + 4
  {
  }
}
