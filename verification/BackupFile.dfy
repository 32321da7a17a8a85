/** The last bytes of a backup file (src/doll/backup.py): the end record of a ZIP archive as
    its format writes it, against the loader's reading of it, and built backups as files. */
module BackupFile {
  import opened Outcomes
  import opened Json
  import opened ManagedPaths
  import opened ArchiveFormat
  import opened BackupLoader
  import opened BackupArchive
  import opened BackupAgreement

  /** A number in two bytes, the least significant first. */
  function Two(n: nat): (r: Bytes)
    requires n <= 0xFFFF
    ensures |r| == 2
  {
    [n % 256, n / 256]
  }

  /** A number in four bytes, the least significant first. */
  function Four(n: nat): (r: Bytes)
    requires n <= 0xFFFF_FFFF
    ensures |r| == 4
  {
    [n % 256, n / 0x100 % 256, n / 0x1_0000 % 256, n / 0x100_0000]
  }

  /** The end of central directory record for one disk, without a comment. */
  function EndRecord(count: nat, size: nat, offset: nat): (r: Bytes)
    requires count <= 0xFFFF && size <= 0xFFFF_FFFF && offset <= 0xFFFF_FFFF
    ensures |r| == 22
  {
    [0x50, 0x4B, 5, 6] + Two(0) + Two(0) + Two(count) + Two(count) + Four(size) + Four(offset) + Two(0)
  }

  lemma {:induction false} LittleEndianStep(bytes: Bytes)
    requires bytes != []
    ensures LittleEndian(bytes) == bytes[0] + 256 * LittleEndian(bytes[1..])
  {
  }

  lemma ReadsTwo(n: nat)
    requires n <= 0xFFFF
    ensures LittleEndian(Two(n)) == n
  {
    hide LittleEndian;
    var b := Two(n);
    LittleEndianStep(b);
    LittleEndianStep(b[1..]);
    assert b[1..][1..] == [];
    NoBytes();
  }

  lemma NoBytes()
    ensures LittleEndian([]) == 0
  {
  }

  lemma ReadsFour(n: nat)
    requires n <= 0xFFFF_FFFF
    ensures LittleEndian(Four(n)) == n
  {
    hide LittleEndian;
    var b := Four(n);
    LittleEndianStep(b);
    LittleEndianStep(b[1..]);
    LittleEndianStep(b[2..]);
    LittleEndianStep(b[3..]);
    assert b[1..][1..] == b[2..] && b[2..][1..] == b[3..] && b[3..][1..] == [];
    NoBytes();
    assert n == n % 256 + 256 * (n / 256);
    assert n / 256 == n / 256 % 256 + 256 * (n / 0x1_0000);
    assert n / 0x1_0000 == n / 0x1_0000 % 256 + 256 * (n / 0x100_0000);
  }

  /** Where the parts of the record lie. */
  lemma RecordParts(count: nat, size: nat, offset: nat)
    requires count <= 0xFFFF && size <= 0xFFFF_FFFF && offset <= 0xFFFF_FFFF
    ensures
      var r := EndRecord(count, size, offset);
      && r[..4] == [0x50, 0x4B, 5, 6] && r[4..6] == Two(0) && r[6..8] == Two(0)
      && r[8..10] == Two(count) && r[10..12] == Two(count)
      && r[12..16] == Four(size) && r[16..20] == Four(offset) && r[20..22] == Two(0)
  {
    hide Two, Four;
    var r := EndRecord(count, size, offset);
    var disks := [0x50, 0x4B, 5, 6] + Two(0) + Two(0);
    var counts := disks + Two(count) + Two(count);
    var last := counts + Four(size) + Four(offset);
    assert r == last + Two(0);
    assert r[..8] == disks && r[8..12] == Two(count) + Two(count);
    assert r[12..20] == Four(size) + Four(offset) && r[20..] == Two(0) && r[20..] == r[20..22];
    assert r[4..6] == r[..8][4..6] && r[6..8] == r[..8][6..8];
    assert r[8..10] == r[8..12][..2] && r[10..12] == r[8..12][2..];
    assert r[12..16] == r[12..20][..4] && r[16..20] == r[12..20][4..];
  }

  /** The loader accepts the end of a file exactly when directory offset and size add up to what
      comes before the record, and none of the numbers is reserved for ZIP64. */
  lemma EndRecordIff(body: Bytes, count: nat, size: nat, offset: nat)
    requires count <= 0xFFFF && size <= 0xFFFF_FFFF && offset <= 0xFFFF_FFFF
    ensures EndRecordOk(body + EndRecord(count, size, offset)) <==>
      offset + size == |body| && count != 0xFFFF && size != 0xFFFF_FFFF && offset != 0xFFFF_FFFF
  {
    hide LittleEndian, Two, Four, EndRecord;
    var file := body + EndRecord(count, size, offset);
    assert file[|file| - END_RECORD_SIZE..] == EndRecord(count, size, offset);
    RecordParts(count, size, offset);
    ReadsTwo(0);
    ReadsTwo(count);
    ReadsFour(size);
    ReadsFour(offset);
  }

  lemma WritesTwo(b: Bytes)
    requires |b| == 2
    ensures LittleEndian(b) <= 0xFFFF && Two(LittleEndian(b)) == b
  {
    hide LittleEndian;
    LittleEndianStep(b);
    LittleEndianStep(b[1..]);
    assert b[1..][1..] == [] && b[1..][0] == b[1];
    NoBytes();
  }

  lemma WritesFour(b: Bytes)
    requires |b| == 4
    ensures LittleEndian(b) <= 0xFFFF_FFFF && Four(LittleEndian(b)) == b
  {
    hide LittleEndian;
    LittleEndianStep(b);
    LittleEndianStep(b[1..]);
    LittleEndianStep(b[2..]);
    LittleEndianStep(b[3..]);
    assert b[1..][1..] == b[2..] && b[2..][1..] == b[3..] && b[3..][1..] == [];
    NoBytes();
    var n := LittleEndian(b);
    Digits(n, b[0], LittleEndian(b[1..]));
    Digits(n / 0x100, b[1], LittleEndian(b[2..]));
    Digits(n / 0x1_0000, b[2], LittleEndian(b[3..]));
  }

  lemma Digits(n: nat, low: Byte, high: nat)
    requires n == low + 256 * high
    ensures n % 256 == low && n / 256 == high
  {
  }

  /** The file ends in the record of these numbers, none of them reserved for ZIP64, and the
      directory they describe reaches up to it. */
  predicate EndsIn(file: Bytes, count: nat, size: nat, offset: nat)
  {
    && |file| >= 22 && count < 0xFFFF && size < 0xFFFF_FFFF && offset < 0xFFFF_FFFF
    && file[|file| - 22..] == EndRecord(count, size, offset)
    && offset + size == |file| - 22
  }

  /** The loader accepts the end of exactly the files that end in such a record. */
  lemma EndRecordMeans(file: Bytes)
    ensures EndRecordOk(file) <==> exists count: nat, size: nat, offset: nat :: EndsIn(file, count, size, offset)
  {
    hide LittleEndian, EndRecord;
    if EndRecordOk(file) {
      var n := |file| - 22;
      var r := file[n..];
      var count, size, offset := LittleEndian(r[10..12]), LittleEndian(r[12..16]), LittleEndian(r[16..20]);
      RecordWritten(r);
      assert EndsIn(file, count, size, offset);
    }
    if exists count: nat, size: nat, offset: nat :: EndsIn(file, count, size, offset) {
      var count: nat, size: nat, offset: nat :| EndsIn(file, count, size, offset);
      assert file == file[..|file| - 22] + EndRecord(count, size, offset);
      EndRecordIff(file[..|file| - 22], count, size, offset);
    }
  }

  /** A record is made of its numbers. */
  lemma RecordWritten(r: Bytes)
    requires |r| == 22 && r[..4] == END_SIGNATURE
    requires LittleEndian(r[4..6]) == 0 && LittleEndian(r[6..8]) == 0 && LittleEndian(r[20..22]) == 0
    requires LittleEndian(r[8..10]) == LittleEndian(r[10..12])
    ensures
      var count, size, offset := LittleEndian(r[10..12]), LittleEndian(r[12..16]), LittleEndian(r[16..20]);
      && count <= 0xFFFF && size <= 0xFFFF_FFFF && offset <= 0xFFFF_FFFF
      && r == EndRecord(count, size, offset)
  {
    hide LittleEndian, Two, Four;
    WritesTwo(r[4..6]);
    WritesTwo(r[6..8]);
    WritesTwo(r[8..10]);
    WritesTwo(r[10..12]);
    WritesFour(r[12..16]);
    WritesFour(r[16..20]);
    WritesTwo(r[20..22]);
    assert r == r[..4] + r[4..6] + r[6..8] + r[8..10] + r[10..12] + r[12..16] + r[16..20] + r[20..22];
  }

  /** A ZIP file: the packed members, the central directory that lists them, the end record. */
  function ZipFile(packed: Bytes, directory: Bytes, count: nat): Bytes
    requires count <= 0xFFFF && |packed| <= 0xFFFF_FFFF && |directory| <= 0xFFFF_FFFF
  {
    packed + directory + EndRecord(count, |directory|, |packed|)
  }

  /** Within the loader's limits every such file ends as it should, so that it is accepted exactly
      when its members are. */
  lemma ZipFileAccepted(
    tools: Tools, unzip: Bytes -> Option<seq<Entry>>, packed: Bytes, directory: Bytes, entries: seq<Entry>)
    requires |entries| <= MAX_BACKUP_MEMBERS
    requires |packed| + |directory| + 22 <= MAX_BACKUP_TOTAL_BYTES
    requires unzip(ZipFile(packed, directory, |entries|)) == Some(entries)
    ensures FileAccepts(tools, unzip, ZipFile(packed, directory, |entries|)) <==> Accepts(tools, entries)
  {
    hide Accepts, EndRecordOk, EndRecord;
    EndRecordIff(packed + directory, |entries|, |directory|, |packed|);
  }

  /** Every state backup that is built and written within the limits is an accepted file. */
  lemma StateFileAccepted(
    tools: Tools, unzip: Bytes -> Option<seq<Entry>>, packed: Bytes, directory: Bytes, source: Source,
    createdAt: string, content: Bytes, package: Package, readme: Bytes)
    requires HexDigests(tools) && IsCaseFold(tools.fold) && SourceOk(tools, source, createdAt)
    requires tools.package(content) == Some(package)
    requires package.workspaceId == source.workspaceId && package.schema == source.schema
    requires package.revision == source.revision
    requires
      var manifest := StateManifest(source, createdAt, content, package);
      && ReadsBack(tools, manifest)
      && ReadsBack(tools, ChecksumDocument(tools, StateMembers(content, readme)[MANIFEST := JsonLine(manifest)]))
    requires Fits(tools, BuildState(tools, source, createdAt, content, package, readme))
    requires
      var entries := ZipEntries(tools, BuildState(tools, source, createdAt, content, package, readme));
      && |packed| + |directory| + 22 <= MAX_BACKUP_TOTAL_BYTES && |entries| <= 0xFFFF
      && unzip(ZipFile(packed, directory, |entries|)) == Some(entries)
    ensures
      var entries := ZipEntries(tools, BuildState(tools, source, createdAt, content, package, readme));
      FileAccepts(tools, unzip, ZipFile(packed, directory, |entries|))
  {
    hide HexDigests, IsCaseFold, SourceOk, ReadsBack, Accepts, StateManifest, ChecksumDocument, JsonLine, BuildState;
    hide FileAccepts, ZipFile, InspectionOf, MembersOf;
    var all := BuildState(tools, source, createdAt, content, package, readme);
    StateBackupAccepted(tools, source, createdAt, content, package, readme);
    EntriesFit(tools, all);
    ZipFileAccepted(tools, unzip, packed, directory, ZipEntries(tools, all));
  }

  lemma EntriesFit(tools: Tools, members: Members)
    requires Fits(tools, members)
    ensures |ZipEntries(tools, members)| <= MAX_BACKUP_MEMBERS
  {
    hide SizeOk, TotalSize;
  }

  /** A workspace backup that is built and written within the limits is an accepted file exactly
      when no artifact's last path component is `checksums.json`. */
  lemma WorkspaceFileAccepted(
    tools: Tools, unzip: Bytes -> Option<seq<Entry>>, packed: Bytes, directory: Bytes, c: Capture, snapshot: Snapshot)
    requires HexDigests(tools) && IsCaseFold(tools.fold) && Captured(tools, c, snapshot)
    requires
      var manifest := WorkspaceManifest(c, snapshot);
      && ReadsBack(tools, manifest)
      && ReadsBack(tools, ChecksumDocument(tools, WorkspaceMembers(c)[MANIFEST := JsonLine(manifest)]))
    requires Fits(tools, BuildWorkspace(tools, c, snapshot))
    requires
      var entries := ZipEntries(tools, BuildWorkspace(tools, c, snapshot));
      && |packed| + |directory| + 22 <= MAX_BACKUP_TOTAL_BYTES && |entries| <= 0xFFFF
      && unzip(ZipFile(packed, directory, |entries|)) == Some(entries)
    ensures
      var entries := ZipEntries(tools, BuildWorkspace(tools, c, snapshot));
      && (forall name :: name in c.artifacts ==> StartsWith(name, ARTIFACTS))
      && (FileAccepts(tools, unzip, ZipFile(packed, directory, |entries|))
          <==> forall name :: name in c.artifacts ==> LastPart(ArtifactPath(name)) != "checksums.json")
  {
    hide HexDigests, IsCaseFold, Captured, ReadsBack, Accepts, WorkspaceManifest, ChecksumDocument, JsonLine;
    hide FileAccepts, ZipFile, InspectionOf, MembersOf, BuildWorkspace, WorkspaceMembers, BuiltManifest, LastPart;
    WorkspaceBackupAccepted(tools, c, snapshot);
    EntriesFit(tools, BuildWorkspace(tools, c, snapshot));
    ZipFileAccepted(tools, unzip, packed, directory, ZipEntries(tools, BuildWorkspace(tools, c, snapshot)));
  }
}
