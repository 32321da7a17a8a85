/** The archives that backups build against the archives that the loader accepts
    (src/doll/backup.py). */
module BackupAgreement {
  import opened Outcomes
  import opened Json
  import opened ManagedPaths
  import opened ArchiveFormat
  import opened BackupLoader
  import opened BackupArchive
  import opened Texts

  /** The JSON loader undoes the printer on this document, which is within its limit. */
  predicate ReadsBack(tools: Tools, doc: Json)
  {
    LoadJson(tools, JsonLine(doc)) == Some(doc)
  }

  ghost predicate HexDigests(tools: Tools)
  {
    forall content :: IsDigest(tools.digest(content))
  }

  /** The members are within the size, count and ratio limits. */
  ghost predicate Fits(tools: Tools, members: Members)
  {
    && 1 <= |members| <= MAX_BACKUP_MEMBERS
    && (forall name :: name in members ==> SizeOk(tools, members[name]))
    && TotalSize(ZipEntries(tools, members)) <= MAX_BACKUP_TOTAL_BYTES
  }

  predicate SizeOk(tools: Tools, content: Bytes)
  {
    && |content| <= MAX_BACKUP_MEMBER_BYTES
    && (|content| > 0 ==> tools.packed(content) > 0 && |content| <= MAX_COMPRESSION_RATIO * tools.packed(content))
  }

  lemma FitsInventory(tools: Tools, members: Members)
    requires Fits(tools, members) && FoldDistinct(tools.fold, members.Keys)
    requires forall name :: name in members ==> ValidMemberName(name)
    ensures InventoryOk(tools, ZipEntries(tools, members))
  {
    hide ValidMemberName, Names, TotalSize;
    var names := Names(members);
    var entries := ZipEntries(tools, members);
    forall i | 0 <= i < |entries| ensures EntryOk(entries[i]) {
      assert names[i] in names && names[i] in members;
    }
    forall i, j | 0 <= i < j < |entries| ensures tools.fold(entries[i].name) != tools.fold(entries[j].name) {
      assert names[i] in names && names[j] in names;
    }
  }

  /** The members of an archive pass the inventory exactly if they fit, under valid names that differ up
      to case. */
  lemma FitsIff(tools: Tools, members: Members)
    ensures InventoryOk(tools, ZipEntries(tools, members)) <==>
      && Fits(tools, members) && FoldDistinct(tools.fold, members.Keys)
      && forall name :: name in members ==> ValidMemberName(name)
  {
    hide ValidMemberName, TotalSize, Names, SizeOk;
    var names, entries := Names(members), ZipEntries(tools, members);
    if InventoryOk(tools, entries) {
      forall name | name in members ensures SizeOk(tools, members[name]) && ValidMemberName(name) {
        var i :| 0 <= i < |names| && names[i] == name;
        assert EntryOk(entries[i]);
        SizeOfEntry(tools, entries[i]);
      }
      forall a, b | a in members && b in members && a != b ensures tools.fold(a) != tools.fold(b) {
        var i :| 0 <= i < |names| && names[i] == a;
        var j :| 0 <= j < |names| && names[j] == b;
        assert entries[i].name == a && entries[j].name == b;
      }
    } else if Fits(tools, members) && FoldDistinct(tools.fold, members.Keys)
              && forall name :: name in members ==> ValidMemberName(name)
    {
      FitsInventory(tools, members);
    }
  }

  lemma SizeOfEntry(tools: Tools, e: Entry)
    requires EntryOk(e) && e.packed == tools.packed(e.content)
    ensures SizeOk(tools, e.content)
  {
    hide ValidMemberName;
  }

  // ----- what finishing the members achieves ------------------------------------------------

  lemma ChecksumDocumentFields(tools: Tools, members: Members)
    ensures
      var doc := ChecksumDocument(tools, members);
      && doc.Obj? && Get(doc.fields, "algorithm") == Str("sha256")
      && Get(doc.fields, "entries") == Arr(SumEntries(tools, members, Names(members)))
  {
    hide SumEntries, Names;
  }

  /** The loader accepts the checksum file of a built archive exactly when every member can
      be listed. */
  lemma FinishedChecksums(tools: Tools, members: Members, manifest: Json)
    requires CHECKSUMS !in members && HexDigests(tools)
    requires ReadsBack(tools, ChecksumDocument(tools, members[MANIFEST := JsonLine(manifest)]))
    ensures
      ChecksumsAccept(tools, Finish(tools, members, manifest))
      <==> forall name :: name in members[MANIFEST := JsonLine(manifest)] ==> Listable(name)
  {
    hide SumEntries, Names, JsonLine, LoadJson, Sums, SumsOk, Listable, IsDigest, ChecksumDocument;
    var listed := members[MANIFEST := JsonLine(manifest)];
    var all := Finish(tools, members, manifest);
    var doc := ChecksumDocument(tools, listed);
    assert CHECKSUMS !in listed && all == listed[CHECKSUMS := JsonLine(doc)] by { ChecksumsIsNotManifest(); }
    ChecksumDocumentFields(tools, listed);
    ChecksumsRead(tools, listed);
    if SumsOk(SumEntries(tools, listed, Names(listed))) {
      assert ChecksumTable(doc).Keys == listed.Keys;
      assert all.Keys == listed.Keys + {CHECKSUMS};
    }
  }

  lemma ChecksumsIsNotManifest()
    ensures CHECKSUMS != MANIFEST
  {
    NamesDistinct();
  }

  lemma FinishedManifest(tools: Tools, members: Members, manifest: Json)
    requires ReadsBack(tools, manifest) && manifest.Obj?
    ensures
      var all := Finish(tools, members, manifest);
      && ManifestOf(tools, all) == ReadManifest(tools, manifest)
      && (ReadManifest(tools, manifest).Some? ==> ManifestFields(tools, all) == manifest.fields)
  {
    hide JsonLine, LoadJson, ChecksumDocument, ReadManifest;
    ChecksumsIsNotManifest();
  }

  // ----- state backups ------------------------------------------------------------------------

  function StateManifest(source: Source, createdAt: string, content: Bytes, package: Package): Json
  {
    Obj(CommonFields(StateKind, source, createdAt, 1, |content|)["state_package" :=
        Obj(map["path" := Str(STATE_PACKAGE), "record_count" := Int(package.records),
                "authoritative_file_count" := Int(package.files),
                "omitted_secret_record_count" := Int(package.omitted)])])
  }

  function StateMembers(content: Bytes, readme: Bytes): Members
  {
    map[STATE_PACKAGE := content, README := readme]
  }

  function BuildState(tools: Tools, source: Source, createdAt: string, content: Bytes, package: Package,
      readme: Bytes): Members
  {
    Finish(tools, StateMembers(content, readme), StateManifest(source, createdAt, content, package))
  }

  lemma StateNames(members: Members, content: Bytes, readme: Bytes, manifest: Bytes)
    requires members == StateMembers(content, readme)[MANIFEST := manifest]
    ensures members.Keys == {STATE_PACKAGE, README, MANIFEST} && CHECKSUMS !in members
    ensures members[STATE_PACKAGE] == content
    ensures forall name :: name in members ==> Listable(name)
  {
    hide ValidMemberName, EndsWith;
    NamesDistinct();
    BaseNamesValid();
    PayloadNamesValid();
    SelfReferences();
  }

  lemma StateFields(source: Source, createdAt: string, content: Bytes, package: Package)
    ensures
      var manifest := StateManifest(source, createdAt, content, package);
      && manifest.Obj? && Get(manifest.fields, "state_package").Obj?
      && var described := Get(manifest.fields, "state_package").fields;
      && Get(described, "path") == Str(STATE_PACKAGE)
      && Get(described, "record_count") == Int(package.records)
      && Get(described, "authoritative_file_count") == Int(package.files)
      && Get(described, "omitted_secret_record_count") == Int(package.omitted)
  {
    hide CommonFields;
  }

  lemma StatePayloadSize(all: Members, content: Bytes)
    requires all.Keys == BASE + {STATE_PACKAGE} && all[STATE_PACKAGE] == content
    ensures PayloadSize(all) == |content|
  {
    hide StartsWith;
    NamePrefixes();
    assert PayloadNames(all) == {STATE_PACKAGE};
    TotalWithout(all, {STATE_PACKAGE}, STATE_PACKAGE);
    assert {STATE_PACKAGE} - {STATE_PACKAGE} == {};
  }

  /** The finished members with their manifest and checksum file. */
  lemma FinishedParts(tools: Tools, members: Members, manifest: Json)
    ensures
      var all := Finish(tools, members, manifest);
      && all.Keys == members.Keys + {MANIFEST, CHECKSUMS}
      && forall name :: name in members && name != MANIFEST && name != CHECKSUMS ==> all[name] == members[name]
  {
    hide JsonLine, ChecksumDocument;
  }

  /** Names that can be listed are valid, so an archive within the limits passes the
      inventory. */
  lemma ListedInventory(tools: Tools, members: Members, manifest: Json)
    requires forall name :: name in members[MANIFEST := JsonLine(manifest)] ==> ValidMemberName(name)
    requires Fits(tools, Finish(tools, members, manifest))
    requires FoldDistinct(tools.fold, Finish(tools, members, manifest).Keys)
    ensures InventoryOk(tools, ZipEntries(tools, Finish(tools, members, manifest)))
  {
    hide ValidMemberName, JsonLine, ChecksumDocument, Fits, InventoryOk, ZipEntries;
    BaseNamesValid();
    FinishedParts(tools, members, manifest);
    FitsInventory(tools, Finish(tools, members, manifest));
  }

  /** Every state backup that is built within the limits is accepted, and is read back as the
      backup that was built. */
  lemma StateBackupAccepted(tools: Tools, source: Source, createdAt: string, content: Bytes, package: Package,
      readme: Bytes)
    requires HexDigests(tools) && IsCaseFold(tools.fold) && SourceOk(tools, source, createdAt)
    requires tools.package(content) == Some(package)
    requires package.workspaceId == source.workspaceId && package.schema == source.schema
    requires package.revision == source.revision
    requires
      var manifest := StateManifest(source, createdAt, content, package);
      && ReadsBack(tools, manifest)
      && ReadsBack(tools, ChecksumDocument(tools, StateMembers(content, readme)[MANIFEST := JsonLine(manifest)]))
    requires Fits(tools, BuildState(tools, source, createdAt, content, package, readme))
    ensures
      var entries := ZipEntries(tools, BuildState(tools, source, createdAt, content, package, readme));
      && Accepts(tools, entries)
      && InspectionOf(tools, MembersOf(entries)).manifest
         == Manifest(StateKind, source.workspaceId, source.workspaceSchema, source.schema, source.revision,
                     createdAt, 1, |content|)
  {
    hide JsonLine, LoadJson, ChecksumDocument, ReadManifest, CommonFields, Listable, ValidMemberName, MembersOf;
    hide Fits, InventoryOk;
    hide ChecksumsAccept, ManifestAccepts, ZipEntries, ManifestOf, IsDigest, SourceOk, StateManifest;
    var manifest := StateManifest(source, createdAt, content, package);
    var members := StateMembers(content, readme);
    var all := BuildState(tools, source, createdAt, content, package, readme);
    StateNames(members[MANIFEST := JsonLine(manifest)], content, readme, JsonLine(manifest));
    FinishedChecksums(tools, members, manifest);
    StateManifestAccepts(tools, source, createdAt, content, package, readme);
    ListablesValid(members[MANIFEST := JsonLine(manifest)]);
    StateNamesApart(tools.fold);
    FinishedParts(tools, members, manifest);
    ListedInventory(tools, members, manifest);
    ZipRoundTrip(tools, all);
  }

  lemma StateNamesApart(fold: string -> string)
    requires IsCaseFold(fold)
    ensures FoldDistinct(fold, BASE + {STATE_PACKAGE})
  {
    hide IsCaseFold;
    FixedNamesFolded(fold);
  }

  lemma ListablesValid(members: Members)
    requires forall name :: name in members ==> Listable(name)
    ensures forall name :: name in members ==> ValidMemberName(name)
  {
    hide ValidMemberName, EndsWith;
  }

  lemma StateManifestAccepts(tools: Tools, source: Source, createdAt: string, content: Bytes, package: Package,
      readme: Bytes)
    requires SourceOk(tools, source, createdAt) && tools.package(content) == Some(package)
    requires package.workspaceId == source.workspaceId && package.schema == source.schema
    requires package.revision == source.revision
    requires ReadsBack(tools, StateManifest(source, createdAt, content, package))
    ensures
      var all := BuildState(tools, source, createdAt, content, package, readme);
      && ManifestAccepts(tools, all)
      && ManifestOf(tools, all) == Some(Manifest(StateKind, source.workspaceId, source.workspaceSchema, source.schema,
                                                 source.revision, createdAt, 1, |content|))
  {
    hide JsonLine, LoadJson, ChecksumDocument, ReadManifest, CommonFields, PayloadSize, ManifestOf, Finish;
    hide ManifestFields;
    var manifest := StateManifest(source, createdAt, content, package);
    var members := StateMembers(content, readme);
    var all := BuildState(tools, source, createdAt, content, package, readme);
    FinishedManifest(tools, members, manifest);
    ManifestReads(tools, StateKind, source, createdAt, 1, |content|,
                  "state_package", Get(manifest.fields, "state_package"));
    StateFields(source, createdAt, content, package);
    FinishedParts(tools, members, manifest);
    NamesDistinct();
    StatePayloadSize(all, content);
  }

  // ----- workspace backups ------------------------------------------------------------------------

  /** What a workspace backup captured; `artifacts` are under their member names. */
  datatype Capture = Capture(
    source: Source, createdAt: string, workspace: Bytes, database: Bytes, artifacts: Members, readme: Bytes)

  /** The artifact files are those of the snapshot's rows. */
  ghost predicate ArtifactsCaptured(tools: Tools, artifacts: Members, rows: seq<ArtifactRow>)
  {
    && RowsOk(rows)
    && (forall name :: name in artifacts ==> StartsWith(name, ARTIFACTS))
    && ArtifactsMatch(tools, artifacts, rows)
  }

  /** The managed paths of the rows. */
  function RowPaths(rows: seq<ArtifactRow>): set<string>
  {
    set i | 0 <= i < |rows| :: rows[i].path
  }

  /** What creation has established before it builds the archive. The collector has checked
      that no two managed paths are alike up to case. */
  ghost predicate Captured(tools: Tools, c: Capture, snapshot: Snapshot)
  {
    && SourceOk(tools, c.source, c.createdAt)
    && tools.workspace(c.workspace)
       == Some(WorkspaceIdentity(c.source.workspaceId, c.source.workspaceSchema, c.source.revision))
    && tools.snapshot(c.database) == Some(snapshot)
    && snapshot.workspaceId == c.source.workspaceId && snapshot.schema == c.source.schema
    && snapshot.revision == c.source.revision && snapshot.secrets == 0
    && ArtifactsCaptured(tools, c.artifacts, snapshot.artifacts)
    && FoldDistinct(tools.fold, RowPaths(snapshot.artifacts))
  }

  function CapturedSize(c: Capture): nat
  {
    |c.workspace| + |c.database| + TotalOf(c.artifacts, c.artifacts.Keys)
  }

  function SnapshotFields(c: Capture, snapshot: Snapshot): Json
  {
    Obj(map["workspace_path" := Str(WORKSPACE_RECORD), "database_path" := Str(DATABASE),
            "record_count" := Int(snapshot.records), "audit_event_count" := Int(snapshot.events),
            "artifact_file_count" := Int(|c.artifacts|)])
  }

  function WorkspaceManifest(c: Capture, snapshot: Snapshot): Json
  {
    Obj(CommonFields(WorkspaceKind, c.source, c.createdAt, 2 + |c.artifacts|, CapturedSize(c))
        ["workspace_snapshot" := SnapshotFields(c, snapshot)])
  }

  function WorkspaceMembers(c: Capture): Members
  {
    map[WORKSPACE_RECORD := c.workspace, DATABASE := c.database, README := c.readme] + c.artifacts
  }

  function BuildWorkspace(tools: Tools, c: Capture, snapshot: Snapshot): Members
  {
    Finish(tools, WorkspaceMembers(c), WorkspaceManifest(c, snapshot))
  }

  /** There are as many artifact members as artifact rows. */
  lemma RowCount(tools: Tools, artifacts: Members, rows: seq<ArtifactRow>)
    requires ArtifactsCaptured(tools, artifacts, rows)
    ensures |artifacts| == |rows|
  {
    hide ArtifactsCaptured;
    var names := seq(|rows|, i requires 0 <= i < |rows| => ArtifactName(rows[i].path));
    RowNames(tools, artifacts, rows, names);
    ListedOnce(names, artifacts.Keys);
    assert |artifacts| == |artifacts.Keys|;
  }

  lemma RowNames(tools: Tools, artifacts: Members, rows: seq<ArtifactRow>, names: seq<string>)
    requires ArtifactsCaptured(tools, artifacts, rows)
    requires |names| == |rows| && forall i :: 0 <= i < |rows| ==> names[i] == ArtifactName(rows[i].path)
    ensures forall i, j :: 0 <= i < j < |names| ==> names[i] != names[j]
    ensures forall name :: name in names <==> name in artifacts.Keys
  {
    hide ArtifactsCaptured, ArtifactName, StartsWith;
    forall i, j | 0 <= i < j < |names| ensures names[i] != names[j] {
      RowsDiffer(tools, artifacts, rows, i, j);
    }
    forall i | 0 <= i < |names| ensures names[i] in artifacts {
      RowIsMember(tools, artifacts, rows, i);
    }
    forall name | name in artifacts ensures name in names {
      var i := RowOf(tools, artifacts, rows, name);
      assert names[i] == name;
    }
  }

  lemma RowsDiffer(tools: Tools, artifacts: Members, rows: seq<ArtifactRow>, i: nat, j: nat)
    requires ArtifactsCaptured(tools, artifacts, rows) && i < j < |rows|
    ensures ArtifactName(rows[i].path) != ArtifactName(rows[j].path)
  {
    hide ArtifactsMatch, ArtifactName;
    ArtifactNames(rows[i].path);
    ArtifactNames(rows[j].path);
  }

  lemma RowIsMember(tools: Tools, artifacts: Members, rows: seq<ArtifactRow>, i: nat)
    requires ArtifactsCaptured(tools, artifacts, rows) && i < |rows|
    ensures ArtifactName(rows[i].path) in artifacts
  {
    hide ArtifactName, StartsWith, RowsOk;
    assert RowMatches(tools, artifacts, rows[i]);
  }

  /** The row of an artifact member. */
  lemma RowOf(tools: Tools, artifacts: Members, rows: seq<ArtifactRow>, name: string) returns (i: nat)
    requires ArtifactsCaptured(tools, artifacts, rows) && name in artifacts
    ensures i < |rows| && ArtifactName(rows[i].path) == name
  {
    hide RowMatches, RowsOk;
    i :| 0 <= i < |rows| && rows[i].path == ArtifactPath(name);
    ArtifactPaths(name);
  }

  lemma {:induction false} ListedOnce(names: seq<string>, all: set<string>)
    requires forall i, j :: 0 <= i < j < |names| ==> names[i] != names[j]
    requires forall name :: name in names <==> name in all
    ensures |all| == |names|
  {
    if names == [] {
      assert all == {};
    } else {
      var last := names[|names| - 1];
      var rest := names[..|names| - 1];
      assert names == rest + [last];
      ListedOnce(rest, all - {last});
    }
  }

  /** The last path component decides whether an artifact can be listed. */
  lemma ArtifactListable(path: string)
    requires ValidManagedPath(path)
    ensures ValidMemberName(ArtifactName(path))
    ensures Listable(ArtifactName(path)) <==> LastPart(path) != "checksums.json"
  {
    hide ValidMemberName, ValidManagedPath, EndsWith, Split;
    var dir := "doll-backup/payload/artifacts";
    var name := ArtifactName(path);
    ArtifactNameValid(path);
    assert dir + "/" == ARTIFACTS;
    assert name == dir + "/" + path;
    SplitBelow(dir, path);
    LastPartSuffix(name);
    assert |name| >= 30;
  }

  /** The names of a workspace backup. */
  lemma WorkspaceNames(tools: Tools, c: Capture, rows: seq<ArtifactRow>, manifest: Bytes)
    requires ArtifactsCaptured(tools, c.artifacts, rows)
    ensures
      var listed := WorkspaceMembers(c)[MANIFEST := manifest];
      && listed.Keys == {WORKSPACE_RECORD, DATABASE, README, MANIFEST} + c.artifacts.Keys
      && CHECKSUMS !in listed && MANIFEST !in c.artifacts && README !in c.artifacts
      && WORKSPACE_RECORD !in c.artifacts && DATABASE !in c.artifacts
      && (forall name :: name in listed ==> ValidMemberName(name))
      && ((forall name :: name in listed ==> Listable(name))
          <==> forall name :: name in c.artifacts ==> LastPart(ArtifactPath(name)) != "checksums.json")
  {
    hide ValidMemberName, EndsWith, ArtifactName, StartsWith, ValidManagedPath, LastPart, ArtifactsMatch, ArtifactPath;
    NamesDistinct();
    BaseNamesValid();
    PayloadNamesValid();
    SelfReferences();
    NamePrefixes();
    FixedAreListable();
    forall name | name in c.artifacts
      ensures ValidMemberName(name) && (Listable(name) <==> LastPart(ArtifactPath(name)) != "checksums.json")
    {
      ArtifactHasRow(tools, c.artifacts, rows, name);
      ArtifactPaths(name);
      ArtifactListable(ArtifactPath(name));
    }
  }

  lemma FixedAreListable()
    ensures Listable(WORKSPACE_RECORD) && Listable(DATABASE) && Listable(README) && Listable(MANIFEST)
  {
    hide ValidMemberName, EndsWith;
    BaseNamesValid();
    PayloadNamesValid();
    SelfReferences();
  }

  lemma ArtifactHasRow(tools: Tools, artifacts: Members, rows: seq<ArtifactRow>, name: string)
    requires ArtifactsCaptured(tools, artifacts, rows) && name in artifacts
    ensures StartsWith(name, ARTIFACTS) && ValidManagedPath(ArtifactPath(name))
  {
    hide ValidManagedPath;
  }

  /** The payload is the workspace identity, the database and the artifacts. */
  lemma WorkspacePayloadSize(c: Capture, all: Members)
    requires forall name :: name in c.artifacts ==> StartsWith(name, ARTIFACTS)
    requires all.Keys == BASE + {WORKSPACE_RECORD, DATABASE} + c.artifacts.Keys
    requires all[WORKSPACE_RECORD] == c.workspace && all[DATABASE] == c.database
    requires forall name :: name in c.artifacts ==> all[name] == c.artifacts[name]
    ensures PayloadSize(all) == CapturedSize(c)
  {
    hide StartsWith, TotalOf;
    NamePrefixes();
    NamesDistinct();
    var names := PayloadNames(all);
    assert names == {WORKSPACE_RECORD, DATABASE} + c.artifacts.Keys;
    TotalWithout(all, names, WORKSPACE_RECORD);
    TotalWithout(all, names - {WORKSPACE_RECORD}, DATABASE);
    assert names - {WORKSPACE_RECORD} - {DATABASE} == c.artifacts.Keys;
    TotalSame(all, c.artifacts, c.artifacts.Keys);
  }

  /** The loader's payload checks on the built members. */
  lemma WorkspacePayloadAccepted(tools: Tools, c: Capture, snapshot: Snapshot, all: Members, m: Manifest)
    requires Captured(tools, c, snapshot)
    requires all.Keys == BASE + {WORKSPACE_RECORD, DATABASE} + c.artifacts.Keys
    requires all[WORKSPACE_RECORD] == c.workspace && all[DATABASE] == c.database
    requires forall name :: name in c.artifacts ==> all[name] == c.artifacts[name]
    requires m == Manifest(WorkspaceKind, c.source.workspaceId, c.source.workspaceSchema, c.source.schema,
                           c.source.revision, c.createdAt, 2 + |c.artifacts|, CapturedSize(c))
    ensures WorkspacePayloadOk(tools, all, WorkspaceManifest(c, snapshot).fields, m)
  {
    hide WorkspaceManifest, SnapshotFields, RowsOk, ArtifactsMatch, CapturedSize, SourceOk, ArtifactsCaptured;
    CapturedRowsOk(tools, c.artifacts, snapshot.artifacts);
    WorkspaceFields(c, snapshot);
    RowCount(tools, c.artifacts, snapshot.artifacts);
    CapturedMatch(tools, c.artifacts, all, snapshot.artifacts);
  }

  lemma CapturedRowsOk(tools: Tools, artifacts: Members, rows: seq<ArtifactRow>)
    requires ArtifactsCaptured(tools, artifacts, rows)
    ensures RowsOk(rows)
  {
  }

  lemma WorkspaceFields(c: Capture, snapshot: Snapshot)
    ensures
      var manifest := WorkspaceManifest(c, snapshot);
      && manifest.Obj? && SnapshotFields(c, snapshot).Obj?
      && Get(manifest.fields, "workspace_snapshot") == SnapshotFields(c, snapshot)
      && var described := SnapshotFields(c, snapshot).fields;
      && Get(described, "workspace_path") == Str(WORKSPACE_RECORD)
      && Get(described, "database_path") == Str(DATABASE)
      && Get(described, "record_count") == Int(snapshot.records)
      && Get(described, "audit_event_count") == Int(snapshot.events)
      && Get(described, "artifact_file_count") == Int(|c.artifacts|)
  {
    hide CommonFields;
  }

  /** Artifacts that match the rows still match among the other members. */
  lemma CapturedMatch(tools: Tools, artifacts: Members, all: Members, rows: seq<ArtifactRow>)
    requires ArtifactsCaptured(tools, artifacts, rows)
    requires all.Keys == BASE + {WORKSPACE_RECORD, DATABASE} + artifacts.Keys
    requires forall name :: name in artifacts ==> all[name] == artifacts[name]
    ensures ArtifactsMatch(tools, all, rows)
  {
    hide ArtifactsCaptured, RowMatches, ArtifactName, StartsWith, ArtifactPath;
    NamePrefixes();
    forall i | 0 <= i < |rows| ensures RowMatches(tools, all, rows[i]) {
      RowKept(tools, artifacts, all, rows, i);
    }
    forall name | name in all && StartsWith(name, ARTIFACTS)
      ensures exists i :: 0 <= i < |rows| && rows[i].path == ArtifactPath(name)
    {
      var i := RowOf(tools, artifacts, rows, name);
      ArtifactNames(rows[i].path);
    }
  }

  lemma RowKept(tools: Tools, artifacts: Members, all: Members, rows: seq<ArtifactRow>, i: nat)
    requires ArtifactsCaptured(tools, artifacts, rows) && i < |rows|
    requires artifacts.Keys <= all.Keys && forall name :: name in artifacts ==> all[name] == artifacts[name]
    ensures RowMatches(tools, all, rows[i])
  {
    hide ArtifactName, StartsWith, RowsOk, ArtifactPath, ContentHash;
    assert RowMatches(tools, artifacts, rows[i]);
  }

  function BuiltManifest(c: Capture): Manifest
  {
    Manifest(WorkspaceKind, c.source.workspaceId, c.source.workspaceSchema, c.source.schema, c.source.revision,
             c.createdAt, 2 + |c.artifacts|, CapturedSize(c))
  }

  /** The manifest of a built workspace backup reads back. */
  lemma WorkspaceManifestOf(tools: Tools, c: Capture, snapshot: Snapshot)
    requires SourceOk(tools, c.source, c.createdAt) && ReadsBack(tools, WorkspaceManifest(c, snapshot))
    ensures
      var all := BuildWorkspace(tools, c, snapshot);
      && ManifestOf(tools, all) == Some(BuiltManifest(c))
      && ManifestFields(tools, all) == WorkspaceManifest(c, snapshot).fields
  {
    hide JsonLine, LoadJson, ReadManifest, CommonFields, ManifestOf, Finish, ManifestFields, SourceOk;
    hide SnapshotFields, CapturedSize, WorkspaceMembers;
    FinishedManifest(tools, WorkspaceMembers(c), WorkspaceManifest(c, snapshot));
    ManifestReads(tools, WorkspaceKind, c.source, c.createdAt, 2 + |c.artifacts|, CapturedSize(c),
                  "workspace_snapshot", SnapshotFields(c, snapshot));
  }

  lemma WorkspaceManifestAccepts(tools: Tools, c: Capture, snapshot: Snapshot)
    requires Captured(tools, c, snapshot) && ReadsBack(tools, WorkspaceManifest(c, snapshot))
    ensures
      var all := BuildWorkspace(tools, c, snapshot);
      ManifestAccepts(tools, all) && ManifestOf(tools, all) == Some(BuiltManifest(c))
  {
    hide ReadsBack, BuildWorkspace, WorkspaceManifest, ManifestOf, ManifestFields, PayloadSize, CapturedSize;
    hide WorkspacePayloadOk, StatePayloadOk, PathsForKind, StartsWith, ArtifactsCaptured, SourceOk;
    var all := BuildWorkspace(tools, c, snapshot);
    CapturedNames(tools, c, snapshot.artifacts);
    WorkspaceManifestOf(tools, c, snapshot);
    BuiltNames(tools, c, snapshot);
    WorkspacePayloadSize(c, all);
    WorkspacePayloadAccepted(tools, c, snapshot, all, BuiltManifest(c));
    BuiltPathsForKind(c, all);
  }

  lemma BuiltPathsForKind(c: Capture, all: Members)
    requires forall name :: name in c.artifacts ==> StartsWith(name, ARTIFACTS)
    requires all.Keys == BASE + {WORKSPACE_RECORD, DATABASE} + c.artifacts.Keys
    ensures PathsForKind(all.Keys, WorkspaceKind)
  {
    hide StartsWith;
  }

  /** The members of a built workspace backup. */
  lemma BuiltNames(tools: Tools, c: Capture, snapshot: Snapshot)
    requires ArtifactsCaptured(tools, c.artifacts, snapshot.artifacts)
    ensures
      var all := BuildWorkspace(tools, c, snapshot);
      && all.Keys == BASE + {WORKSPACE_RECORD, DATABASE} + c.artifacts.Keys
      && all[WORKSPACE_RECORD] == c.workspace && all[DATABASE] == c.database
      && forall name :: name in c.artifacts ==> all[name] == c.artifacts[name]
  {
    hide JsonLine, Finish, WorkspaceManifest, Listable, ValidMemberName, LastPart, ArtifactsCaptured;
    hide StartsWith, ArtifactPath;
    hide WorkspaceMembers;
    var manifest := WorkspaceManifest(c, snapshot);
    WorkspaceNames(tools, c, snapshot.artifacts, JsonLine(manifest));
    CapturedParts(c);
    FinishedParts(tools, WorkspaceMembers(c), manifest);
    NamesDistinct();
  }

  lemma CapturedParts(c: Capture)
    requires WORKSPACE_RECORD !in c.artifacts && DATABASE !in c.artifacts
    ensures
      var members := WorkspaceMembers(c);
      && members.Keys == {WORKSPACE_RECORD, DATABASE, README} + c.artifacts.Keys
      && members[WORKSPACE_RECORD] == c.workspace && members[DATABASE] == c.database
      && forall name :: name in c.artifacts ==> members[name] == c.artifacts[name]
  {
    NamesDistinct();
  }

  /** The full member names differ up to case, because the managed paths do. */
  lemma WorkspaceNamesApart(tools: Tools, artifacts: Members, rows: seq<ArtifactRow>)
    requires IsCaseFold(tools.fold) && ArtifactsCaptured(tools, artifacts, rows)
    requires FoldDistinct(tools.fold, RowPaths(rows))
    ensures FoldDistinct(tools.fold, BASE + {WORKSPACE_RECORD, DATABASE} + artifacts.Keys)
  {
    hide IsCaseFold, ArtifactsCaptured, ArtifactName;
    var fold, fixed := tools.fold, BASE + {WORKSPACE_RECORD, DATABASE};
    FixedNamesFolded(fold);
    forall name | name in artifacts ensures |fold(name)| >= 30 && fold(name)[20] == 'a' {
      var i := RowOf(tools, artifacts, rows, name);
      ArtifactNamesFolded(fold, rows[i].path, rows[i].path);
    }
    forall a, b | a in artifacts && b in artifacts && a != b ensures fold(a) != fold(b) {
      var i := RowOf(tools, artifacts, rows, a);
      var j := RowOf(tools, artifacts, rows, b);
      assert rows[i].path in RowPaths(rows) && rows[j].path in RowPaths(rows);
      ArtifactNamesFolded(fold, rows[i].path, rows[j].path);
    }
  }

  lemma CapturedNames(tools: Tools, c: Capture, rows: seq<ArtifactRow>)
    requires ArtifactsCaptured(tools, c.artifacts, rows)
    ensures forall name :: name in c.artifacts ==> StartsWith(name, ARTIFACTS)
  {
  }

  /** Within the limits, the loader accepts a built workspace backup exactly when no
      artifact's last path component is `checksums.json`, and reads it back as the backup that
      was built. */
  lemma WorkspaceBackupAccepted(tools: Tools, c: Capture, snapshot: Snapshot)
    requires HexDigests(tools) && IsCaseFold(tools.fold) && Captured(tools, c, snapshot)
    requires
      var manifest := WorkspaceManifest(c, snapshot);
      && ReadsBack(tools, manifest)
      && ReadsBack(tools, ChecksumDocument(tools, WorkspaceMembers(c)[MANIFEST := JsonLine(manifest)]))
    requires Fits(tools, BuildWorkspace(tools, c, snapshot))
    ensures
      var entries := ZipEntries(tools, BuildWorkspace(tools, c, snapshot));
      && (forall name :: name in c.artifacts ==> StartsWith(name, ARTIFACTS))
      && (Accepts(tools, entries)
          <==> forall name :: name in c.artifacts ==> LastPart(ArtifactPath(name)) != "checksums.json")
      && (Accepts(tools, entries) ==> InspectionOf(tools, MembersOf(entries)).manifest == BuiltManifest(c))
  {
    hide JsonLine, LoadJson, ChecksumDocument, ReadManifest, Listable, ValidMemberName, MembersOf, Fits, InventoryOk;
    hide ChecksumsAccept, ManifestAccepts, ZipEntries, ManifestOf, IsDigest, WorkspaceManifest, LastPart;
    hide ArtifactsCaptured;
    hide StartsWith, BuiltManifest, SourceOk, ArtifactPath;
    var manifest := WorkspaceManifest(c, snapshot);
    CapturedNames(tools, c, snapshot.artifacts);
    WorkspaceNames(tools, c, snapshot.artifacts, JsonLine(manifest));
    FinishedChecksums(tools, WorkspaceMembers(c), manifest);
    WorkspaceManifestAccepts(tools, c, snapshot);
    BuiltNames(tools, c, snapshot);
    WorkspaceNamesApart(tools, c.artifacts, snapshot.artifacts);
    ListedInventory(tools, WorkspaceMembers(c), manifest);
    ZipRoundTrip(tools, BuildWorkspace(tools, c, snapshot));
  }
}
