/** What acceptance of a backup says about its bytes (src/doll/backup.py), spelled out for members,
    checksum file, manifest and payload. */
module BackupMeaning {
  import opened Outcomes
  import opened Json
  import JsonReader
  import opened ManagedPaths
  import opened ArchiveFormat
  import opened BackupLoader
  import opened BackupArchive

  // ----- members and checksums --------------------------------------------------------------

  /** All entries are regular files of bounded size and ratio under valid names that differ up to
      case, and there are neither too many nor too many bytes. */
  lemma AcceptedInventory(tools: Tools, entries: seq<Entry>)
    requires Accepts(tools, entries)
    ensures 1 <= |entries| <= 4096 && TotalSize(entries) <= 1_073_741_824
    ensures forall e :: e in entries ==>
      && e.regular && ValidMemberName(e.name) && |e.content| <= 805_306_368
      && (e.content != [] ==> 0 < e.packed && |e.content| <= 1000 * e.packed)
    ensures forall i, j :: 0 <= i < j < |entries| ==> tools.fold(entries[i].name) != tools.fold(entries[j].name)
  {
    hide ValidMemberName, TotalSize, ChecksumsAccept, ManifestAccepts;
    forall e | e in entries ensures EntryOk(e) {
      var i :| 0 <= i < |entries| && entries[i] == e;
    }
  }

  /** The field is there and holds this value. */
  predicate Holds(f: map<string, Json>, key: string, v: Json)
  {
    key in f && f[key] == v
  }

  /** A checksum entry for these bytes under this name. */
  predicate Lists(tools: Tools, raw: Json, name: string, content: Bytes)
  {
    && raw.Obj? && Holds(raw.fields, "path", Str(name)) && Holds(raw.fields, "sha256", Str(tools.digest(content)))
    && Holds(raw.fields, "size_bytes", Int(|content|))
  }

  /** A digest is 64 lower-case hexadecimal digits. */
  lemma DigestIff(s: string)
    ensures IsDigest(s) <==> |s| == 64 && forall i :: 0 <= i < |s| ==> JsonReader.HexValue(s[i]) >= 0
  {
  }

  /** The checksum file is a sha256 listing with exactly one entry for every other member, and each
      gives its length and digest. */
  ghost predicate ListsAll(tools: Tools, members: Members, doc: Json)
  {
    && doc.Obj? && Holds(doc.fields, "algorithm", Str("sha256"))
    && "entries" in doc.fields && doc.fields["entries"].Arr?
    && var raws := doc.fields["entries"].items;
    && OnlyMembers(tools, members, raws) && EveryMember(tools, members, raws) && |raws| + 1 == |members|
  }

  ghost predicate OnlyMembers(tools: Tools, members: Members, raws: seq<Json>)
  {
    forall raw :: raw in raws ==>
      exists name :: name in members && name != "doll-backup/checksums.json" && Lists(tools, raw, name, members[name])
  }

  ghost predicate EveryMember(tools: Tools, members: Members, raws: seq<Json>)
  {
    forall name :: name in members && name != "doll-backup/checksums.json" ==>
      exists raw :: raw in raws && Lists(tools, raw, name, members[name])
  }

  lemma ReadSumMeans(tools: Tools, raw: Json, name: string, content: Bytes)
    requires ReadSum(raw) == Some((name, SumOf(tools, content)))
    ensures Lists(tools, raw, name, content) && !Texts.EndsWith(name, "/checksums.json")
  {
    hide ValidMemberName, Texts.EndsWith, IsDigest;
  }

  /** One entry of an accepted checksum file. */
  lemma RawListed(tools: Tools, members: Members, raws: seq<Json>, i: nat) returns (name: string)
    requires SumsOk(raws) && SumsMatch(tools, members, Sums(raws)) && i < |raws|
    ensures ReadSum(raws[i]).Some? && name == ReadSum(raws[i]).value.0
    ensures name in members && name != CHECKSUMS && Lists(tools, raws[i], name, members[name])
  {
    hide ReadSum, Sums, Lists;
    SumsLookup(raws, i);
    name := ReadSum(raws[i]).value.0;
    assert ReadSum(raws[i]) == Some((name, SumOf(tools, members[name])));
    ReadSumMeans(tools, raws[i], name, members[name]);
    NotChecksums(name);
  }

  lemma NameHasRaw(raws: seq<Json>, name: string) returns (i: nat)
    requires name in Sums(raws)
    ensures i < |raws| && ReadSum(raws[i]).Some? && ReadSum(raws[i]).value.0 == name
  {
    hide ReadSum, Sums;
    SumsKeys(raws);
    i :| 0 <= i < |raws| && ReadSum(raws[i]).Some? && ReadSum(raws[i]).value.0 == name;
  }

  lemma RawsAreMembers(tools: Tools, members: Members, raws: seq<Json>)
    requires SumsOk(raws) && SumsMatch(tools, members, Sums(raws))
    ensures OnlyMembers(tools, members, raws)
  {
    hide ReadSum, Sums, Lists, SumsMatch, SumsOk;
    forall raw | raw in raws
      ensures exists name :: name in members && name != CHECKSUMS && Lists(tools, raw, name, members[name])
    {
      var i :| 0 <= i < |raws| && raws[i] == raw;
      var name := RawListed(tools, members, raws, i);
    }
  }

  lemma MembersAreListed(tools: Tools, members: Members, raws: seq<Json>)
    requires SumsOk(raws) && SumsMatch(tools, members, Sums(raws)) && members.Keys == Sums(raws).Keys + {CHECKSUMS}
    ensures EveryMember(tools, members, raws)
  {
    hide ReadSum, Sums, Lists, SumsMatch, SumsOk;
    forall name | name in members && name != CHECKSUMS
      ensures exists raw :: raw in raws && Lists(tools, raw, name, members[name])
    {
      var i := NameHasRaw(raws, name);
      var listed := RawListed(tools, members, raws, i);
      assert raws[i] in raws;
    }
  }

  lemma ListingCount(tools: Tools, members: Members, raws: seq<Json>)
    requires SumsOk(raws) && SumsMatch(tools, members, Sums(raws)) && members.Keys == Sums(raws).Keys + {CHECKSUMS}
    ensures |raws| + 1 == |members|
  {
    hide ReadSum, Sums, Lists, SumsMatch, SumsOk;
    if CHECKSUMS in Sums(raws) {
      var i := NameHasRaw(raws, CHECKSUMS);
      var listed := RawListed(tools, members, raws, i);
    }
    ListedCount(raws);
    assert |members| == |members.Keys| && |Sums(raws)| == |Sums(raws).Keys|;
  }

  lemma AcceptedChecksums(tools: Tools, entries: seq<Entry>)
    requires Accepts(tools, entries)
    ensures
      var members := MembersOf(entries);
      && "doll-backup/checksums.json" in members && |members["doll-backup/checksums.json"]| <= 4_194_304
      && tools.load(members["doll-backup/checksums.json"]).Some?
      && ListsAll(tools, members, tools.load(members["doll-backup/checksums.json"]).value)
  {
    hide InventoryOk, ManifestAccepts, MembersOf, ReadSum, Sums, SumsOk, SumsMatch, OnlyMembers, EveryMember;
    var members := MembersOf(entries);
    var doc := tools.load(members[CHECKSUMS]).value;
    assert doc.Obj? && Get(doc.fields, "entries").Arr?;
    var raws := Get(doc.fields, "entries").items;
    RawsAreMembers(tools, members, raws);
    MembersAreListed(tools, members, raws);
    ListingCount(tools, members, raws);
  }

  lemma NotChecksums(name: string)
    requires !Texts.EndsWith(name, "/checksums.json")
    ensures name != CHECKSUMS
  {
    SelfReferences();
  }

  lemma {:induction false} ListedCount(raws: seq<Json>)
    requires SumsOk(raws)
    ensures |Sums(raws)| == |raws|
  {
    hide ReadSum;
    if raws != [] {
      var k := |raws| - 1;
      assert SumsOk(raws[..k]);
      ListedCount(raws[..k]);
      SumsKeys(raws[..k]);
      var name := ReadSum(raws[k]).value.0;
      assert forall i :: 0 <= i < k ==> raws[..k][i] == raws[i];
      assert name !in Sums(raws[..k]);
      assert Sums(raws) == Sums(raws[..k])[name := ReadSum(raws[k]).value.1];
    }
  }

  // ----- the manifest ---------------------------------------------------------------------------

  /** The document says all this of a backup, and what every backup of its kind says. */
  predicate Describes(tools: Tools, value: Json, m: Manifest)
  {
    && value.Obj?
    && var f := value.fields;
    && Holds(f, "backup_format_version", Int(1)) && Holds(f, "checksum_algorithm", Str("sha256"))
    && Holds(f, "encryption_state", Str("none"))
    && Holds(f, "backup_kind", Str(if m.kind == StateKind then "state" else "workspace"))
    && "workspace_id" in f && f["workspace_id"].Str? && f["workspace_id"].text != ""
    && tools.uuid(f["workspace_id"].text) == Some(m.workspaceId)
    && Holds(f, "source_workspace_schema_version", Int(m.workspaceSchema)) && m.workspaceSchema == 1
    && Holds(f, "source_state_schema_version", Int(m.schema)) && m.schema == 3
    && Holds(f, "source_state_revision", Int(m.source))
    && Holds(f, "created_at", Str(m.createdAt)) && m.createdAt != "" && tools.utc(m.createdAt)
    && Holds(f, "payload_file_count", Int(m.payloadCount)) && m.payloadCount >= 1
    && Holds(f, "total_payload_size_bytes", Int(m.payloadSize))
    && Holds(f, "included_categories", StringList(
         if m.kind == StateKind then ["doll_state_package"]
         else ["authoritative_artifacts", "sqlite_state_snapshot", "workspace_identity"]))
    && Holds(f, "excluded_categories", StringList(
         if m.kind == StateKind
         then ["backup_history", "caches", "model_assets", "reproducible_indexes", "runtime_assets", "secrets",
               "temporary_files"]
         else ["audit_directory_files", "backup_history", "caches", "configuration_files", "model_assets",
               "reproducible_indexes", "runtime_assets", "secrets", "temporary_files"]))
  }

  lemma StringListIsList(texts: seq<string>)
    ensures StringList(texts).Arr?
  {
  }

  lemma CategoriesAre()
    ensures Included(StateKind) == ["doll_state_package"]
    ensures Included(WorkspaceKind) == ["authoritative_artifacts", "sqlite_state_snapshot", "workspace_identity"]
    ensures Excluded(StateKind)
      == ["backup_history", "caches", "model_assets", "reproducible_indexes", "runtime_assets", "secrets",
          "temporary_files"]
    ensures Excluded(WorkspaceKind)
      == ["audit_directory_files", "backup_history", "caches", "configuration_files", "model_assets",
          "reproducible_indexes", "runtime_assets", "secrets", "temporary_files"]
  {
  }

  lemma ManifestSays(tools: Tools, value: Json, m: Manifest)
    requires ReadManifest(tools, value) == Some(m)
    ensures Describes(tools, value, m)
  {
    hide StringList, Included, Excluded;
    CategoriesAre();
    StringListIsList(Included(StateKind));
    StringListIsList(Included(WorkspaceKind));
    StringListIsList(Excluded(StateKind));
    StringListIsList(Excluded(WorkspaceKind));
  }

  lemma DescribedReads(tools: Tools, value: Json, m: Manifest)
    requires Describes(tools, value, m)
    ensures ReadManifest(tools, value) == Some(m)
  {
    hide StringList, Included, Excluded;
    CategoriesAre();
    assert "state" != "workspace";
  }

  /** A manifest is read as exactly what it describes. */
  lemma ManifestIff(tools: Tools, value: Json, m: Manifest)
    ensures ReadManifest(tools, value) == Some(m) <==> Describes(tools, value, m)
  {
    hide ReadManifest, Describes;
    if ReadManifest(tools, value) == Some(m) { ManifestSays(tools, value, m); }
    if Describes(tools, value, m) { DescribedReads(tools, value, m); }
  }

  /** A built manifest is read back as what it was built from exactly if its source is in order and it
      counts something. */
  lemma BuiltManifestReadsIff(
    tools: Tools, kind: Kind, source: Source, createdAt: string, count: nat, size: nat, extra: string, v: Json)
    requires extra == "state_package" || extra == "workspace_snapshot"
    ensures
      var document := Obj(CommonFields(kind, source, createdAt, count, size)[extra := v]);
      ReadManifest(tools, document)
      == Some(Manifest(kind, source.workspaceId, source.workspaceSchema, source.schema, source.revision, createdAt,
                       count, size))
      <==> SourceOk(tools, source, createdAt) && count >= 1
  {
    hide CommonFields, ReadManifest, StringList;
    var f := CommonFields(kind, source, createdAt, count, size);
    var m := Manifest(kind, source.workspaceId, source.workspaceSchema, source.schema, source.revision, createdAt,
                      count, size);
    if SourceOk(tools, source, createdAt) && count >= 1 {
      ManifestReads(tools, kind, source, createdAt, count, size, extra, v);
    }
    if ReadManifest(tools, Obj(f[extra := v])) == Some(m) {
      CommonFieldsRead(kind, source, createdAt, count, size);
      ExtraIsNew(extra);
      ManifestSays(tools, Obj(f[extra := v]), m);
    }
  }

  // ----- the payload --------------------------------------------------------------------------------

  lemma AcceptedManifest(tools: Tools, entries: seq<Entry>)
    requires Accepts(tools, entries)
    ensures
      var members := MembersOf(entries);
      && "doll-backup/manifest.json" in members && |members["doll-backup/manifest.json"]| <= 4_194_304
      && tools.load(members["doll-backup/manifest.json"]).Some? && ManifestOf(tools, members).Some?
      && Describes(tools, tools.load(members["doll-backup/manifest.json"]).value, ManifestOf(tools, members).value)
      && PayloadSize(members) == ManifestOf(tools, members).value.payloadSize
  {
    hide InventoryOk, ChecksumsAccept, MembersOf, ReadManifest, PayloadSize, PathsForKind, Describes;
    hide StatePayloadOk, WorkspacePayloadOk;
    var members := MembersOf(entries);
    ManifestIff(tools, tools.load(members[MANIFEST]).value, ManifestOf(tools, members).value);
  }

  /** Its four members, one nested package that verifies, and a manifest that gives the package's
      identity, revision and counts. */
  predicate StateSays(tools: Tools, members: Members, manifest: Json, m: Manifest)
  {
    && members.Keys == {"doll-backup/manifest.json", "doll-backup/checksums.json", "doll-backup/README.txt",
                        "doll-backup/payload/state-package.zip"}
    && m.payloadCount == 1 && tools.package(members["doll-backup/payload/state-package.zip"]).Some?
    && var package := tools.package(members["doll-backup/payload/state-package.zip"]).value;
    && package.workspaceId == m.workspaceId && package.schema == m.schema && package.revision == m.source
    && manifest.Obj? && "state_package" in manifest.fields && manifest.fields["state_package"].Obj?
    && var described := manifest.fields["state_package"].fields;
    && Holds(described, "path", Str("doll-backup/payload/state-package.zip"))
    && Holds(described, "record_count", Int(package.records))
    && Holds(described, "authoritative_file_count", Int(package.files))
    && Holds(described, "omitted_secret_record_count", Int(package.omitted))
  }

  lemma AcceptedState(tools: Tools, entries: seq<Entry>)
    requires Accepts(tools, entries) && ManifestOf(tools, MembersOf(entries)).value.kind == StateKind
    ensures
      var members := MembersOf(entries);
      && "doll-backup/manifest.json" in members && tools.load(members["doll-backup/manifest.json"]).Some?
      && StateSays(tools, members, tools.load(members["doll-backup/manifest.json"]).value,
                   ManifestOf(tools, members).value)
  {
    hide InventoryOk, ChecksumsAccept, MembersOf, ReadManifest, PayloadSize, WorkspacePayloadOk;
    var members := MembersOf(entries);
    ManifestIsObject(tools, tools.load(members[MANIFEST]).value);
    assert members.Keys == BASE + {STATE_PACKAGE};
  }

  lemma ManifestIsObject(tools: Tools, value: Json)
    requires ReadManifest(tools, value).Some?
    ensures value.Obj?
  {
  }

  /** Identity, snapshot and manifest agree on workspace, schema and revision, the snapshot has no
      secret records, every artifact row has its member of that size and hash, and the manifest
      gives the snapshot's counts. */
  predicate WorkspaceSays(tools: Tools, members: Members, manifest: Json, m: Manifest)
  {
    && "doll-backup/payload/workspace.json" in members && "doll-backup/payload/state/doll-state.sqlite3" in members
    && tools.workspace(members["doll-backup/payload/workspace.json"])
       == Some(WorkspaceIdentity(m.workspaceId, m.workspaceSchema, m.source))
    && tools.snapshot(members["doll-backup/payload/state/doll-state.sqlite3"]).Some?
    && var snapshot := tools.snapshot(members["doll-backup/payload/state/doll-state.sqlite3"]).value;
    && snapshot.workspaceId == m.workspaceId && snapshot.schema == m.schema && snapshot.revision == m.source
    && snapshot.secrets == 0 && m.payloadCount == 2 + |snapshot.artifacts|
    && (forall row :: row in snapshot.artifacts ==> HasArtifact(tools, members, row))
    && manifest.Obj? && "workspace_snapshot" in manifest.fields && manifest.fields["workspace_snapshot"].Obj?
    && var described := manifest.fields["workspace_snapshot"].fields;
    && Holds(described, "workspace_path", Str("doll-backup/payload/workspace.json"))
    && Holds(described, "database_path", Str("doll-backup/payload/state/doll-state.sqlite3"))
    && Holds(described, "record_count", Int(snapshot.records))
    && Holds(described, "audit_event_count", Int(snapshot.events))
    && Holds(described, "artifact_file_count", Int(|snapshot.artifacts|))
  }

  predicate HasArtifact(tools: Tools, members: Members, row: ArtifactRow)
  {
    var name := "doll-backup/payload/artifacts/" + row.path;
    name in members && |members[name]| == row.size && row.hash == "sha256:" + tools.digest(members[name])
  }

  lemma AcceptedWorkspace(tools: Tools, entries: seq<Entry>)
    requires Accepts(tools, entries) && ManifestOf(tools, MembersOf(entries)).value.kind == WorkspaceKind
    ensures
      var members := MembersOf(entries);
      && "doll-backup/manifest.json" in members && tools.load(members["doll-backup/manifest.json"]).Some?
      && WorkspaceSays(tools, members, tools.load(members["doll-backup/manifest.json"]).value,
                       ManifestOf(tools, members).value)
  {
    hide InventoryOk, ChecksumsAccept, MembersOf, ReadManifest, PayloadSize, RowsOk, StartsWith, PathsForKind;
    hide HasArtifact, RowMatches;
    var members := MembersOf(entries);
    ManifestIsObject(tools, tools.load(members[MANIFEST]).value);
    var snapshot := tools.snapshot(members[DATABASE]).value;
    forall row | row in snapshot.artifacts ensures HasArtifact(tools, members, row) {
      var i :| 0 <= i < |snapshot.artifacts| && snapshot.artifacts[i] == row;
      RowIsThere(tools, members, row);
    }
  }

  lemma RowIsThere(tools: Tools, members: Members, row: ArtifactRow)
    requires RowMatches(tools, members, row)
    ensures HasArtifact(tools, members, row)
  {
  }

  // ----- the JSON members --------------------------------------------------------------------------------

  lemma LoadJsonIff(tools: Tools, content: Bytes, v: Json)
    ensures LoadJson(tools, content) == Some(v) <==> |content| <= 4_194_304 && tools.load(content) == Some(v)
  {
  }

  /** A JSON member is the canonical encoding of its document and a line feed. */
  lemma LineReads(v: Json)
    requires WellFormed(v)
    ensures
      var line := JsonLine(v);
      |line| > 0 && line[|line| - 1] == 10 && JsonReader.Decode(line[..|line| - 1]) == JsonReader.Parsed(v, "")
  {
    hide JsonReader.Decode, Encode;
    JsonReader.EncodeReads(v);
    assert JsonLine(v)[..|JsonLine(v)| - 1] == Encode(v);
  }
}
