/** Backup verification (src/doll/backup.py): what makes the loader accept an archive. */
module BackupLoader {
  import opened Outcomes
  import opened Json
  import opened ManagedPaths
  import opened ArchiveFormat
  import opened Texts

  // ----- the archive inventory -----------------------------------------------------------

  predicate EntryOk(e: Entry)
  {
    && ValidMemberName(e.name) && e.regular
    && |e.content| <= MAX_BACKUP_MEMBER_BYTES
    && (|e.content| > 0 ==> e.packed > 0 && |e.content| <= MAX_COMPRESSION_RATIO * e.packed)
  }

  function TotalSize(entries: seq<Entry>): nat
  {
    if entries == [] then 0
    else TotalSize(entries[..|entries| - 1]) + |entries[|entries| - 1].content|
  }

  ghost predicate NamesApart(tools: Tools, entries: seq<Entry>)
  {
    forall i, j :: 0 <= i < j < |entries| ==> tools.fold(entries[i].name) != tools.fold(entries[j].name)
  }

  ghost predicate InventoryOk(tools: Tools, entries: seq<Entry>)
  {
    && 1 <= |entries| <= MAX_BACKUP_MEMBERS
    && (forall i :: 0 <= i < |entries| ==> EntryOk(entries[i]))
    && NamesApart(tools, entries)
    && TotalSize(entries) <= MAX_BACKUP_TOTAL_BYTES
  }

  lemma {:induction false} TotalSizePrefix(entries: seq<Entry>, i: nat)
    requires i <= |entries|
    ensures TotalSize(entries[..i]) <= TotalSize(entries)
    decreases |entries| - i
  {
    if i == |entries| {
      assert entries[..i] == entries;
    } else {
      assert entries[..i + 1][..i] == entries[..i];
      TotalSizePrefix(entries, i + 1);
    }
  }

  /** Names, kinds, sizes and ratios, one member after another. */
  method ValidateInventory(tools: Tools, entries: seq<Entry>) returns (ok: bool)
    ensures ok <==> InventoryOk(tools, entries)
  {
    hide ValidMemberName, TotalSize;
    if entries == [] || |entries| > MAX_BACKUP_MEMBERS { return false; }
    var seen: set<string>, folded: set<string>, total := {}, {}, 0;
    assert TotalSize(entries[..0]) == 0 by { EmptyTotal(entries); }
    for i := 0 to |entries|
      invariant seen == set k | 0 <= k < i :: entries[k].name
      invariant folded == set k | 0 <= k < i :: tools.fold(entries[k].name)
      invariant forall k :: 0 <= k < i ==> EntryOk(entries[k])
      invariant NamesApart(tools, entries[..i])
      invariant total == TotalSize(entries[..i]) <= MAX_BACKUP_TOTAL_BYTES
    {
      var e := entries[i];
      if !ValidMemberName(e.name) { return false; }
      if e.name in seen { return false; }
      if tools.fold(e.name) in folded { return false; }
      seen, folded := seen + {e.name}, folded + {tools.fold(e.name)};
      if !e.regular || |e.content| > MAX_BACKUP_MEMBER_BYTES { return false; }
      TotalStep(entries, i);
      total := total + |e.content|;
      if total > MAX_BACKUP_TOTAL_BYTES { return false; }
      if |e.content| > 0 && (e.packed == 0 || |e.content| > MAX_COMPRESSION_RATIO * e.packed) { return false; }
    }
    assert entries[..|entries|] == entries;
    return true;
  }

  lemma EmptyTotal(entries: seq<Entry>)
    ensures TotalSize(entries[..0]) == 0
  {
  }

  lemma TotalStep(entries: seq<Entry>, i: nat)
    requires i < |entries|
    ensures TotalSize(entries[..i + 1]) == TotalSize(entries[..i]) + |entries[i].content|
    ensures TotalSize(entries[..i + 1]) <= TotalSize(entries)
  {
    assert entries[..i + 1][..i] == entries[..i];
    TotalSizePrefix(entries, i + 1);
  }

  // ----- the checksum file -------------------------------------------------------------------

  /** What the checksum file records of one member. */
  datatype Sum = Sum(digest: string, size: nat)

  /** One raw checksum entry. The checksum file may not list itself, and the check for that
      looks only at how the name ends. */
  function ReadSum(raw: Json): Option<(string, Sum)>
  {
    if !raw.Obj? then None
    else
      var path, digest, size := Get(raw.fields, "path"), Get(raw.fields, "sha256"), Get(raw.fields, "size_bytes");
      if !path.Str? || !ValidMemberName(path.text) || EndsWith(path.text, SELF_REFERENCE) then None
      else if !digest.Str? || !IsDigest(digest.text) then None
      else if !size.Int? || size.number < 0 then None
      else Some((path.text, Sum(digest.text, size.number)))
  }

  ghost predicate SumsOk(raws: seq<Json>)
  {
    && (forall i :: 0 <= i < |raws| ==> ReadSum(raws[i]).Some?)
    && (forall i, j :: 0 <= i < j < |raws| && ReadSum(raws[i]).Some? && ReadSum(raws[j]).Some? ==>
          ReadSum(raws[i]).value.0 != ReadSum(raws[j]).value.0)
  }

  function Sums(raws: seq<Json>): map<string, Sum>
  {
    if raws == [] then map[]
    else
      var rest := Sums(raws[..|raws| - 1]);
      var last := ReadSum(raws[|raws| - 1]);
      if last.None? then rest else rest[last.value.0 := last.value.1]
  }

  ghost predicate ChecksumsOk(doc: Json)
  {
    && doc.Obj? && Get(doc.fields, "algorithm") == Str("sha256") && Get(doc.fields, "entries").Arr?
    && SumsOk(Get(doc.fields, "entries").items)
  }

  function ChecksumTable(doc: Json): map<string, Sum>
    requires doc.Obj? && Get(doc.fields, "entries").Arr?
  {
    Sums(Get(doc.fields, "entries").items)
  }

  lemma {:induction false} SumsKeys(raws: seq<Json>)
    ensures forall name :: name in Sums(raws) <==>
      exists i :: 0 <= i < |raws| && ReadSum(raws[i]).Some? && ReadSum(raws[i]).value.0 == name
  {
    hide ReadSum;
    if raws != [] {
      var k := |raws| - 1;
      SumsKeys(raws[..k]);
      forall name
        ensures name in Sums(raws) <==>
          exists i :: 0 <= i < |raws| && ReadSum(raws[i]).Some? && ReadSum(raws[i]).value.0 == name
      {
        assert (exists i :: 0 <= i < k && ReadSum(raws[..k][i]).Some? && ReadSum(raws[..k][i]).value.0 == name)
          <==> (exists i :: 0 <= i < k && ReadSum(raws[i]).Some? && ReadSum(raws[i]).value.0 == name);
      }
    }
  }

  /** Each listed path is looked up under its own entry. */
  lemma {:induction false} SumsLookup(raws: seq<Json>, i: nat)
    requires SumsOk(raws) && i < |raws|
    ensures ReadSum(raws[i]).value.0 in Sums(raws) && Sums(raws)[ReadSum(raws[i]).value.0] == ReadSum(raws[i]).value.1
  {
    hide ReadSum;
    var k := |raws| - 1;
    if i < k {
      assert SumsOk(raws[..k]);
      SumsLookup(raws[..k], i);
      assert raws[..k][i] == raws[i];
    }
  }

  method ValidateChecksums(doc: Json) returns (r: Option<map<string, Sum>>)
    ensures r.Some? <==> ChecksumsOk(doc)
    ensures r.Some? ==> r.value == ChecksumTable(doc)
  {
    hide ReadSum, Sums;
    if !doc.Obj? || Get(doc.fields, "algorithm") != Str("sha256") { return None; }
    var entries := Get(doc.fields, "entries");
    if !entries.Arr? { return None; }
    var raws, result: map<string, Sum> := entries.items, map[];
    assert Sums(raws[..0]) == map[] by { NoSums(raws); }
    for i := 0 to |raws|
      invariant SumsOk(raws[..i]) && result == Sums(raws[..i])
    {
      SumsKeys(raws[..i]);
      SumsStep(raws, i);
      var sum := ReadSum(raws[i]);
      if sum.None? { return None; }
      if sum.value.0 in result { return None; }
      result := result[sum.value.0 := sum.value.1];
    }
    assert raws[..|raws|] == raws;
    r := Some(result);
  }

  lemma NoSums(raws: seq<Json>)
    ensures Sums(raws[..0]) == map[]
  {
  }

  lemma SumsStep(raws: seq<Json>, i: nat)
    requires i < |raws|
    ensures Sums(raws[..i + 1]) ==
      var sum := ReadSum(raws[i]);
      if sum.None? then Sums(raws[..i]) else Sums(raws[..i])[sum.value.0 := sum.value.1]
  {
    hide ReadSum;
    assert raws[..i + 1][..i] == raws[..i];
  }

  /** Every listed member has the recorded size and digest. */
  ghost predicate SumsMatch(tools: Tools, members: Members, table: map<string, Sum>)
  {
    forall name :: name in table ==> name in members && SumOf(tools, members[name]) == table[name]
  }

  function SumOf(tools: Tools, content: Bytes): Sum
  {
    Sum(tools.digest(content), |content|)
  }

  method MatchSums(tools: Tools, members: Members, table: map<string, Sum>) returns (ok: bool)
    requires members.Keys == table.Keys + {CHECKSUMS}
    ensures ok <==> SumsMatch(tools, members, table)
  {
    var left := table.Keys;
    while left != {}
      invariant left <= table.Keys
      invariant forall name :: name in table.Keys - left ==> SumOf(tools, members[name]) == table[name]
      decreases |left|
    {
      var name :| name in left;
      if |members[name]| != table[name].size { return false; }
      if tools.digest(members[name]) != table[name].digest { return false; }
      left := left - {name};
    }
    return true;
  }

  // ----- the manifest --------------------------------------------------------------------------

  datatype Manifest = Manifest(
    kind: Kind, workspaceId: string, workspaceSchema: nat, schema: nat, source: nat, createdAt: string,
    payloadCount: nat, payloadSize: nat)

  /** `_required_nonnegative_int` and `_required_positive_int` with the given lower bound. */
  predicate HasNumber(fields: map<string, Json>, key: string, least: nat)
  {
    Get(fields, key).Int? && Get(fields, key).number >= least
  }

  predicate HasText(fields: map<string, Json>, key: string)
  {
    Get(fields, key).Str? && Get(fields, key).text != ""
  }

  /** `_validate_manifest`. */
  function ReadManifest(tools: Tools, value: Json): Option<Manifest>
  {
    if !value.Obj? then None
    else
      var f := value.fields;
      if !HasNumber(f, "backup_format_version", 1)
         || f["backup_format_version"].number != BACKUP_FORMAT_VERSION then None
      else if !HasText(f, "backup_kind") || f["backup_kind"].text !in {"state", "workspace"} then None
      else
        var kind := if f["backup_kind"].text == "state" then StateKind else WorkspaceKind;
        if !HasText(f, "workspace_id") || tools.uuid(f["workspace_id"].text).None? then None
        else if !HasNumber(f, "source_workspace_schema_version", 1)
                || f["source_workspace_schema_version"].number > WORKSPACE_SCHEMA_VERSION then None
        else if !HasNumber(f, "source_state_schema_version", 1)
                || f["source_state_schema_version"].number != CURRENT_SCHEMA_VERSION then None
        else if !HasNumber(f, "source_state_revision", 0) then None
        else if !HasText(f, "created_at") || !tools.utc(f["created_at"].text) then None
        else if Get(f, "checksum_algorithm") != Str("sha256") || Get(f, "encryption_state") != Str("none") then None
        else if Get(f, "included_categories") != StringList(Included(kind)) then None
        else if Get(f, "excluded_categories") != StringList(Excluded(kind)) then None
        else if !HasNumber(f, "payload_file_count", 1) || !HasNumber(f, "total_payload_size_bytes", 0) then None
        else
          Some(Manifest(
                 kind, tools.uuid(f["workspace_id"].text).value, f["source_workspace_schema_version"].number,
                 f["source_state_schema_version"].number, f["source_state_revision"].number, f["created_at"].text,
                 f["payload_file_count"].number, f["total_payload_size_bytes"].number))
  }

  // ----- members and payload by kind --------------------------------------------------------------

  const BASE: set<string> := {MANIFEST, CHECKSUMS, README}

  predicate PathsForKind(names: set<string>, kind: Kind)
  {
    && BASE <= names
    && match kind
       case StateKind => names == BASE + {STATE_PACKAGE}
       case WorkspaceKind =>
         && WORKSPACE_RECORD in names && DATABASE in names
         && forall name :: name in names - BASE - {WORKSPACE_RECORD, DATABASE} ==> StartsWith(name, ARTIFACTS)
  }

  predicate StatePayloadOk(tools: Tools, members: Members, fields: map<string, Json>, m: Manifest)
  {
    && STATE_PACKAGE in members && tools.package(members[STATE_PACKAGE]).Some?
    && var nested := tools.package(members[STATE_PACKAGE]).value;
    && nested.workspaceId == m.workspaceId && nested.schema == m.schema && nested.revision == m.source
    && Get(fields, "state_package").Obj?
    && var described := Get(fields, "state_package").fields;
    && Get(described, "path") == Str(STATE_PACKAGE)
    && Get(described, "record_count") == Int(nested.records)
    && Get(described, "authoritative_file_count") == Int(nested.files)
    && Get(described, "omitted_secret_record_count") == Int(nested.omitted)
    && m.payloadCount == 1
  }

  /** `_snapshot_artifact_inventory` succeeds: managed paths, no two alike. */
  ghost predicate RowsOk(rows: seq<ArtifactRow>)
  {
    && (forall i :: 0 <= i < |rows| ==> ValidManagedPath(rows[i].path))
    && (forall i, j :: 0 <= i < j < |rows| ==> rows[i].path != rows[j].path)
  }

  /** The artifact members are exactly the snapshot's artifact rows, by path, size and hash. */
  ghost predicate ArtifactsMatch(tools: Tools, members: Members, rows: seq<ArtifactRow>)
  {
    && (forall i :: 0 <= i < |rows| ==> RowMatches(tools, members, rows[i]))
    && (forall name :: name in members && StartsWith(name, ARTIFACTS) ==>
          exists i :: 0 <= i < |rows| && rows[i].path == ArtifactPath(name))
  }

  predicate RowMatches(tools: Tools, members: Members, row: ArtifactRow)
  {
    && ArtifactName(row.path) in members
    && |members[ArtifactName(row.path)]| == row.size && ContentHash(tools, members[ArtifactName(row.path)]) == row.hash
  }

  predicate IdentityMatches(tools: Tools, members: Members, m: Manifest)
  {
    && WORKSPACE_RECORD in members
    && tools.workspace(members[WORKSPACE_RECORD]) == Some(WorkspaceIdentity(m.workspaceId, m.workspaceSchema, m.source))
  }

  predicate SnapshotMatches(tools: Tools, members: Members, m: Manifest)
  {
    && DATABASE in members && tools.snapshot(members[DATABASE]).Some?
    && var snapshot := tools.snapshot(members[DATABASE]).value;
    && snapshot.workspaceId == m.workspaceId && snapshot.schema == m.schema && snapshot.revision == m.source
    && snapshot.secrets == 0
  }

  predicate SnapshotDescribed(fields: map<string, Json>, m: Manifest, snapshot: Snapshot)
  {
    && Get(fields, "workspace_snapshot").Obj?
    && var described := Get(fields, "workspace_snapshot").fields;
    && Get(described, "workspace_path") == Str(WORKSPACE_RECORD)
    && Get(described, "database_path") == Str(DATABASE)
    && Get(described, "record_count") == Int(snapshot.records)
    && Get(described, "audit_event_count") == Int(snapshot.events)
    && Get(described, "artifact_file_count") == Int(|snapshot.artifacts|)
    && m.payloadCount == 2 + |snapshot.artifacts|
  }

  ghost predicate WorkspacePayloadOk(tools: Tools, members: Members, fields: map<string, Json>, m: Manifest)
  {
    && IdentityMatches(tools, members, m) && SnapshotMatches(tools, members, m)
    && var snapshot := tools.snapshot(members[DATABASE]).value;
    && RowsOk(snapshot.artifacts) && ArtifactsMatch(tools, members, snapshot.artifacts)
    && SnapshotDescribed(fields, m, snapshot)
  }

  /** Collect the snapshot's artifact rows by path. */
  method SnapshotInventory(rows: seq<ArtifactRow>) returns (r: Option<map<string, ArtifactRow>>)
    ensures r.Some? <==> RowsOk(rows)
    ensures r.Some? ==>
      && (forall i :: 0 <= i < |rows| ==> rows[i].path in r.value && r.value[rows[i].path] == rows[i])
      && (forall p :: p in r.value ==> exists i :: 0 <= i < |rows| && rows[i].path == p)
      && |r.value| == |rows|
  {
    hide ValidManagedPath;
    var result: map<string, ArtifactRow> := map[];
    for i := 0 to |rows|
      invariant |result| == i
      invariant forall k :: 0 <= k < i ==> ValidManagedPath(rows[k].path)
      invariant forall j, k :: 0 <= j < k < i ==> rows[j].path != rows[k].path
      invariant forall k :: 0 <= k < i ==> rows[k].path in result && result[rows[k].path] == rows[k]
      invariant result.Keys == set k | 0 <= k < i :: rows[k].path
    {
      if !ValidManagedPath(rows[i].path) { return None; }
      if rows[i].path in result { return None; }
      result := result[rows[i].path := rows[i]];
    }
    r := Some(result);
  }

  /** Compare the artifact members with the snapshot's inventory. */
  method MatchArtifacts(tools: Tools, members: Members, rows: seq<ArtifactRow>, table: map<string, ArtifactRow>)
    returns (ok: bool)
    requires forall i :: 0 <= i < |rows| ==> rows[i].path in table && table[rows[i].path] == rows[i]
    requires forall p :: p in table ==> exists i :: 0 <= i < |rows| && rows[i].path == p
    ensures ok <==> ArtifactsMatch(tools, members, rows)
  {
    hide ArtifactName, StartsWith;
    var actual := set name | name in members && StartsWith(name, ARTIFACTS) :: ArtifactPath(name);
    NamesOfPaths(members);
    if actual != table.Keys { return false; }
    var left := table.Keys;
    while left != {}
      invariant left <= table.Keys
      invariant forall p :: p in table.Keys - left ==> table[p].path == p && RowMatches(tools, members, table[p])
      decreases |left|
    {
      var path :| path in left;
      ghost var i :| 0 <= i < |rows| && rows[i].path == path;
      if |members[ArtifactName(path)]| != table[path].size { return false; }
      if ContentHash(tools, members[ArtifactName(path)]) != table[path].hash { return false; }
      left := left - {path};
    }
    forall name | name in members && StartsWith(name, ARTIFACTS)
      ensures exists i :: 0 <= i < |rows| && rows[i].path == ArtifactPath(name)
    {
      assert ArtifactPath(name) in actual;
    }
    return true;
  }

  lemma NamesOfPaths(members: Members)
    ensures
      var paths := set name | name in members && StartsWith(name, ARTIFACTS) :: ArtifactPath(name);
      forall p :: p in paths <==> ArtifactName(p) in members
  {
    var paths := set name | name in members && StartsWith(name, ARTIFACTS) :: ArtifactPath(name);
    forall p ensures p in paths <==> ArtifactName(p) in members {
      ArtifactNames(p);
      if p in paths {
        var name :| name in members && StartsWith(name, ARTIFACTS) && ArtifactPath(name) == p;
        ArtifactPaths(name);
      }
    }
  }

  method ValidateWorkspacePayload(tools: Tools, members: Members, fields: map<string, Json>, m: Manifest)
    returns (ok: bool)
    ensures ok <==> WorkspacePayloadOk(tools, members, fields, m)
  {
    hide RowsOk, ArtifactsMatch, SnapshotDescribed;
    if !IdentityMatches(tools, members, m) || !SnapshotMatches(tools, members, m) { return false; }
    var snapshot := tools.snapshot(members[DATABASE]).value;
    var table := SnapshotInventory(snapshot.artifacts);
    if table.None? { return false; }
    var matched := MatchArtifacts(tools, members, snapshot.artifacts, table.value);
    return matched && SnapshotDescribed(fields, m, snapshot);
  }

  // ----- the loader ------------------------------------------------------------------------------------

  datatype Inspection = Inspection(manifest: Manifest, memberCount: nat, manifestHash: string)

  /** The checksum file is there, and lists the other members with their sizes and digests. */
  ghost predicate ChecksumsAccept(tools: Tools, members: Members)
  {
    && CHECKSUMS in members && LoadJson(tools, members[CHECKSUMS]).Some?
    && var doc := LoadJson(tools, members[CHECKSUMS]).value;
    && ChecksumsOk(doc)
    && members.Keys == ChecksumTable(doc).Keys + {CHECKSUMS}
    && SumsMatch(tools, members, ChecksumTable(doc))
  }

  /** The manifest of the members, if there is a valid one. */
  function ManifestOf(tools: Tools, members: Members): Option<Manifest>
  {
    if MANIFEST !in members || LoadJson(tools, members[MANIFEST]).None? then None
    else ReadManifest(tools, LoadJson(tools, members[MANIFEST]).value)
  }

  function ManifestFields(tools: Tools, members: Members): map<string, Json>
    requires ManifestOf(tools, members).Some?
  {
    LoadJson(tools, members[MANIFEST]).value.fields
  }

  ghost predicate ManifestAccepts(tools: Tools, members: Members)
  {
    && ManifestOf(tools, members).Some?
    && var m := ManifestOf(tools, members).value;
    && PathsForKind(members.Keys, m.kind)
    && (m.kind == StateKind ==> StatePayloadOk(tools, members, ManifestFields(tools, members), m))
    && (m.kind == WorkspaceKind ==> WorkspacePayloadOk(tools, members, ManifestFields(tools, members), m))
    && PayloadSize(members) == m.payloadSize
  }

  ghost predicate Accepts(tools: Tools, entries: seq<Entry>)
  {
    && InventoryOk(tools, entries)
    && ChecksumsAccept(tools, MembersOf(entries))
    && ManifestAccepts(tools, MembersOf(entries))
  }

  function InspectionOf(tools: Tools, members: Members): Inspection
    requires ManifestOf(tools, members).Some?
  {
    Inspection(ManifestOf(tools, members).value, |members|, ContentHash(tools, members[MANIFEST]))
  }

  /** `_load_backup`, from the list of members on. */
  method Load(tools: Tools, entries: seq<Entry>) returns (r: Option<Inspection>)
    ensures r.Some? <==> Accepts(tools, entries)
    ensures r.Some? ==> r.value == InspectionOf(tools, MembersOf(entries))
  {
    hide InventoryOk, MembersOf, WorkspacePayloadOk, StatePayloadOk, PathsForKind, SumsMatch, ChecksumsOk, Sums;
    hide PayloadSize;
    hide ReadManifest;
    var safe := ValidateInventory(tools, entries);
    if !safe { return None; }
    var members := MembersOf(entries);
    if CHECKSUMS !in members { return None; }
    var doc := LoadJson(tools, members[CHECKSUMS]);
    if doc.None? { return None; }
    var table := ValidateChecksums(doc.value);
    if table.None? { return None; }
    if members.Keys != table.value.Keys + {CHECKSUMS} { return None; }
    var matched := MatchSums(tools, members, table.value);
    if !matched { return None; }
    assert ChecksumsAccept(tools, members);
    var manifest := ManifestOf(tools, members);
    if manifest.None? { return None; }
    var m := manifest.value;
    if !PathsForKind(members.Keys, m.kind) { return None; }
    var payload: bool;
    if m.kind == StateKind {
      payload := StatePayloadOk(tools, members, ManifestFields(tools, members), m);
    } else {
      payload := ValidateWorkspacePayload(tools, members, ManifestFields(tools, members), m);
    }
    if !payload { return None; }
    if PayloadSize(members) != m.payloadSize { return None; }
    r := Some(InspectionOf(tools, members));
  }

  // ----- the archive file --------------------------------------------------------------------------

  const END_RECORD_SIZE := 22
  const END_SIGNATURE: Bytes := [0x50, 0x4B, 0x05, 0x06]

  /** `int.from_bytes(bytes, "little")`. */
  function LittleEndian(bytes: Bytes): nat
  {
    if bytes == [] then 0 else bytes[0] + 256 * LittleEndian(bytes[1..])
  }

  /** The file ends with one end record without a comment, for one disk, in the classic format,
      whose central directory reaches exactly up to it. */
  predicate EndRecordOk(file: Bytes)
  {
    && |file| >= END_RECORD_SIZE
    && var offset := |file| - END_RECORD_SIZE;
    && var record := file[offset..];
    && record[..4] == END_SIGNATURE
    && LittleEndian(record[4..6]) == 0 && LittleEndian(record[6..8]) == 0
    && LittleEndian(record[8..10]) == LittleEndian(record[10..12]) != 0xFFFF
    && LittleEndian(record[12..16]) != 0xFFFF_FFFF && LittleEndian(record[16..20]) != 0xFFFF_FFFF
    && LittleEndian(record[20..22]) == 0
    && LittleEndian(record[16..20]) + LittleEndian(record[12..16]) == offset
  }

  /** The file is within the size limit, ends as it should, and unzips to accepted members. */
  ghost predicate FileAccepts(tools: Tools, unzip: Bytes -> Option<seq<Entry>>, file: Bytes)
  {
    && |file| <= MAX_BACKUP_TOTAL_BYTES && EndRecordOk(file)
    && unzip(file).Some? && Accepts(tools, unzip(file).value)
  }

  datatype FileInspection = FileInspection(inspection: Inspection, size: nat, hash: string)

  /** `_load_backup` from the bytes of the file on; `unzip` lists the members of a ZIP file. */
  method LoadFile(tools: Tools, unzip: Bytes -> Option<seq<Entry>>, file: Bytes) returns (r: Option<FileInspection>)
    ensures r.Some? <==> FileAccepts(tools, unzip, file)
    ensures r.Some? ==>
      r.value == FileInspection(InspectionOf(tools, MembersOf(unzip(file).value)), |file|, ContentHash(tools, file))
  {
    hide Accepts, EndRecordOk;
    if |file| > MAX_BACKUP_TOTAL_BYTES || !EndRecordOk(file) { return None; }
    var entries := unzip(file);
    if entries.None? { return None; }
    var inspection := Load(tools, entries.value);
    if inspection.None? { return None; }
    r := Some(FileInspection(inspection.value, |file|, ContentHash(tools, file)));
  }
}
