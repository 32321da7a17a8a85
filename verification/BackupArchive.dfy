/** Backup construction (src/doll/backup.py), and its agreement with the loader. */
module BackupArchive {
  import opened Outcomes
  import opened Json
  import opened ManagedPaths
  import opened ArchiveFormat
  import opened BackupLoader
  import opened Texts

  /** What a backup is taken from. */
  datatype Source = Source(workspaceId: string, workspaceSchema: nat, schema: nat, revision: nat)

  // ----- manifests ----------------------------------------------------------------------

  /** The manifest fields that both kinds have. */
  function CommonFields(kind: Kind, source: Source, createdAt: string, count: nat, size: nat): map<string, Json>
  {
    map["backup_format_version" := Int(BACKUP_FORMAT_VERSION),
        "backup_kind" := Str(KindText(kind)),
        "workspace_id" := Str(source.workspaceId),
        "source_workspace_schema_version" := Int(source.workspaceSchema),
        "source_state_schema_version" := Int(source.schema),
        "source_state_revision" := Int(source.revision),
        "created_at" := Str(createdAt),
        "checksum_algorithm" := Str("sha256"),
        "encryption_state" := Str("none"),
        "included_categories" := StringList(Included(kind)),
        "excluded_categories" := StringList(Excluded(kind)),
        "payload_file_count" := Int(count),
        "total_payload_size_bytes" := Int(size)]
  }

  /** The loader reads the common fields back. */
  lemma CommonFieldsRead(kind: Kind, source: Source, createdAt: string, count: nat, size: nat)
    ensures
      var f := CommonFields(kind, source, createdAt, count, size);
      && Get(f, "backup_format_version") == Int(BACKUP_FORMAT_VERSION)
      && Get(f, "backup_kind") == Str(KindText(kind)) && Get(f, "workspace_id") == Str(source.workspaceId)
      && Get(f, "source_workspace_schema_version") == Int(source.workspaceSchema)
      && Get(f, "source_state_schema_version") == Int(source.schema)
      && Get(f, "source_state_revision") == Int(source.revision)
      && Get(f, "created_at") == Str(createdAt)
      && Get(f, "checksum_algorithm") == Str("sha256") && Get(f, "encryption_state") == Str("none")
      && Get(f, "included_categories") == StringList(Included(kind))
      && Get(f, "excluded_categories") == StringList(Excluded(kind))
      && Get(f, "payload_file_count") == Int(count) && Get(f, "total_payload_size_bytes") == Int(size)
  {
    hide Included, Excluded, StringList, KindText;
  }

  /** A source whose identity the loader can read back. */
  predicate SourceOk(tools: Tools, source: Source, createdAt: string)
  {
    && source.workspaceId != "" && tools.uuid(source.workspaceId) == Some(source.workspaceId)
    && 1 <= source.workspaceSchema <= WORKSPACE_SCHEMA_VERSION && source.schema == CURRENT_SCHEMA_VERSION
    && createdAt != "" && tools.utc(createdAt)
  }

  lemma ManifestReads(tools: Tools, kind: Kind, source: Source, createdAt: string, count: nat, size: nat,
      extra: string, v: Json)
    requires SourceOk(tools, source, createdAt) && count >= 1
    requires extra == "state_package" || extra == "workspace_snapshot"
    ensures ReadManifest(tools, Obj(CommonFields(kind, source, createdAt, count, size)[extra := v]))
      == Some(Manifest(kind, source.workspaceId, source.workspaceSchema, source.schema, source.revision,
                       createdAt, count, size))
  {
    hide CommonFields, Included, Excluded, StringList;
    CommonFieldsRead(kind, source, createdAt, count, size);
    var f := CommonFields(kind, source, createdAt, count, size);
    var g := f[extra := v];
    ExtraIsNew(extra);
    assert forall key :: key != extra ==> Get(g, key) == Get(f, key);
    assert KindText(kind) == "state" <==> kind == StateKind;
  }

  lemma ExtraIsNew(extra: string)
    requires extra == "state_package" || extra == "workspace_snapshot"
    ensures extra !in
      {"backup_format_version", "backup_kind", "workspace_id", "source_workspace_schema_version",
       "source_state_schema_version", "source_state_revision", "created_at", "checksum_algorithm",
       "encryption_state", "included_categories", "excluded_categories", "payload_file_count",
       "total_payload_size_bytes"}
  {
  }

  // ----- the checksum file ---------------------------------------------------------------------

  function SumEntry(tools: Tools, name: string, content: Bytes): Json
  {
    Obj(map["path" := Str(name), "sha256" := Str(tools.digest(content)), "size_bytes" := Int(|content|)])
  }

  function SumEntries(tools: Tools, members: Members, names: seq<string>): seq<Json>
    requires forall name :: name in names ==> name in members
  {
    seq(|names|, i requires 0 <= i < |names| => SumEntry(tools, names[i], members[names[i]]))
  }

  /** The names in ascending order. */
  function Names(members: Members): (names: seq<string>)
    ensures forall name :: name in names <==> name in members
    ensures |names| == |members|
    ensures forall i, j :: 0 <= i < j < |names| ==> names[i] != names[j]
  {
    SortedProperties(members.Keys);
    Sorted(members.Keys)
  }

  function ChecksumDocument(tools: Tools, members: Members): Json
  {
    Obj(map["algorithm" := Str("sha256"), "entries" := Arr(SumEntries(tools, members, Names(members)))])
  }

  lemma SumEntryReads(tools: Tools, name: string, content: Bytes)
    requires IsDigest(tools.digest(content))
    ensures ReadSum(SumEntry(tools, name, content)) ==
      if ValidMemberName(name) && !EndsWith(name, SELF_REFERENCE) then Some((name, SumOf(tools, content))) else None
  {
    hide ValidMemberName, EndsWith, IsDigest;
  }

  /** A name the checksum file can list. */
  predicate Listable(name: string)
  {
    ValidMemberName(name) && !EndsWith(name, SELF_REFERENCE)
  }

  /** The loader reads a built checksum file back, exactly when it can list every member. */
  lemma ChecksumsRead(tools: Tools, members: Members)
    requires forall content :: IsDigest(tools.digest(content))
    ensures
      var raws := SumEntries(tools, members, Names(members));
      && (SumsOk(raws) <==> forall name :: name in members ==> Listable(name))
      && (SumsOk(raws) ==>
            && Sums(raws).Keys == members.Keys
            && forall name :: name in members ==> Sums(raws)[name] == SumOf(tools, members[name]))
  {
    hide ReadSum, SumEntries, IsDigest, Sums, Listable, Names, SumOf, SumsOk;
    var names := Names(members);
    var raws := SumEntries(tools, members, names);
    EntriesRead(tools, members, names);
    if forall name :: name in members ==> Listable(name) {
      assert forall i :: 0 <= i < |names| ==> names[i] in names;
      AllRead(raws, names);
      forall name | name in members ensures name in Sums(raws) && Sums(raws)[name] == SumOf(tools, members[name]) {
        var i :| 0 <= i < |names| && names[i] == name;
        SumsLookup(raws, i);
      }
      SumsKeys(raws);
    } else {
      var name :| name in members && !Listable(name);
      var i :| 0 <= i < |names| && names[i] == name;
      NotAllRead(raws, i);
    }
  }

  lemma AllRead(raws: seq<Json>, names: seq<string>)
    requires |raws| == |names| && forall i, j :: 0 <= i < j < |names| ==> names[i] != names[j]
    requires forall i :: 0 <= i < |names| ==> ReadSum(raws[i]).Some? && ReadSum(raws[i]).value.0 == names[i]
    ensures SumsOk(raws)
  {
    hide ReadSum;
  }

  lemma NotAllRead(raws: seq<Json>, i: nat)
    requires i < |raws| && ReadSum(raws[i]).None?
    ensures !SumsOk(raws)
  {
    hide ReadSum;
  }

  /** What the loader makes of each built entry. */
  lemma EntriesRead(tools: Tools, members: Members, names: seq<string>)
    requires forall name :: name in names ==> name in members
    requires forall content :: IsDigest(tools.digest(content))
    ensures
      var raws := SumEntries(tools, members, names);
      && |raws| == |names|
      && forall i :: 0 <= i < |names| ==>
           ReadSum(raws[i]) == if Listable(names[i]) then Some((names[i], SumOf(tools, members[names[i]]))) else None
  {
    hide ReadSum, SumEntry, IsDigest, Listable, SumOf;
    var raws := SumEntries(tools, members, names);
    forall i | 0 <= i < |names|
      ensures ReadSum(raws[i]) == if Listable(names[i]) then Some((names[i], SumOf(tools, members[names[i]]))) else None
    {
      assert names[i] in names;
      RawReads(tools, names[i], members[names[i]]);
    }
  }

  lemma RawReads(tools: Tools, name: string, content: Bytes)
    requires IsDigest(tools.digest(content))
    ensures ReadSum(SumEntry(tools, name, content))
      == if Listable(name) then Some((name, SumOf(tools, content))) else None
  {
    hide ReadSum, SumEntry, ValidMemberName, EndsWith;
    SumEntryReads(tools, name, content);
  }

  // ----- members and archive -----------------------------------------------------------------------

  /** `_finish_members`: add the manifest, then the checksums of everything so far. */
  function Finish(tools: Tools, members: Members, manifest: Json): Members
  {
    var listed := members[MANIFEST := JsonLine(manifest)];
    listed[CHECKSUMS := JsonLine(ChecksumDocument(tools, listed))]
  }

  /** The checksum entries, one member after another. */
  method ListSums(tools: Tools, members: Members) returns (entries: seq<Json>)
    ensures entries == SumEntries(tools, members, Names(members))
  {
    hide SumEntry, Names;
    var names := Names(members);
    entries := [];
    for i := 0 to |names|
      invariant |entries| == i
      invariant forall k :: 0 <= k < i ==>
        names[k] in members && entries[k] == SumEntry(tools, names[k], members[names[k]])
    {
      assert names[i] in names;
      entries := entries + [SumEntry(tools, names[i], members[names[i]])];
    }
  }

  method FinishMembers(tools: Tools, members: Members, manifest: Json) returns (finished: Members)
    ensures finished == Finish(tools, members, manifest)
  {
    hide JsonLine, SumEntries, Names;
    finished := members[MANIFEST := JsonLine(manifest)];
    var entries := ListSums(tools, finished);
    finished := finished[CHECKSUMS := JsonLine(Obj(map["algorithm" := Str("sha256"), "entries" := Arr(entries)]))];
  }

  /** `_write_deterministic_zip`: the members in ascending order of name. */
  function ZipEntries(tools: Tools, members: Members): seq<Entry>
  {
    var names := Names(members);
    seq(|names|, i requires 0 <= i < |names| =>
          assert names[i] in names;
          Entry(names[i], members[names[i]], tools.packed(members[names[i]]), true))
  }

  lemma {:induction false} MembersOfDistinct(entries: seq<Entry>)
    requires forall i, j :: 0 <= i < j < |entries| ==> entries[i].name != entries[j].name
    ensures forall i :: 0 <= i < |entries| ==>
      entries[i].name in MembersOf(entries) && MembersOf(entries)[entries[i].name] == entries[i].content
    ensures forall name :: name in MembersOf(entries) ==> exists i :: 0 <= i < |entries| && entries[i].name == name
  {
    if entries != [] {
      var k := |entries| - 1;
      MembersOfDistinct(entries[..k]);
      forall name | name in MembersOf(entries) ensures exists i :: 0 <= i < |entries| && entries[i].name == name {
        if name != entries[k].name {
          var i :| 0 <= i < k && entries[..k][i].name == name;
          assert entries[i].name == name;
        }
      }
      forall i | 0 <= i < |entries|
        ensures entries[i].name in MembersOf(entries) && MembersOf(entries)[entries[i].name] == entries[i].content
      {
        if i < k { assert entries[..k][i] == entries[i]; }
      }
    }
  }

  /** Reading the archive gives the members back. */
  lemma ZipRoundTrip(tools: Tools, members: Members)
    ensures MembersOf(ZipEntries(tools, members)) == members
  {
    hide MembersOf;
    var entries, names := ZipEntries(tools, members), Names(members);
    MembersOfDistinct(entries);
    forall name ensures name in members <==> name in MembersOf(entries) {
      if name in members {
        var i :| 0 <= i < |names| && names[i] == name;
        assert entries[i].name == name;
      }
    }
    forall name | name in members ensures MembersOf(entries)[name] == members[name] {
      var i :| 0 <= i < |names| && names[i] == name;
      assert entries[i].name == name && entries[i].content == members[name];
    }
  }
}
