/** From artifact creation to an accepted workspace backup (src/doll/artifact.py,
    src/doll/backup.py): what the collector hands over is what the archive needs. */
module WorkspaceBackups {
  import opened Outcomes
  import opened Json
  import opened ManagedPaths
  import opened Texts
  import opened ArchiveFormat
  import opened BackupLoader
  import opened BackupArchive
  import opened BackupAgreement
  import ArtifactStore

  /** The artifact service hashes and folds as the archive does. */
  function StoreTools(tools: Tools): ArtifactStore.Tools
  {
    ArtifactStore.Tools((content: Bytes) => ContentHash(tools, content), tools.fold)
  }

  /** The collected files under their member names. */
  function Collected(s: ArtifactStore.Store): Members
  {
    map name | name in CollectedNames(s) && StartsWith(name, ARTIFACTS) && ArtifactPath(name) in s.files ::
      s.files[ArtifactPath(name)]
  }

  function CollectedNames(s: ArtifactStore.Store): set<string>
  {
    set p | p in s.files :: ArtifactName(p)
  }

  lemma CollectedAt(s: ArtifactStore.Store, p: string)
    ensures p in s.files ==> ArtifactName(p) in Collected(s) && Collected(s)[ArtifactName(p)] == s.files[p]
  {
    hide ArtifactName, StartsWith;
    ArtifactNames(p);
  }

  lemma CollectedMeans(s: ArtifactStore.Store, name: string)
    requires name in Collected(s)
    ensures StartsWith(name, ARTIFACTS) && ArtifactPath(name) in s.files
  {
  }

  /** The member name of a managed path is the archive root and the collector's own path. */
  lemma CollectedUnderRoot(p: string)
    ensures ArtifactName(p) == BACKUP_ROOT + "/" + ArtifactStore.MemberPath(p)
  {
    assert BACKUP_ROOT + "/" + ArtifactStore.ARTIFACT_PREFIX == ARTIFACTS;
  }

  /** The snapshot's artifact rows are the listed records of the store, in some order. */
  ghost predicate RowsOf(s: ArtifactStore.Store, ids: seq<string>, rows: seq<ArtifactRow>)
  {
    && ArtifactStore.Lists(ids, ArtifactStore.Listed(s.records))
    && |rows| == |ids|
    && forall i :: 0 <= i < |ids| ==> ids[i] in s.records && rows[i] == RowFor(s.records[ids[i]])
  }

  function RowFor(a: ArtifactStore.Artifact): ArtifactRow
  {
    ArtifactRow(a.path, a.size, a.hash)
  }

  lemma RowHasRecord(tools: Tools, s: ArtifactStore.Store, ids: seq<string>, rows: seq<ArtifactRow>, i: nat)
    requires ArtifactStore.Collectable(StoreTools(tools), s) && RowsOf(s, ids, rows) && i < |rows|
    ensures ValidManagedPath(rows[i].path) && rows[i].path in s.files && RowMatches(tools, Collected(s), rows[i])
  {
    hide ValidManagedPath, ArtifactName, Collected;
    assert ids[i] in ids && ids[i] in ArtifactStore.Listed(s.records);
    CollectedAt(s, rows[i].path);
  }

  lemma RowsDistinct(tools: Tools, s: ArtifactStore.Store, ids: seq<string>, rows: seq<ArtifactRow>, i: nat, j: nat)
    requires ArtifactStore.Collectable(StoreTools(tools), s) && RowsOf(s, ids, rows) && i < j < |rows|
    ensures rows[i].path != rows[j].path
  {
    hide ValidManagedPath;
    assert ids[i] in ids && ids[j] in ids;
  }

  /** Every file has its row. */
  lemma FileHasRow(tools: Tools, s: ArtifactStore.Store, ids: seq<string>, rows: seq<ArtifactRow>, p: string)
    returns (i: nat)
    requires ArtifactStore.Collectable(StoreTools(tools), s) && RowsOf(s, ids, rows) && p in s.files
    ensures i < |rows| && rows[i].path == p
  {
    hide ValidManagedPath;
    assert p in ArtifactStore.PathsOf(s.records, ArtifactStore.Listed(s.records));
    var id :| id in ArtifactStore.Listed(s.records) && s.records[id].path == p;
    assert id in ids;
    i :| 0 <= i < |ids| && ids[i] == id;
  }

  /** What the collector accepts is captured. */
  lemma CollectedIsCaptured(tools: Tools, s: ArtifactStore.Store, ids: seq<string>, rows: seq<ArtifactRow>)
    requires ArtifactStore.Collectable(StoreTools(tools), s) && RowsOf(s, ids, rows)
    ensures ArtifactsCaptured(tools, Collected(s), rows) && FoldDistinct(tools.fold, RowPaths(rows))
  {
    hide RowsOf, ValidManagedPath, ArtifactName, StartsWith, Collected, RowMatches, ArtifactPath;
    hide ArtifactStore.PathsOf, ArtifactStore.PathsDistinct, ArtifactStore.Matches, ArtifactStore.Listed;
    forall i | 0 <= i < |rows|
      ensures ValidManagedPath(rows[i].path) && rows[i].path in s.files && RowMatches(tools, Collected(s), rows[i])
    {
      RowHasRecord(tools, s, ids, rows, i);
    }
    forall i, j | 0 <= i < j < |rows| ensures rows[i].path != rows[j].path {
      RowsDistinct(tools, s, ids, rows, i, j);
    }
    forall name | name in Collected(s)
      ensures StartsWith(name, ARTIFACTS) && exists i :: 0 <= i < |rows| && rows[i].path == ArtifactPath(name)
    {
      CollectedMeans(s, name);
      var i := FileHasRow(tools, s, ids, rows, ArtifactPath(name));
    }
  }

  /** The artifact paths of the capture are the files of the store. */
  lemma CollectedPaths(s: ArtifactStore.Store)
    ensures
      (forall name :: name in Collected(s) ==>
         StartsWith(name, ARTIFACTS) && LastPart(ArtifactPath(name)) != "checksums.json")
      <==> forall p :: p in s.files ==> LastPart(p) != "checksums.json"
  {
    hide ArtifactName, StartsWith, LastPart, Collected, ArtifactPath;
    forall p | p in s.files ensures ArtifactName(p) in Collected(s) && StartsWith(ArtifactName(p), ARTIFACTS)
      && ArtifactPath(ArtifactName(p)) == p
    {
      CollectedAt(s, p);
      ArtifactNames(p);
    }
    forall name | name in Collected(s) ensures StartsWith(name, ARTIFACTS) && ArtifactPath(name) in s.files {
      CollectedMeans(s, name);
    }
  }

  /** The capture of a store: what the collector hands over, beside an identity and a snapshot
      that read back as the source. */
  ghost predicate CapturesStore(
    tools: Tools, c: Capture, snapshot: Snapshot, s: ArtifactStore.Store, ids: seq<string>)
  {
    && c.artifacts == Collected(s) && RowsOf(s, ids, snapshot.artifacts)
    && SourceOk(tools, c.source, c.createdAt)
    && tools.workspace(c.workspace)
       == Some(WorkspaceIdentity(c.source.workspaceId, c.source.workspaceSchema, c.source.revision))
    && tools.snapshot(c.database) == Some(snapshot)
    && snapshot.workspaceId == c.source.workspaceId && snapshot.schema == c.source.schema
    && snapshot.revision == c.source.revision && snapshot.secrets == 0
  }

  /** After every run of creations, within the limits, a workspace backup is collected, built
      and accepted if and only if no two managed paths are alike up to case and none has
      `checksums.json` as its last component. */
  lemma CreationsBackedUpIff(
    tools: Tools, maximum: nat, calls: seq<ArtifactStore.Call>, revision: nat, c: Capture, snapshot: Snapshot,
    ids: seq<string>, s: ArtifactStore.Store)
    requires maximum <= ArtifactStore.MAX_ARTIFACT_BYTES && ArtifactStore.CleansUp(calls)
    requires s == ArtifactStore.Run(StoreTools(tools), ArtifactStore.Store(map[], map[], [], revision), maximum, calls)
    requires HexDigests(tools) && IsCaseFold(tools.fold) && CapturesStore(tools, c, snapshot, s, ids)
    requires
      var manifest := WorkspaceManifest(c, snapshot);
      && ReadsBack(tools, manifest)
      && ReadsBack(tools, ChecksumDocument(tools, WorkspaceMembers(c)[MANIFEST := JsonLine(manifest)]))
    requires Fits(tools, BuildWorkspace(tools, c, snapshot))
    ensures
      (ArtifactStore.Collectable(StoreTools(tools), s)
       && Accepts(tools, ZipEntries(tools, BuildWorkspace(tools, c, snapshot))))
      <==> FoldDistinct(tools.fold, s.files.Keys) && forall p :: p in s.files ==> LastPart(p) != "checksums.json"
  {
    hide ArtifactStore.Run, ArtifactStore.Collectable, ArtifactStore.CleansUp;
    hide HexDigests, IsCaseFold, ReadsBack, Fits, Accepts, ZipEntries, BuildWorkspace, WorkspaceManifest;
    hide ArtifactsCaptured, RowsOf, Collected, SourceOk, LastPart, StartsWith, ArtifactPath, ChecksumDocument, JsonLine;
    ArtifactStore.CollectableIff(StoreTools(tools), maximum, calls, revision);
    if ArtifactStore.Collectable(StoreTools(tools), s) {
      CollectedIsCaptured(tools, s, ids, snapshot.artifacts);
      WorkspaceBackupAccepted(tools, c, snapshot);
      CollectedPaths(s);
    }
  }

  // ----- a path that backups refuse ---------------------------------------------------------

  lemma ChecksumsPathValid()
    ensures ValidManagedPath("checksums.json") && LastPart("checksums.json") == "checksums.json"
  {
    hide ValidManagedPath;
    PlainPathValid("checksums.json", 9);
    NoSlashSplit("checksums.json");
  }

  /** An artifact can be created at `checksums.json`. */
  lemma ChecksumsArtifactCreated(q: ArtifactStore.Request, maximum: nat, revision: nat)
    requires q.path == "checksums.json" && q.content == [] && q.limit == 1 <= maximum
    ensures ArtifactStore.Creates(ArtifactStore.Store(map[], map[], [], revision), maximum, q, {})
  {
    hide ValidManagedPath, LastPart, ArtifactStore.Obstructed;
    ChecksumsPathValid();
    NothingObstructs(q.path);
  }

  lemma NothingObstructs(path: string)
    ensures !ArtifactStore.Obstructed(map[], path)
  {
  }

  /** From then on every workspace backup that is built is refused. */
  lemma ChecksumsArtifactRefused(tools: Tools, c: Capture, snapshot: Snapshot)
    requires HexDigests(tools)
    requires forall name :: name in c.artifacts ==> StartsWith(name, ARTIFACTS)
    requires ArtifactName("checksums.json") in c.artifacts
    requires ReadsBack(tools, ChecksumDocument(
      tools, WorkspaceMembers(c)[MANIFEST := JsonLine(WorkspaceManifest(c, snapshot))]))
    ensures !Accepts(tools, ZipEntries(tools, BuildWorkspace(tools, c, snapshot)))
  {
    hide ValidManagedPath, ValidMemberName, Listable, StartsWith, ArtifactName, LastPart, EndsWith, ChecksumDocument;
    hide JsonLine, LoadJson, InventoryOk, ChecksumsAccept, ManifestAccepts, MembersOf, ZipEntries, HexDigests;
    hide WorkspaceManifest, Finish;
    ChecksumsPathValid();
    ArtifactListable("checksums.json");
    NamePrefixes();
    NamesDistinct();
    FinishedChecksums(tools, WorkspaceMembers(c), WorkspaceManifest(c, snapshot));
    ZipRoundTrip(tools, BuildWorkspace(tools, c, snapshot));
    assert ArtifactName("checksums.json") in WorkspaceMembers(c);
  }
}
