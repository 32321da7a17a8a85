/** Managed artifacts (src/doll/artifact.py, src/doll/workspace_files.py) and the backup
    collector that reads them back (src/doll/backup.py).

    Creating an artifact publishes a file and then registers it in a transaction; an
    exception at any point up to the commit removes the file again. `digest` stands for
    SHA-256 and `fold` for `str.casefold`. */
module ArtifactStore {
  import opened Outcomes
  import opened Json
  import opened AuditTrail
  import opened ManagedPaths

  const MAX_ARTIFACT_BYTES := 16 * 1024 * 1024
  const ARTIFACT_PREFIX := "payload/artifacts/"

  const CREATE := "artifact.create"

  /** The points at which a creation can raise, in program order; the last three belong to
      clean-up. */
  datatype Point =
    | ValidateRequest
    | PrepareParents | WriteTemporary | LinkFinal | UnlinkTemporary | FsyncDirectory | VerifyFinal
    | SerializeMetadata | BeginTransaction | InsertRecord | InsertEvent | BumpRevision | CommitTransaction
    | CloseFile | SyncWorkspace | ReadBack
    | RemoveFinal | RemoveTemporary | CleanPublished

  const AFTER_COMMIT: set<Point> := {CloseFile, SyncWorkspace, ReadBack}

  const PUBLICATION: set<Point> :=
    {PrepareParents, WriteTemporary, LinkFinal, UnlinkTemporary, FsyncDirectory, VerifyFinal}

  const REGISTRATION: set<Point> :=
    {SerializeMetadata, BeginTransaction, InsertRecord, InsertEvent, BumpRevision, CommitTransaction}

  /** Removing what a failed creation had put down. */
  const CLEANUP: set<Point> := {RemoveFinal, RemoveTemporary, CleanPublished}

  predicate Free(faults: set<Point>, points: set<Point>)
  {
    forall p :: p in points ==> p !in faults
  }

  datatype Tools = Tools(digest: Bytes -> string, fold: string -> string)

  datatype Status = Active | Archived | Retired

  datatype Artifact = Artifact(path: string, size: nat, hash: string, status: Status)

  /** The artifact tree, and the database as far as artifacts are concerned. */
  datatype Store = Store(
    files: map<string, Bytes>, records: map<string, Artifact>, events: seq<AuditEvent>, revision: nat)

  /** One creation. `temporary` is the name of the temporary file in the artifact tree, `torn`
      what a failing write leaves of it. */
  datatype Request = Request(
    path: string, content: Bytes, limit: nat, temporary: string, torn: Option<Bytes>, id: string, eventId: string,
    operation: string)

  // ----- what a creation does -----------------------------------------------------------

  /** Some file lies where the path needs a directory, or the other way round. */
  predicate Obstructed(files: map<string, Bytes>, path: string)
  {
    exists p :: p in files && (p + "/" <= path || path + "/" <= p)
  }

  predicate Publishable(files: map<string, Bytes>, q: Request)
  {
    q.path !in files && !Obstructed(files, q.path) && |q.content| <= q.limit
  }

  /** The creation reaches its commit. */
  predicate Creates(s: Store, maximum: nat, q: Request, faults: set<Point>)
  {
    && ValidateRequest !in faults && ValidManagedPath(q.path) && 1 <= q.limit <= maximum
    && Publishable(s.files, q) && Free(faults, PUBLICATION)
    && Free(faults, REGISTRATION) && q.id !in s.records
  }

  function Made(tools: Tools, q: Request): Artifact
  {
    Artifact(q.path, |q.content|, tools.digest(q.content), Active)
  }

  function EventOf(q: Request): AuditEvent
  {
    AuditEvent(q.eventId, q.operation, CREATE, q.id)
  }

  function Created(tools: Tools, s: Store, q: Request): Store
  {
    Store(s.files[q.path := q.content], s.records[q.id := Made(tools, q)], s.events + [EventOf(q)], s.revision + 1)
  }

  /** The store after one creation, whatever else went wrong in it, when clean-up works. */
  function After(tools: Tools, s: Store, maximum: nat, q: Request, faults: set<Point>): Store
  {
    if Creates(s, maximum, q, faults) then Created(tools, s, q) else s
  }

  // ----- files and records agree ------------------------------------------------------------

  /** The file of a record is there with the recorded size and hash. */
  predicate Matches(tools: Tools, files: map<string, Bytes>, a: Artifact)
  {
    a.path in files && |files[a.path]| == a.size && tools.digest(files[a.path]) == a.hash
  }

  ghost predicate RecordOk(tools: Tools, s: Store, id: string)
    requires id in s.records
  {
    var a := s.records[id];
    && Matches(tools, s.files, a) && a.status == Active
    && ValidManagedPath(a.path) && a.size <= MAX_ARTIFACT_BYTES
    && Creations(s.events, CREATE, id) == 1
  }

  function PathsOf(records: map<string, Artifact>, ids: set<string>): set<string>
  {
    set id | id in ids && id in records :: records[id].path
  }

  ghost predicate PathsDistinct(records: map<string, Artifact>, ids: set<string>)
  {
    forall i, j :: i in ids && j in ids && i in records && j in records && i != j ==> records[i].path != records[j].path
  }

  /** The files are exactly the managed paths of the records, with matching size and hash, no
      two records share a path, and each record has exactly one creation event. */
  ghost predicate Agree(tools: Tools, s: Store)
  {
    && s.files.Keys == PathsOf(s.records, s.records.Keys)
    && PathsDistinct(s.records, s.records.Keys)
    && (forall id :: id in s.records ==> RecordOk(tools, s, id))
    && (forall id :: Creations(s.events, CREATE, id) > 0 ==> id in s.records)
  }

  lemma CreatedAgrees(tools: Tools, s: Store, maximum: nat, q: Request, faults: set<Point>)
    requires Agree(tools, s) && maximum <= MAX_ARTIFACT_BYTES && Creates(s, maximum, q, faults)
    ensures Agree(tools, Created(tools, s, q))
  {
    hide Creations, ValidManagedPath, Obstructed, PathsOf, PathsDistinct, RecordOk;
    var t := Created(tools, s, q);
    NewPath(s.records, q.id, Made(tools, q), s.files.Keys);
    assert t.files.Keys == s.files.Keys + {q.path};
    forall id | id in t.records ensures RecordOk(tools, t, id) {
      CreatedRecord(tools, s, maximum, q, faults, id);
    }
    forall id | Creations(t.events, CREATE, id) > 0 ensures id in t.records {
      CreationsSnoc(s.events, EventOf(q), CREATE, id);
    }
  }

  lemma NewPath(records: map<string, Artifact>, id: string, a: Artifact, paths: set<string>)
    requires id !in records && a.path !in paths
    requires paths == PathsOf(records, records.Keys) && PathsDistinct(records, records.Keys)
    ensures var more := records[id := a];
      PathsOf(more, more.Keys) == paths + {a.path} && PathsDistinct(more, more.Keys)
  {
    var more := records[id := a];
    assert forall i :: i in records ==> records[i].path in PathsOf(records, records.Keys);
    assert forall i :: i in more <==> i in records || i == id;
    forall p ensures p in PathsOf(more, more.Keys) <==> p in paths + {a.path} {
      if p in paths {
        var i :| i in records && records[i].path == p;
        assert more[i].path == p;
      }
      if p == a.path { assert more[id].path == p; }
    }
  }

  lemma CreatedRecord(tools: Tools, s: Store, maximum: nat, q: Request, faults: set<Point>, id: string)
    requires maximum <= MAX_ARTIFACT_BYTES && Creates(s, maximum, q, faults)
    requires Creations(s.events, CREATE, q.id) == 0
    requires id in Created(tools, s, q).records && (id in s.records ==> RecordOk(tools, s, id))
    ensures RecordOk(tools, Created(tools, s, q), id)
  {
    hide Creations, ValidManagedPath, Obstructed;
    CreationsSnoc(s.events, EventOf(q), CREATE, id);
  }

  datatype Call = Call(request: Request, faults: set<Point>)

  /** No call of the run fails to clean up. */
  predicate CleansUp(calls: seq<Call>)
  {
    forall k :: 0 <= k < |calls| ==> Free(calls[k].faults, CLEANUP)
  }

  function Run(tools: Tools, s: Store, maximum: nat, calls: seq<Call>): Store
    decreases |calls|
  {
    if calls == [] then s
    else Run(tools, After(tools, s, maximum, calls[0].request, calls[0].faults), maximum, calls[1..])
  }

  /** After every run of creations, with exceptions anywhere else than in clean-up, files and
      records agree. */
  lemma {:induction false} RunAgrees(tools: Tools, s: Store, maximum: nat, calls: seq<Call>)
    requires Agree(tools, s) && maximum <= MAX_ARTIFACT_BYTES && CleansUp(calls)
    ensures Agree(tools, Run(tools, s, maximum, calls))
    decreases |calls|
  {
    hide Agree, Creates, Created;
    if calls != [] {
      var q, faults := calls[0].request, calls[0].faults;
      if Creates(s, maximum, q, faults) { CreatedAgrees(tools, s, maximum, q, faults); }
      RunAgrees(tools, After(tools, s, maximum, q, faults), maximum, calls[1..]);
    }
  }

  /** One path leads through another. */
  ghost predicate Below(path: string, dir: string)
  {
    exists rest :: path == dir + "/" + rest
  }

  lemma BelowIff(path: string, dir: string)
    ensures dir + "/" <= path <==> Below(path, dir)
  {
    if dir + "/" <= path { assert path == dir + "/" + path[|dir| + 1..]; }
  }

  lemma ObstructedIff(files: map<string, Bytes>, path: string)
    ensures Obstructed(files, path) <==> exists p :: p in files && (Below(path, p) || Below(p, path))
  {
    hide Below;
    forall p | p in files ensures p + "/" <= path <==> Below(path, p) { BelowIff(path, p); }
    forall p | p in files ensures path + "/" <= p <==> Below(p, path) { BelowIff(p, path); }
  }

  /** A creation in which nothing raises succeeds exactly for a managed path that is unused and neither
      below nor above an existing file, a limit within the maximum, content within the limit
      and a new identifier. */
  lemma CreatesIff(s: Store, maximum: nat, q: Request)
    ensures Creates(s, maximum, q, {}) <==>
      && ValidManagedPath(q.path) && q.path !in s.files && q.id !in s.records
      && |q.content| <= q.limit <= maximum && q.limit >= 1
      && !exists p :: p in s.files && (Below(q.path, p) || Below(p, q.path))
  {
    hide ValidManagedPath, Below, Obstructed;
    ObstructedIff(s.files, q.path);
  }

  /** No file lies below another. */
  ghost predicate TreeShaped(files: map<string, Bytes>)
  {
    forall p, q :: p in files && q in files ==> !Below(p, q)
  }

  /** After every run of creations the artifact files form a tree. */
  lemma {:induction false} RunTreeShaped(tools: Tools, s: Store, maximum: nat, calls: seq<Call>)
    requires TreeShaped(s.files)
    ensures TreeShaped(Run(tools, s, maximum, calls).files)
    decreases |calls|
  {
    hide Below, Obstructed, ValidManagedPath;
    if calls != [] {
      var q, faults := calls[0].request, calls[0].faults;
      var t := After(tools, s, maximum, q, faults);
      ObstructedIff(s.files, q.path);
      NotBelowItself(q.path);
      RunTreeShaped(tools, t, maximum, calls[1..]);
    }
  }

  lemma NotBelowItself(path: string)
    ensures !Below(path, path)
  {
    forall rest ensures path != path + "/" + rest { assert |path + "/" + rest| > |path|; }
  }

  lemma EmptyAgrees(tools: Tools, revision: nat)
    ensures Agree(tools, Store(map[], map[], [], revision))
  {
  }

  // ----- what the backup collector needs ------------------------------------------------------

  /** The records a backup carries. */
  function Listed(records: map<string, Artifact>): set<string>
  {
    set id | id in records && records[id].status != Retired
  }

  /** The collector's checks, whatever the order in which it meets records and files. */
  ghost predicate Collectable(tools: Tools, s: Store)
  {
    && (forall id :: id in Listed(s.records) ==> ValidManagedPath(s.records[id].path))
    && PathsDistinct(s.records, Listed(s.records))
    && s.files.Keys == PathsOf(s.records, Listed(s.records))
    && FoldDistinct(tools.fold, s.files.Keys)
    && (forall id :: id in Listed(s.records) ==>
          Matches(tools, s.files, s.records[id]) && s.records[id].size <= MAX_ARTIFACT_BYTES)
  }

  /** After every run of creations the collector succeeds exactly when no two managed paths
      are equal up to case folding, which creation does not check. */
  lemma CollectableIff(tools: Tools, maximum: nat, calls: seq<Call>, revision: nat)
    requires maximum <= MAX_ARTIFACT_BYTES && CleansUp(calls)
    ensures
      var s := Run(tools, Store(map[], map[], [], revision), maximum, calls);
      Collectable(tools, s) <==> FoldDistinct(tools.fold, s.files.Keys)
  {
    hide ValidManagedPath, Creations, Run;
    EmptyAgrees(tools, revision);
    RunAgrees(tools, Store(map[], map[], [], revision), maximum, calls);
    var s := Run(tools, Store(map[], map[], [], revision), maximum, calls);
    assert forall id :: id in s.records ==> RecordOk(tools, s, id);
    assert Listed(s.records) == s.records.Keys;
  }

  /** Two creations that both succeed, and a backup that is refused from then on. */
  lemma FoldCollision(tools: Tools, q: Request, q': Request, maximum: nat)
    requires tools.fold("a") == tools.fold("A") && 1 <= maximum
    requires q.path == "a" && q'.path == "A" && q.id != q'.id
    requires q.content == q'.content == [] && q.limit == q'.limit == 1
    ensures
      var s := Run(tools, Store(map[], map[], [], 0), maximum, [Call(q, {}), Call(q', {})]);
      s.revision == 2 && s.files == map["a" := [], "A" := []] && !Collectable(tools, s)
  {
    hide ValidManagedPath;
    PlainPathValid("a", 1);
    PlainPathValid("A", 1);
    var s0 := Store(map[], map[], [], 0);
    var calls := [Call(q, {}), Call(q', {})];
    assert Creates(s0, maximum, q, {});
    var s1 := Created(tools, s0, q);
    assert Creates(s1, maximum, q', {});
    var s2 := Created(tools, s1, q');
    assert calls[1..] == [Call(q', {})] && calls[1..][1..] == [];
    assert Run(tools, s1, maximum, [Call(q', {})]) == s2;
    assert Run(tools, s0, maximum, calls) == Run(tools, s1, maximum, calls[1..]) == s2;
    assert "a" in s2.files && "A" in s2.files && "a"[0] != "A"[0];
  }

  /** `s` lists the elements of `all`, each once. */
  ghost predicate Lists(s: seq<string>, all: set<string>)
  {
    && (forall p :: p in s <==> p in all)
    && (forall i, j :: 0 <= i < j < |s| ==> s[i] != s[j])
  }

  // ----- the service -------------------------------------------------------------------------

  class WorkspaceFileService {
    const tools: Tools
    const maximum: nat
    var files: map<string, Bytes>
    var records: map<string, Artifact>
    var events: seq<AuditEvent>
    var revision: nat
    /** The records, events and revision of an open transaction. */
    var pending: Option<(map<string, Artifact>, seq<AuditEvent>, nat)>

    constructor (tools: Tools, maximum: nat, store: Store)
      ensures this.tools == tools && this.maximum == maximum && pending.None? && Contents() == store
    {
      this.tools, this.maximum := tools, maximum;
      files, records, events, revision := store.files, store.records, store.events, store.revision;
      pending := None;
    }

    ghost function Contents(): Store
      reads this
    {
      Store(files, records, events, revision)
    }

    /** Publish complete bytes at a new path, or leave the artifact tree as it was; a removal
        that fails is passed over. */
    method Publish(q: Request, faults: set<Point>) returns (published: bool)
      requires q.temporary !in files && q.temporary != q.path
      modifies this`files
      ensures published <==> Publishable(old(files), q) && Free(faults, PUBLICATION)
      ensures published ==> files == old(files)[q.path := q.content]
      ensures !published && Free(faults, CLEANUP) ==> files == old(files)
      ensures forall p :: p in old(files) ==> p in files && files[p] == old(files)[p]
      ensures files.Keys <= old(files).Keys + {q.path, q.temporary}
    {
      hide Obstructed;
      if |q.content| > q.limit || PrepareParents in faults || Obstructed(files, q.path) { return false; }
      var linked := false;
      if WriteTemporary in faults {
        if q.torn.Some? { files := files[q.temporary := q.torn.value]; }
      } else {
        files := files[q.temporary := q.content];
        if LinkFinal !in faults && q.path !in files {
          files := files[q.path := files[q.temporary]];
          linked := true;
          if UnlinkTemporary !in faults {
            files := files - {q.temporary};
            if FsyncDirectory !in faults && VerifyFinal !in faults && files[q.path] == q.content { return true; }
          }
        }
      }
      TakeBack(q, faults, linked);
      return false;
    }

    /** The handler of a failed publication. */
    method TakeBack(q: Request, faults: set<Point>, linked: bool)
      modifies this`files
      ensures files.Keys <= old(files).Keys
      ensures forall p :: p in files ==> files[p] == old(files)[p]
      ensures forall p :: p in old(files) && p != q.temporary && !(linked && p == q.path) ==> p in files
      ensures Free(faults, CLEANUP) ==> q.temporary !in files && (linked ==> q.path !in files)
    {
      if linked && RemoveFinal !in faults { files := files - {q.path}; }
      if RemoveTemporary !in faults { files := files - {q.temporary}; }
    }

    /** Insert the record and its creation event and raise the revision, or roll back. */
    method Register(q: Request, faults: set<Point>) returns (registered: bool)
      requires pending.None?
      modifies this`records, this`events, this`revision, this`pending
      ensures pending.None?
      ensures registered <==> Free(faults, REGISTRATION) && q.id !in old(records)
      ensures registered ==>
        && records == old(records)[q.id := Made(tools, q)] && events == old(events) + [EventOf(q)]
        && revision == old(revision) + 1
      ensures !registered ==> records == old(records) && events == old(events) && revision == old(revision)
    {
      if SerializeMetadata in faults || BeginTransaction in faults { return false; }
      pending := Some((records, events, revision));
      if InsertRecord in faults || q.id in pending.value.0 { pending := None; return false; }
      pending := Some((pending.value.0[q.id := Made(tools, q)], pending.value.1, pending.value.2));
      if InsertEvent in faults { pending := None; return false; }
      pending := Some((pending.value.0, pending.value.1 + [EventOf(q)], pending.value.2));
      if BumpRevision in faults { pending := None; return false; }
      pending := Some((pending.value.0, pending.value.1, pending.value.2 + 1));
      if CommitTransaction in faults { pending := None; return false; }
      records, events, revision := pending.value.0, pending.value.1, pending.value.2;
      pending := None;
      return true;
    }

    /** Create one artifact. An exception before the commit removes the published file; one
        after it only keeps the call from returning. When clean-up fails too, a file can be
        left without a record, and nothing else. */
    method CreateBytes(q: Request, faults: set<Point>) returns (r: Option<Artifact>)
      requires pending.None? && q.temporary !in files && q.temporary != q.path
      modifies this
      ensures pending.None?
      ensures Creates(old(Contents()), maximum, q, faults) ==> Contents() == Created(tools, old(Contents()), q)
      ensures !Creates(old(Contents()), maximum, q, faults) ==>
        && Contents() == old(Contents()).(files := files)
        && (forall p :: p in old(files) ==> p in files && files[p] == old(files)[p])
        && files.Keys <= old(files).Keys + {q.path, q.temporary}
      ensures Free(faults, CLEANUP) ==> Contents() == After(tools, old(Contents()), maximum, q, faults)
      ensures r.Some? <==> Creates(old(Contents()), maximum, q, faults) && Free(faults, AFTER_COMMIT)
      ensures r.Some? ==> r.value == Made(tools, q)
    {
      hide ValidManagedPath, Obstructed;
      if ValidateRequest in faults || !ValidManagedPath(q.path) { return None; }
      if q.limit < 1 || q.limit > maximum { return None; }
      var published := Publish(q, faults);
      if !published { return None; }
      var registered := Register(q, faults);
      if !registered {
        if CleanPublished !in faults { files := files - {q.path}; }
        return None;
      }
      if CloseFile in faults || SyncWorkspace in faults || ReadBack in faults { return None; }
      r := Some(records[q.id]);
    }

    /** The files of the artifact tree, in the order of the walk. */
    method FilePaths(walk: seq<string>) returns (r: Option<set<string>>)
      requires Lists(walk, files.Keys)
      ensures r.Some? <==> (forall p :: p in files ==> ValidManagedPath(p)) && FoldDistinct(tools.fold, files.Keys)
      ensures r.Some? ==> r.value == files.Keys
    {
      hide ValidManagedPath;
      var seen: set<string> := {};
      for i := 0 to |walk|
        invariant seen == set k | 0 <= k < i :: walk[k]
        invariant forall p :: p in seen ==> ValidManagedPath(p)
        invariant FoldDistinct(tools.fold, seen)
      {
        if !ValidManagedPath(walk[i]) { return None; }
        if exists existing :: existing in seen && tools.fold(existing) == tools.fold(walk[i]) {
          ghost var existing :| existing in seen && tools.fold(existing) == tools.fold(walk[i]);
          assert existing in files.Keys && walk[i] in files.Keys && existing != walk[i];
          return None;
        }
        seen := seen + {walk[i]};
      }
      assert seen == files.Keys;
      r := Some(seen);
    }

    /** The records a backup carries, by managed path. */
    method ExpectedPaths(ids: seq<string>) returns (r: Option<map<string, string>>)
      requires Lists(ids, Listed(records))
      ensures r.Some? <==>
        && (forall id :: id in Listed(records) ==> ValidManagedPath(records[id].path))
        && PathsDistinct(records, Listed(records))
      ensures r.Some? ==>
        && r.value.Keys == PathsOf(records, Listed(records))
        && forall p :: p in r.value ==> r.value[p] in Listed(records) && records[r.value[p]].path == p
    {
      hide ValidManagedPath;
      var expected: map<string, string> := map[];
      for i := 0 to |ids|
        invariant forall k :: 0 <= k < i ==> ids[k] in records && ValidManagedPath(records[ids[k]].path)
        invariant forall k :: 0 <= k < i ==>
          records[ids[k]].path in expected && expected[records[ids[k]].path] == ids[k]
        invariant forall p :: p in expected ==> expected[p] in ids[..i] && records[expected[p]].path == p
      {
        assert ids[i] in ids;
        var path := records[ids[i]].path;
        if !ValidManagedPath(path) { return None; }
        if path in expected {
          assert expected[path] in Listed(records) && ids[i] in Listed(records);
          return None;
        }
        expected := expected[path := ids[i]];
      }
      r := Some(expected);
      assert forall id :: id in Listed(records) ==> id in ids;
    }

    /** Verify and read the listed artifacts. */
    method ReadArtifacts(ids: seq<string>) returns (r: Option<map<string, Bytes>>)
      requires Lists(ids, Listed(records))
      ensures r.Some? <==> forall id :: id in Listed(records) ==> Carried(tools, files, records, id)
      ensures r.Some? ==> MembersOf(files, records, Listed(records), r.value)
    {
      hide MemberPath, MembersOf, Carried;
      var result: map<string, Bytes> := map[];
      ghost var done: set<string> := {};
      NoMembers(files, records);
      for i := 0 to |ids|
        invariant done == set k | 0 <= k < i :: ids[k]
        invariant forall id :: id in done ==> Carried(tools, files, records, id)
        invariant MembersOf(files, records, done, result)
      {
        assert ids[i] in ids && ids[i] in Listed(records);
        CarriedMeans(tools, files, records, ids[i]);
        var artifact := records[ids[i]];
        if !Matches(tools, files, artifact) { return None; }
        var content := files[artifact.path];
        if |content| > MAX_ARTIFACT_BYTES { return None; }
        MembersStep(files, records, done, ids[i], result);
        result := result[MemberPath(artifact.path) := content];
        done := done + {ids[i]};
      }
      assert done == Listed(records);
      r := Some(result);
    }

    /** Collect the artifacts of a backup: records, files and hashes must agree. */
    method Collect(ids: seq<string>, walk: seq<string>) returns (r: Option<map<string, Bytes>>)
      requires Lists(ids, Listed(records)) && Lists(walk, files.Keys)
      ensures r.Some? <==> Collectable(tools, Contents())
      ensures r.Some? ==>
        && r.value.Keys == (set p | p in files :: MemberPath(p))
        && forall p :: p in files ==> r.value[MemberPath(p)] == files[p]
    {
      hide ValidManagedPath, MemberPath, PathsDistinct, FoldDistinct, Matches, MembersOf, PathsOf;
      CollectableFiles(tools, Contents());
      var expected := ExpectedPaths(ids);
      if expected.None? { return None; }
      var actual := FilePaths(walk);
      if actual.None? { return None; }
      if actual.value != expected.value.Keys { return None; }
      r := ReadArtifacts(ids);
      if r.Some? { MembersByPath(files, records, Listed(records), r.value); }
    }
  }

  lemma CollectableFiles(tools: Tools, s: Store)
    ensures Collectable(tools, s) ==> forall p :: p in s.files ==> ValidManagedPath(p)
  {
    hide ValidManagedPath, Listed;
    forall p | Collectable(tools, s) && p in s.files ensures ValidManagedPath(p) {
      assert p in PathsOf(s.records, Listed(s.records));
    }
  }

  /** The record's file is in order. */
  ghost predicate Carried(tools: Tools, files: map<string, Bytes>, records: map<string, Artifact>, id: string)
  {
    id in records && Matches(tools, files, records[id]) && records[id].size <= MAX_ARTIFACT_BYTES
  }

  /** The archive path of a managed path. */
  function MemberPath(path: string): string
  {
    ARTIFACT_PREFIX + path
  }

  /** The members are the files of the given records, under their archive paths. */
  ghost predicate MembersOf(files: map<string, Bytes>, records: map<string, Artifact>, ids: set<string>,
      members: map<string, Bytes>)
  {
    && (forall id :: id in ids && id in records ==>
          && records[id].path in files && MemberPath(records[id].path) in members
          && members[MemberPath(records[id].path)] == files[records[id].path])
    && (forall name :: name in members ==>
          exists id :: id in ids && id in records && name == MemberPath(records[id].path))
  }

  lemma NoMembers(files: map<string, Bytes>, records: map<string, Artifact>)
    ensures MembersOf(files, records, {}, map[])
  {
  }

  lemma CarriedMeans(tools: Tools, files: map<string, Bytes>, records: map<string, Artifact>, id: string)
    requires id in records
    ensures Carried(tools, files, records, id)
      <==> Matches(tools, files, records[id]) && |files[records[id].path]| <= MAX_ARTIFACT_BYTES
  {
  }

  lemma MembersStep(
    files: map<string, Bytes>, records: map<string, Artifact>, ids: set<string>, id: string,
    members: map<string, Bytes>)
    requires MembersOf(files, records, ids, members) && id in records && records[id].path in files
    ensures MembersOf(files, records, ids + {id}, members[MemberPath(records[id].path) := files[records[id].path]])
  {
    hide MemberPath;
    forall other | other in ids && other in records && MemberPath(records[other].path) == MemberPath(records[id].path)
      ensures records[other].path == records[id].path
    {
      MemberPathInjective(records[other].path, records[id].path);
    }
    assert id in ids + {id};
  }

  lemma MembersByPath(files: map<string, Bytes>, records: map<string, Artifact>, ids: set<string>,
      members: map<string, Bytes>)
    requires files.Keys == PathsOf(records, ids) && MembersOf(files, records, ids, members)
    ensures members.Keys == set p | p in files :: MemberPath(p)
    ensures forall p :: p in files ==> members[MemberPath(p)] == files[p]
  {
    hide MemberPath;
    forall name | name in members ensures name in (set p | p in files :: MemberPath(p)) {
      var id :| id in ids && id in records && name == MemberPath(records[id].path);
      assert records[id].path in files;
    }
    forall p | p in files ensures MemberPath(p) in members && members[MemberPath(p)] == files[p] {
      assert p in PathsOf(records, ids);
    }
  }

  lemma MemberPathInjective(a: string, b: string)
    requires MemberPath(a) == MemberPath(b)
    ensures a == b
  {
    assert MemberPath(a)[|ARTIFACT_PREFIX|..] == a && MemberPath(b)[|ARTIFACT_PREFIX|..] == b;
  }
}
