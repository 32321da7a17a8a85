/** One backup call, from its built archive to its return, with a fault possible at every
    step (src/doll/backup.py, src/doll/backup_manifest.py).

    A fault at a point makes the step at that point raise. The file system is a map, the
    database is records, audit events and a revision, and a transaction holds its changes
    aside until it commits. */
module BackupPublication {
  import opened Outcomes
  import opened Json
  import opened AuditTrail

  const CREATE := "backup.create"

  /** The points at which a step can raise, in program order; the last five belong to
      clean-up. */
  datatype Point =
    | ReadSource | CapturePayload | VerifyPayload | ReadIdentity | CollectArtifacts
    | CheckUnchanged | ReadPayload | BuildMembers
    | WriteTemporary | VerifyTemporary | FsyncTemporary | LinkOutput
    | UnlinkTemporary | FsyncDirectory | VerifyOutput
    | CompareManifest
    | OpenRepository | ValidateFields | BeginTransaction | ReadMetadata
    | InsertRecord | InsertEvent | BumpRevision | CommitTransaction
    | SyncWorkspace | ReadBack | CloseRepository
    | RollbackUnlink | RollbackFsync | RemoveTemporary | WithdrawUnlink | WithdrawFsync | RemovePackage

  /** Removing what a failed call had put down. */
  const DELETIONS: set<Point> := {RollbackUnlink, RollbackFsync, RemoveTemporary, WithdrawUnlink, RemovePackage}

  /** From the source identity to the finished member map. */
  const BUILDING: set<Point> :=
    {ReadSource, CapturePayload, VerifyPayload, ReadIdentity, CollectArtifacts, CheckUnchanged, ReadPayload,
     BuildMembers}

  /** From the temporary archive to the verified link. */
  const LINKING: set<Point> :=
    {WriteTemporary, VerifyTemporary, FsyncTemporary, LinkOutput,
     UnlinkTemporary, FsyncDirectory, VerifyOutput}

  /** Opening the database for writing, up to and including COMMIT. */
  const REGISTRATION: set<Point> :=
    {OpenRepository, ValidateFields, BeginTransaction, ReadMetadata, InsertRecord, InsertEvent,
     BumpRevision, CommitTransaction}

  const AFTER_COMMIT: set<Point> := {SyncWorkspace, ReadBack, CloseRepository}

  /** No step at these points raises. */
  predicate Free(faults: set<Point>, points: set<Point>)
  {
    forall p :: p in points ==> p !in faults
  }

  /** What the verifier reads out of an archive's manifest. */
  datatype Facts = Facts(kind: string, workspaceId: string, schema: nat, source: nat, manifestHash: string)

  datatype Inspection = Inspection(facts: Facts, size: nat, hash: string)

  /** Archive verification, a function of the archive's bytes, and the digest. */
  datatype Verifier = Verifier(check: Bytes -> Option<Facts>, digest: Bytes -> string)
  {
    function Inspect(archive: Bytes): Option<Inspection>
    {
      var facts := check(archive);
      if facts.None? then None else Some(Inspection(facts.value, |archive|, digest(archive)))
    }
  }

  datatype BackupRecord = BackupRecord(id: string, facts: Facts, fileName: string, size: nat, hash: string)

  /** One call: the output, the two temporary siblings, what was built, and fresh identifiers.
      `manifest` is the manifest the builder wrote; `torn` is what a failing write leaves. */
  datatype Job = Job(
    output: string, temporary: string, package: string, archive: Bytes, manifest: Facts,
    packageBytes: Bytes, torn: Option<Bytes>, id: string, eventId: string, operation: string)

  /** The temporary names are unused, as `mkstemp` promises. */
  predicate FreshNames(job: Job, files: map<string, Bytes>)
  {
    && job.temporary !in files && job.package !in files
    && job.temporary != job.output && job.package != job.output && job.temporary != job.package
  }

  function RecordOf(v: Verifier, job: Job): BackupRecord
    requires v.check(job.archive).Some?
  {
    BackupRecord(job.id, v.check(job.archive).value, job.output, |job.archive|, v.digest(job.archive))
  }

  function EventOf(job: Job): AuditEvent
  {
    AuditEvent(job.eventId, job.operation, CREATE, job.id)
  }

  // ----- what a call comes to --------------------------------------------------------------

  /** The archive gets linked, and the publication does not undo the link. */
  predicate Publishes(v: Verifier, job: Job, faults: set<Point>, files: map<string, Bytes>)
  {
    job.output !in files && v.check(job.archive).Some? && Free(faults, BUILDING) && Free(faults, LINKING)
  }

  /** The comparison between publication and registration, which no handler covers. */
  predicate ManifestAgrees(v: Verifier, job: Job, faults: set<Point>)
    requires v.check(job.archive).Some?
  {
    var facts := v.check(job.archive).value;
    CompareManifest !in faults && Agrees(job.manifest, facts)
  }

  predicate Agrees(manifest: Facts, seen: Facts)
  {
    manifest.kind == seen.kind && manifest.workspaceId == seen.workspaceId && manifest.source == seen.source
  }

  /** The registering transaction commits. */
  predicate Commits(v: Verifier, job: Job, faults: set<Point>, w: WorkspaceState)
    requires v.check(job.archive).Some?
  {
    var facts := v.check(job.archive).value;
    && Free(faults, REGISTRATION)
    && facts.workspaceId == w.workspaceId && facts.schema == w.schema && facts.source == w.revision
    && job.id !in w.records
  }

  datatype WorkspaceState = WorkspaceState(
    workspaceId: string, schema: nat, revision: nat, records: map<string, BackupRecord>, events: seq<AuditEvent>)

  /** What is there after a call: the archive at the output, the inventory record, and
      whether the call returned instead of raising. */
  datatype Outcome = Outcome(file: bool, record: bool, returned: bool)

  function Expected(v: Verifier, job: Job, faults: set<Point>, files: map<string, Bytes>, w: WorkspaceState): Outcome
  {
    if !Publishes(v, job, faults, files) then Outcome(false, false, false)
    else if !ManifestAgrees(v, job, faults) then Outcome(true, false, false)
    else if !Commits(v, job, faults, w) then Outcome(false, false, false)
    else if !Free(faults, AFTER_COMMIT) then Outcome(false, true, false)
    else Outcome(true, true, RemovePackage !in faults)
  }

  /** An exception in the comparison between publication and registration. */
  predicate GapFault(v: Verifier, job: Job, faults: set<Point>, files: map<string, Bytes>)
  {
    Publishes(v, job, faults, files) && !ManifestAgrees(v, job, faults)
  }

  predicate Committed(v: Verifier, job: Job, faults: set<Point>, files: map<string, Bytes>, w: WorkspaceState)
  {
    Publishes(v, job, faults, files) && ManifestAgrees(v, job, faults) && Commits(v, job, faults, w)
  }

  /** An exception after the commit, which the handler answers by removing the file. */
  predicate LateFault(v: Verifier, job: Job, faults: set<Point>, files: map<string, Bytes>, w: WorkspaceState)
  {
    Committed(v, job, faults, files, w) && !Free(faults, AFTER_COMMIT)
  }

  /** A call leaves both the file and the record or neither, exactly when it has no exception in
      the gap and none after the commit; and it returns exactly when it leaves both and its
      last clean-up succeeds. */
  lemma BothOrNeither(v: Verifier, job: Job, faults: set<Point>, files: map<string, Bytes>, w: WorkspaceState)
    ensures
      var o := Expected(v, job, faults, files, w);
      && (o.file == o.record <==> !GapFault(v, job, faults, files) && !LateFault(v, job, faults, files, w))
      && (o.returned <==> o.file && o.record && RemovePackage !in faults)
      && (o.record <==> Committed(v, job, faults, files, w))
  {
  }

  /** A call returns exactly if its output is unused, the archive verifies with the kind, workspace and
      revision of the manifest that was built, workspace, schema and revision are still those of
      the state, the identifier is new, and no step raises. */
  lemma ReturnsIff(v: Verifier, job: Job, faults: set<Point>, files: map<string, Bytes>, w: WorkspaceState)
    ensures Expected(v, job, faults, files, w).returned <==>
      && job.output !in files && v.check(job.archive).Some?
      && var seen := v.check(job.archive).value;
      && seen.kind == job.manifest.kind
      && seen.workspaceId == job.manifest.workspaceId && seen.workspaceId == w.workspaceId
      && seen.source == job.manifest.source && seen.source == w.revision && seen.schema == w.schema
      && job.id !in w.records
      && (BUILDING + LINKING + REGISTRATION + AFTER_COMMIT + {CompareManifest, RemovePackage}) !! faults
  {
    var all := BUILDING + LINKING + REGISTRATION + AFTER_COMMIT + {CompareManifest, RemovePackage};
    assert all !! faults <==>
      BUILDING !! faults && LINKING !! faults && REGISTRATION !! faults && AFTER_COMMIT !! faults
      && CompareManifest !in faults && RemovePackage !in faults;
  }

  /** For a call that would succeed, one exception after the commit leaves a record whose file
      is gone, and one in the gap leaves a file without a record. */
  lemma LateAndGapFaults(v: Verifier, job: Job, files: map<string, Bytes>, w: WorkspaceState, late: Point)
    requires Expected(v, job, {}, files, w).returned && late in AFTER_COMMIT
    ensures Expected(v, job, {late}, files, w) == Outcome(false, true, false)
    ensures Expected(v, job, {CompareManifest}, files, w) == Outcome(true, false, false)
  {
    assert late in {late} && Committed(v, job, {late}, files, w);
  }

  /** Corollary of the exact outcome: an exception up to and including the commit, other than in
      the gap, leaves neither the file nor the record. */
  lemma EarlyFaultLeavesNothing(v: Verifier, job: Job, files: map<string, Bytes>, w: WorkspaceState,
      faults: set<Point>, early: Point)
    requires early in BUILDING + LINKING + REGISTRATION && early in faults && CompareManifest !in faults
    requires v.check(job.archive).Some? ==> Agrees(job.manifest, v.check(job.archive).value)
    ensures Expected(v, job, faults, files, w) == Outcome(false, false, false)
  {
  }

  /** The database after a commit of the call's transaction. */
  function Registered(v: Verifier, job: Job, w: WorkspaceState): WorkspaceState
    requires v.check(job.archive).Some?
  {
    w.(revision := w.revision + 1,
       records := w.records[job.id := RecordOf(v, job)],
       events := w.events + [EventOf(job)])
  }

  /** The audit trail names no backup that is not in the inventory. */
  ghost predicate NoStrayCreations(w: WorkspaceState)
  {
    forall id :: Creations(w.events, CREATE, id) > 0 ==> id in w.records
  }

  ghost predicate BackedRecord(v: Verifier, files: map<string, Bytes>, w: WorkspaceState, id: string)
    requires id in w.records
  {
    var rec := w.records[id];
    && rec.fileName in files && |files[rec.fileName]| == rec.size && v.digest(files[rec.fileName]) == rec.hash
    && Creations(w.events, CREATE, id) == 1
  }

  /** A call that leaves both keeps every record backed by its file. */
  lemma RegisteredBacked(v: Verifier, job: Job, files: map<string, Bytes>, after: map<string, Bytes>,
      w: WorkspaceState, id: string)
    requires v.check(job.archive).Some? && job.id !in w.records && NoStrayCreations(w)
    requires forall p :: p in files ==> p in after && after[p] == files[p]
    requires job.output in after && after[job.output] == job.archive
    requires id in Registered(v, job, w).records && (id != job.id ==> BackedRecord(v, files, w, id))
    ensures BackedRecord(v, after, Registered(v, job, w), id)
  {
    CreationsSnoc(w.events, EventOf(job), CREATE, id);
  }

  lemma StaysBacked(v: Verifier, job: Job, files: map<string, Bytes>, after: map<string, Bytes>,
                    w: WorkspaceState, now: WorkspaceState)
    requires NoStrayCreations(w) && forall id :: id in w.records ==> BackedRecord(v, files, w, id)
    requires forall p :: p in files ==> p in after && after[p] == files[p]
    requires now == w || (
      && v.check(job.archive).Some? && now == Registered(v, job, w) && job.id !in w.records
      && job.output in after && after[job.output] == job.archive)
    ensures NoStrayCreations(now) && forall id :: id in now.records ==> BackedRecord(v, after, now, id)
  {
    if now == w {
      assert forall id :: id in w.records ==> BackedRecord(v, after, w, id);
    } else {
      forall id | id in now.records ensures BackedRecord(v, after, now, id) {
        RegisteredBacked(v, job, files, after, w, id);
      }
      forall id | Creations(now.events, CREATE, id) > 0 ensures id in now.records {
        CreationsSnoc(w.events, EventOf(job), CREATE, id);
      }
    }
  }

  /** What a call comes to depends on the files only through the output, and what that means
      for the pieces of the outcome. */
  lemma SameExpectation(v: Verifier, job: Job, faults: set<Point>, files: map<string, Bytes>, more: map<string,
      Bytes>, w: WorkspaceState)
    requires job.output in files <==> job.output in more
    ensures Expected(v, job, faults, more, w) == Expected(v, job, faults, files, w)
    ensures
      var o := Expected(v, job, faults, files, w);
      && (job.output in files || !Free(faults, BUILDING) ==> o == Outcome(false, false, false))
      && (o.returned <==> o.file && o.record && RemovePackage !in faults)
      && (o.record && !LateFault(v, job, faults, files, w) ==> o.file)
      && (o.record ==> v.check(job.archive).Some? && job.id !in w.records)
  {
  }

  class Workspace {
    var files: map<string, Bytes>
    var state: WorkspaceState
    var pending: Option<WorkspaceState>
    var synced: nat

    constructor (files: map<string, Bytes>, state: WorkspaceState)
      ensures Valid() && this.files == files && this.state == state
    {
      this.files, this.state, pending, synced := files, state, None, state.revision;
    }

    /** No transaction is open, and the workspace identity is not ahead of the database. */
    ghost predicate Valid()
      reads this
    {
      pending.None? && synced <= state.revision
    }

    /** Every inventory record has its file, with the recorded size and hash, and exactly one
        creation event. */
    ghost predicate Backed(v: Verifier)
      reads this`files, this`state
    {
      forall id :: id in state.records ==> BackedRecord(v, files, state, id)
    }

    /** `unlink`, with `missing_ok`. */
    method Remove(path: string)
      modifies this`files
      ensures files == old(files) - {path}
    {
      files := files - {path};
    }

    /** Write the archive beside the output and verify it. */
    method WriteTemporaryArchive(v: Verifier, job: Job, faults: set<Point>) returns (r: Option<Inspection>)
      modifies this`files
      ensures r.Some? <==> v.check(job.archive).Some? && Free(faults, {WriteTemporary, VerifyTemporary, FsyncTemporary})
      ensures r.Some? ==> r == v.Inspect(job.archive) && files == old(files)[job.temporary := job.archive]
      ensures files - {job.temporary} == old(files) - {job.temporary}
      ensures forall p :: p != job.temporary ==>
        (p in files <==> p in old(files)) && (p in files ==> files[p] == old(files)[p])
    {
      if WriteTemporary in faults {
        if job.torn.Some? { files := files[job.temporary := job.torn.value]; }
        return None;
      }
      files := files[job.temporary := job.archive];
      if VerifyTemporary in faults { return None; }
      r := v.Inspect(files[job.temporary]);
      if FsyncTemporary in faults { return None; }
    }

    /** Write and verify the archive beside the output, link it without overwriting and
        verify it again; on any exception take the link back and remove the temporary
        file. */
    method PublishVerified(v: Verifier, job: Job, faults: set<Point>) returns (r: Option<Inspection>)
      requires job.temporary !in files && job.temporary != job.output
      modifies this`files
      ensures r.Some? <==> job.output !in old(files) && v.check(job.archive).Some? && Free(faults, LINKING)
      ensures r.Some? ==> r == v.Inspect(job.archive) && files == old(files)[job.output := job.archive]
      ensures r.None? && Free(faults, DELETIONS) ==> files == old(files)
      ensures forall p :: p in old(files) ==> p in files && files[p] == old(files)[p]
      ensures files.Keys <= old(files).Keys + {job.output, job.temporary}
    {
      var published := false;
      var inspection := WriteTemporaryArchive(v, job, faults);
      if inspection.Some? && LinkOutput !in faults && job.output !in files {
        files := files[job.output := files[job.temporary]];
        published := true;
        if UnlinkTemporary !in faults {
          Remove(job.temporary);
          if FsyncDirectory !in faults && VerifyOutput !in faults && v.Inspect(files[job.output]) == inspection {
            return inspection;
          }
        }
      }
      TakeBack(job, faults, published);
      r := None;
    }

    /** The handler of a failed publication: the link first, then the temporary file. */
    method TakeBack(job: Job, faults: set<Point>, published: bool)
      modifies this`files
      ensures files.Keys <= old(files).Keys
      ensures forall p :: p in old(files) && p != job.temporary && !(published && p == job.output) ==>
        p in files && files[p] == old(files)[p]
      ensures forall p :: p in files ==> files[p] == old(files)[p]
      ensures Free(faults, DELETIONS) ==> job.temporary !in files && (published ==> job.output !in files)
    {
      if published {
        if RollbackUnlink in faults { return; }
        Remove(job.output);
        if RollbackFsync in faults { return; }
      }
      if RemoveTemporary !in faults { Remove(job.temporary); }
    }

    /** The registering transaction: compare the revision, insert the record and its audit
        event, raise the revision, commit; any exception rolls it back. */
    method RegisterVerified(job: Job, seen: Inspection, faults: set<Point>) returns (r: Option<BackupRecord>)
      requires Valid()
      modifies this`state, this`pending, this`synced
      ensures Valid()
      ensures
        var committed :=
          && Free(faults, REGISTRATION - {OpenRepository})
          && seen.facts.workspaceId == old(state).workspaceId && seen.facts.schema == old(state).schema
          && seen.facts.source == old(state).revision && job.id !in old(state).records;
        var made := BackupRecord(job.id, seen.facts, job.output, seen.size, seen.hash);
        && (committed ==> state == old(state).(revision := old(state).revision + 1,
                                               records := old(state).records[job.id := made],
                                               events := old(state).events + [EventOf(job)]))
        && (!committed ==> state == old(state) && r.None?)
        && (r.Some? <==> committed && Free(faults, {SyncWorkspace, ReadBack}))
        && (r.Some? ==> r.value == made)
    {
      if ValidateFields in faults || seen.facts.workspaceId != state.workspaceId { return None; }
      if BeginTransaction in faults { return None; }
      pending := Some(state);
      var done := Transact(job, seen, faults);
      if !done {
        pending := None;
        return None;
      }
      state, pending := pending.value, None;
      if SyncWorkspace in faults { return None; }
      synced := state.revision;
      if ReadBack in faults { return None; }
      r := Some(state.records[job.id]);
    }

    /** The statements between BEGIN and COMMIT. */
    method Transact(job: Job, seen: Inspection, faults: set<Point>) returns (done: bool)
      requires pending.Some?
      modifies this`pending
      ensures pending.Some?
      ensures done <==>
        && Free(faults, {ReadMetadata, InsertRecord, InsertEvent, BumpRevision, CommitTransaction})
        && seen.facts.schema == old(pending).value.schema && seen.facts.source == old(pending).value.revision
        && job.id !in old(pending).value.records
      ensures done ==>
        var was := old(pending).value;
        var made := BackupRecord(job.id, seen.facts, job.output, seen.size, seen.hash);
        pending.value == was.(revision := was.revision + 1, records := was.records[job.id := made],
                              events := was.events + [EventOf(job)])
    {
      if ReadMetadata in faults { return false; }
      if pending.value.schema != seen.facts.schema { return false; }
      if pending.value.revision != seen.facts.source { return false; }
      if InsertRecord in faults || job.id in pending.value.records { return false; }
      var made := BackupRecord(job.id, seen.facts, job.output, seen.size, seen.hash);
      pending := Some(pending.value.(records := pending.value.records[job.id := made]));
      if InsertEvent in faults { return false; }
      pending := Some(pending.value.(events := pending.value.events + [EventOf(job)]));
      if BumpRevision in faults { return false; }
      pending := Some(pending.value.(revision := pending.value.revision + 1));
      return CommitTransaction !in faults;
    }

    /** Register the published archive; on any exception, even one after the commit, remove
        the published file. */
    method RegisterPublished(v: Verifier, job: Job, seen: Inspection, faults: set<Point>)
      returns (r: Option<BackupRecord>)
      requires Valid() && v.check(job.archive).Some? && Some(seen) == v.Inspect(job.archive)
      modifies this
      ensures Valid()
      ensures state == if Commits(v, job, faults, old(state)) then Registered(v, job, old(state)) else old(state)
      ensures r.Some? <==> Commits(v, job, faults, old(state)) && Free(faults, AFTER_COMMIT)
      ensures r.Some? ==> r.value == RecordOf(v, job) && files == old(files)
      ensures r.None? ==> files == if WithdrawUnlink in faults then old(files) else old(files) - {job.output}
    {
      r := None;
      if OpenRepository !in faults {
        r := RegisterVerified(job, seen, faults);
        if CloseRepository in faults { r := None; }
      }
      if r.None? && WithdrawUnlink !in faults { Remove(job.output); }
    }

    /** Capture the source in the payload file beside the output, check it and build the
        members from it. */
    method Build(job: Job, faults: set<Point>) returns (built: bool)
      requires job.package !in files
      modifies this`files
      ensures built <==> Free(faults, BUILDING)
      ensures files - {job.package} == old(files)
    {
      if ReadSource in faults { return false; }
      if CapturePayload in faults {
        if job.torn.Some? { files := files[job.package := job.torn.value]; }
        return false;
      }
      files := files[job.package := job.packageBytes];
      if VerifyPayload in faults || ReadIdentity in faults || CollectArtifacts in faults { return false; }
      return CheckUnchanged !in faults && ReadPayload !in faults && BuildMembers !in faults;
    }

    /** Publish, compare, register: what follows once the members are built. */
    method Attempt(v: Verifier, job: Job, faults: set<Point>) returns (r: Option<BackupRecord>)
      requires Valid() && job.temporary !in files && job.temporary != job.output && job.output !in files
      requires Free(faults, BUILDING)
      modifies this
      ensures Valid()
      ensures
        var expected := Expected(v, job, faults, old(files), old(state));
        && (expected.record ==> v.check(job.archive).Some? && state == Registered(v, job, old(state)))
        && (!expected.record ==> state == old(state))
        && (r.Some? <==> expected.file && expected.record)
        && (r.Some? ==> r.value == RecordOf(v, job) && files == old(files)[job.output := job.archive])
        && (Free(faults, DELETIONS) ==>
              files == if expected.file then old(files)[job.output := job.archive] else old(files))
      ensures forall p :: p in old(files) ==> p in files && files[p] == old(files)[p]
      ensures files.Keys <= old(files).Keys + {job.output, job.temporary}
    {
      hide Registered, RecordOf;
      var seen := PublishVerified(v, job, faults);
      if seen.None? || CompareManifest in faults || !Agrees(job.manifest, seen.value.facts) { return None; }
      r := RegisterPublished(v, job, seen.value, faults);
    }

    /** A whole call. Over any sequence of calls without an exception after a commit the
        inventory stays backed. */
    method CreateBackup(v: Verifier, job: Job, faults: set<Point>) returns (r: Option<BackupRecord>)
      requires Valid() && FreshNames(job, files)
      modifies this
      ensures Valid()
      // the database
      ensures
        var expected := Expected(v, job, faults, old(files), old(state));
        && (expected.record ==> v.check(job.archive).Some? && state == Registered(v, job, old(state)))
        && (!expected.record ==> state == old(state))
        && (r.Some? <==> expected.returned)
        && (r.Some? ==> r.value == RecordOf(v, job))
      // the file system
      ensures Free(faults, DELETIONS) ==>
        files == if Expected(v, job, faults, old(files), old(state)).file
                 then old(files)[job.output := job.archive] else old(files)
      ensures r.Some? ==> files == old(files)[job.output := job.archive]
      ensures forall p :: p in old(files) ==> p in files && files[p] == old(files)[p]
      ensures files.Keys <= old(files).Keys + {job.output, job.temporary, job.package}
      // the inventory as a whole
      ensures old(Backed(v) && NoStrayCreations(state)) && !LateFault(v, job, faults, old(files), old(state)) ==>
        Backed(v) && NoStrayCreations(state)
    {
      hide NoStrayCreations, BackedRecord, Registered, RecordOf, Expected, LateFault;
      SameExpectation(v, job, faults, files, files, state);
      r := None;
      if job.output in files { return; }
      var built := Build(job, faults);
      assert forall p :: p in files - {job.package} <==> p in old(files);
      SameExpectation(v, job, faults, old(files), files, state);
      if built { r := Attempt(v, job, faults); }
      if RemovePackage in faults { r := None; } else { Remove(job.package); }
      if old(Backed(v) && NoStrayCreations(state)) && !LateFault(v, job, faults, old(files), old(state)) {
        StaysBacked(v, job, old(files), files, old(state), state);
      }
    }
  }
}
