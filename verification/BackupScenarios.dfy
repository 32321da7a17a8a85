/** Particular runs of the backup protocol (src/doll/backup.py): a workspace backup that nobody
    interrupts, a withdrawal that removes the file of another backup, and a writer whose sync
    overtakes that of a backup. */
module BackupScenarios {
  import opened Outcomes
  import opened Json
  import opened ManagedPaths
  import opened BackupProtocol

  // ----- a backup that is left alone ------------------------------------------------------------

  /** The steps of one workspace backup without interruption. */
  function WorkspaceCall(i: nat, output: Path, paths: set<Path>, event: string): seq<Step>
  {
    PrepareCall(i, output, paths) + PublishCall(i, event)
  }

  function PrepareCall(i: nat, output: Path, paths: set<Path>): seq<Step>
  {
    [Open(i, WorkspaceKind, output), Identify(i), Snapshot(i), Walk(i), ReadFiles(i, paths), CheckUnchanged(i)]
  }

  function PublishCall(i: nat, event: string): seq<Step>
  {
    EnterCall(i) + [Commit(i, event), Settle(i), Return(i)]
  }

  /** From the link to the compared revision. */
  function EnterCall(i: nat): seq<Step>
  {
    [Link(i), Confirm(i), Match(i), Begin(i), Compare(i)]
  }

  /** The archive of the current state. */
  function Capture(s: Shared): Archive
  {
    Archive(WorkspaceKind, s.revision, PayloadOf(WorkspaceKind, Durable(s)))
  }

  /** What a workspace backup insists on before it captures: an identity in step, no secret
      row, nothing unknown in the workspace, and an artifact tree that holds exactly the owned
      paths, no two alike up to case. */
  ghost predicate Capturable(codec: Codec, s: Shared)
  {
    && s.synced == s.revision && !HasSecrets(s.tables) && s.tidy
    && s.files.Keys == Owned(s.tables) && FoldDistinct(codec.fold, Owned(s.tables))
  }

  /** `st` with its shared part replaced and backup `i` in the given phase. */
  function At(st: State, shared: Shared, i: nat, phase: Phase): State
  {
    State(shared, st.backups[i := phase])
  }

  /** A call that has raised stays where it is. */
  lemma {:induction false} RaisedStays(codec: Codec, st: State, s: Shared, i: nat, steps: seq<Step>)
    requires forall k :: 0 <= k < |steps| ==> (IsPrepare(steps[k]) || IsPublish(steps[k])) && steps[k].id == i
    ensures Run(codec, At(st, s, i, Raised), steps) == At(st, s, i, Raised)
    decreases |steps|
  {
    hide Apply, At;
    if steps != [] {
      RaisedStep(codec, st, s, i, steps[0]);
      RaisedStays(codec, st, s, i, steps[1..]);
    }
  }

  lemma RaisedStep(codec: Codec, st: State, s: Shared, i: nat, step: Step)
    requires (IsPrepare(step) || IsPublish(step)) && step.id == i
    ensures Apply(codec, At(st, s, i, Raised), step) == At(st, s, i, Raised)
  {
    hide FilesComplete, PayloadOf, Covered, ReadStep, CommitState, WithEvent;
  }

  lemma PreparesAt(codec: Codec, st: State, s: Shared, i: nat, phase: Phase, step: Step)
    requires IsPrepare(step) && step.id == i
    ensures Apply(codec, At(st, s, i, phase), step) == At(st, s, i, PrepareStep(codec, s, phase, step))
  {
    hide PrepareStep, PublishStep, WriterStep, OutsiderStep;
  }

  lemma PublishesAt(codec: Codec, st: State, s: Shared, i: nat, phase: Phase, step: Step)
    requires IsPublish(step) && step.id == i
    ensures
      var (t, next) := PublishStep(codec, s, phase, step);
      Apply(codec, At(st, s, i, phase), step) == At(st, t, i, next)
  {
    hide PrepareStep, PublishStep, WriterStep, OutsiderStep;
  }

  /** A step of somebody else. */
  lemma ElsewhereAt(codec: Codec, st: State, s: Shared, i: nat, phase: Phase, step: Step)
    requires !step.Open? && !IsPrepare(step) && !IsPublish(step)
    ensures
      var t := if IsOutsider(step) then OutsiderStep(s, step) else WriterStep(s, step);
      Apply(codec, At(st, s, i, phase), step) == At(st, t, i, phase)
  {
    hide WriterStep, OutsiderStep;
  }

  lemma OpensAt(codec: Codec, st: State, i: nat, output: Path)
    requires i !in st.backups
    ensures Apply(codec, st, Open(i, WorkspaceKind, output)) == At(st, st.shared, i,
      if output in st.shared.outputs then Raised else Opened(WorkspaceKind, output, st.shared.synced))
  {
    hide PrepareStep, PublishStep, WriterStep, OutsiderStep;
  }

  /** The phases of an undisturbed reader. */
  function Begun(s: Shared, output: Path): Phase
  {
    Reading(WorkspaceKind, output, s.revision, NOTHING)
  }

  function Taken(s: Shared, output: Path, files: map<Path, Bytes>, walked: Option<set<Path>>): Phase
  {
    var listed := map t | t in s.tables :: s.tables[t].Keys;
    Reading(WorkspaceKind, output, s.revision,
            Seen(Content(s.tables, s.inventory, files), listed, Some(s.inventory.Keys), walked))
  }

  function Walked(s: Shared, output: Path, files: map<Path, Bytes>): Phase
  {
    Taken(s, output, files, Some(s.files.Keys))
  }

  lemma BeginsAlone(codec: Codec, s: Shared, i: nat, output: Path)
    ensures PrepareStep(codec, s, Opened(WorkspaceKind, output, s.synced), Identify(i))
      == if s.synced == s.revision then Begun(s, output) else Raised
  {
    hide HasSecrets, FilesComplete, PayloadOf, Covered;
  }

  lemma SnapshotsAlone(codec: Codec, s: Shared, i: nat, output: Path)
    ensures PrepareStep(codec, s, Begun(s, output), Snapshot(i))
      == if !HasSecrets(s.tables) && s.tidy then Taken(s, output, map[], None) else Raised
  {
    hide HasSecrets, FilesComplete, PayloadOf, Covered;
  }

  lemma WalksAlone(codec: Codec, s: Shared, i: nat, output: Path)
    ensures PrepareStep(codec, s, Taken(s, output, map[], None), Walk(i)) == Walked(s, output, map[])
  {
    hide HasSecrets, FilesComplete, PayloadOf, Covered;
  }

  lemma ReadsFilesAlone(codec: Codec, s: Shared, i: nat, output: Path)
    ensures PrepareStep(codec, s, Walked(s, output, map[]), ReadFiles(i, Owned(s.tables)))
      == Walked(s, output, OwnedFiles(s.tables, s.files))
  {
    hide Owned, HasSecrets, FilesComplete, PayloadOf, Covered;
    var files := map p | p in Owned(s.tables) && p in s.files :: s.files[p];
    assert map[] + files == OwnedFiles(s.tables, s.files);
  }

  lemma ChecksAlone(codec: Codec, s: Shared, i: nat, output: Path)
    requires SharedOk(s) && s.synced == s.revision
    ensures PrepareStep(codec, s, Walked(s, output, OwnedFiles(s.tables, s.files)), CheckUnchanged(i))
      == if s.files.Keys == Owned(s.tables) && FoldDistinct(codec.fold, Owned(s.tables))
         then Ready(output, Capture(s)) else Raised
  {
    hide Owned, HasSecrets, FoldDistinct, PayloadOf, ReadStep;
    assert Durable(s).files.Keys == Owned(s.tables);
  }

  /** An undisturbed reader gets ready exactly when the workspace can be captured. */
  lemma PrepareAlone(codec: Codec, st: State, i: nat, output: Path)
    requires SharedOk(st.shared) && i !in st.backups
    ensures
      var s := st.shared;
      Run(codec, st, PrepareCall(i, output, Owned(s.tables)))
      == At(st, s, i, if output !in s.outputs && Capturable(codec, s) then Ready(output, Capture(s)) else Raised)
  {
    hide Owned, Run, Apply, PrepareStep, Durable, At, HasSecrets, FoldDistinct, Capture, SharedOk;
    var s := st.shared;
    var paths := Owned(s.tables);
    var rest := PrepareCall(i, output, paths)[1..];
    OpensAt(codec, st, i, output);
    RunOne(codec, st, Open(i, WorkspaceKind, output), rest);
    assert PrepareCall(i, output, paths) == [Open(i, WorkspaceKind, output)] + rest;
    if output in s.outputs {
      RaisedStays(codec, st, s, i, rest);
    } else {
      assert rest == [Identify(i), Snapshot(i), Walk(i), ReadFiles(i, paths), CheckUnchanged(i)];
      ReadAlone(codec, st, i, output);
    }
  }

  lemma ReadAlone(codec: Codec, st: State, i: nat, output: Path)
    requires SharedOk(st.shared)
    ensures
      var s := st.shared;
      var steps := [Identify(i), Snapshot(i), Walk(i), ReadFiles(i, Owned(s.tables)), CheckUnchanged(i)];
      Run(codec, At(st, s, i, Opened(WorkspaceKind, output, s.synced)), steps)
      == At(st, s, i, if Capturable(codec, s) then Ready(output, Capture(s)) else Raised)
  {
    hide Owned, Run, Apply, PrepareStep, Durable, At, HasSecrets, FoldDistinct, Capture, SharedOk;
    hide Begun, Taken, Walked, OwnedFiles;
    var s := st.shared;
    var start := Opened(WorkspaceKind, output, s.synced);
    var files := ReadFiles(i, Owned(s.tables));
    BeginsAlone(codec, s, i, output);
    SnapshotsAlone(codec, s, i, output);
    WalksAlone(codec, s, i, output);
    ReadsFilesAlone(codec, s, i, output);
    if s.synced == s.revision { ChecksAlone(codec, s, i, output); }
    PreparesAt(codec, st, s, i, start, Identify(i));
    PreparesAt(codec, st, s, i, Begun(s, output), Snapshot(i));
    PreparesAt(codec, st, s, i, Taken(s, output, map[], None), Walk(i));
    PreparesAt(codec, st, s, i, Walked(s, output, map[]), files);
    PreparesAt(codec, st, s, i, Walked(s, output, OwnedFiles(s.tables, s.files)), CheckUnchanged(i));
    FiveSteps(codec, At(st, s, i, start), Identify(i), Snapshot(i), Walk(i), files, CheckUnchanged(i));
    forall step | (IsPrepare(step) || IsPublish(step)) && step.id == i
      ensures Apply(codec, At(st, s, i, Raised), step) == At(st, s, i, Raised)
    {
      RaisedStep(codec, st, s, i, step);
    }
  }

  lemma FiveSteps(codec: Codec, st: State, a: Step, b: Step, c: Step, d: Step, e: Step)
    ensures Run(codec, st, [a, b, c, d, e])
      == Apply(codec, Apply(codec, Apply(codec, Apply(codec, Apply(codec, st, a), b), c), d), e)
  {
    hide Apply;
    var s1 := Apply(codec, st, a);
    var s2 := Apply(codec, s1, b);
    var s3 := Apply(codec, s2, c);
    var s4 := Apply(codec, s3, d);
    assert [a, b, c, d, e] == [a] + [b, c, d, e] && [b, c, d, e] == [b] + [c, d, e];
    assert [c, d, e] == [c] + [d, e] && [d, e] == [d] + [e] && [e] == [e] + [];
    RunOne(codec, st, a, [b, c, d, e]);
    RunOne(codec, s1, b, [c, d, e]);
    RunOne(codec, s2, c, [d, e]);
    RunOne(codec, s3, d, [e]);
    RunOne(codec, s4, e, []);
  }

  lemma ThreeSteps(codec: Codec, st: State, a: Step, b: Step, c: Step)
    ensures Run(codec, st, [a, b, c]) == Apply(codec, Apply(codec, Apply(codec, st, a), b), c)
  {
    hide Apply;
    var s1 := Apply(codec, st, a);
    var s2 := Apply(codec, s1, b);
    assert [a, b, c] == [a] + [b, c] && [b, c] == [b] + [c] && [c] == [c] + [];
    RunOne(codec, st, a, [b, c]);
    RunOne(codec, s1, b, [c]);
    RunOne(codec, s2, c, []);
  }

  /** The shared state after an accepted link. */
  function Posting(s: Shared, i: nat, output: Path, a: Archive): Shared
  {
    s.(outputs := s.outputs[output := Linked(i, a)], linked := s.linked[i := a])
  }

  /** The shared state once the transaction is open and the revision compared. */
  function Entered(s: Shared, i: nat, output: Path, a: Archive): Shared
  {
    Posting(s, i, output, a).(lock := Some(Backup(i)))
  }

  /** The shared state after the registering commit. */
  function Registry(codec: Codec, s: Shared, i: nat, output: Path, a: Archive, event: string): Shared
  {
    var locked := Entered(s, i, output, a);
    CommitState(locked, locked.revision + 1, WithEvent(locked.tables, event),
                locked.inventory[i := Record(codec, output, a)])
  }

  lemma ConfirmStep(codec: Codec, s: Shared, i: nat, output: Path, a: Archive)
    requires output in s.outputs && s.outputs[output] == Linked(i, a)
    ensures PublishStep(codec, s, Posted(output, a), Confirm(i)) == (s, Published(output, a))
  {
    hide CommitState, Record, WithEvent;
  }

  lemma MatchStep(codec: Codec, s: Shared, i: nat, output: Path, a: Archive)
    ensures PublishStep(codec, s, Published(output, a), Match(i)) == (s, Registering(output, a))
  {
    hide CommitState, Record, WithEvent;
  }

  lemma BeginStep(codec: Codec, s: Shared, i: nat, output: Path, a: Archive)
    requires s.lock == None
    ensures PublishStep(codec, s, Registering(output, a), Begin(i))
      == (s.(lock := Some(Backup(i))), Locked(output, a))
  {
    hide CommitState, Record, WithEvent;
  }

  lemma CompareStep(codec: Codec, s: Shared, i: nat, output: Path, a: Archive)
    ensures PublishStep(codec, s, Locked(output, a), Compare(i))
      == if s.revision == a.source then (s, Compared(output, a)) else (s.(lock := None), Withdrawing(output, a, false))
  {
    hide CommitState, Record, WithEvent;
  }

  lemma SettleStep(codec: Codec, s: Shared, i: nat, output: Path, a: Archive)
    ensures PublishStep(codec, s, Committed(output, a), Settle(i))
      == if s.synced <= a.source + 1 then (s.(synced := a.source + 1), Returning(output, a))
         else (s, Withdrawing(output, a, true))
  {
    hide CommitState, Record, WithEvent;
  }

  lemma ReturnStep(codec: Codec, s: Shared, i: nat, output: Path, a: Archive)
    ensures PublishStep(codec, s, Returning(output, a), Return(i)) == (s, Done(output, a))
  {
    hide CommitState, Record, WithEvent;
  }

  lemma UnlinkStep(codec: Codec, s: Shared, i: nat, output: Path, a: Archive, committed: bool)
    ensures PublishStep(codec, s, Withdrawing(output, a, committed), Unlink(i))
      == (s.(outputs := s.outputs - {output}), if committed then RaisedLate else Raised)
  {
    hide CommitState, Record, WithEvent;
  }

  /** From the link to the compared revision, with nobody in between. */
  lemma EnterAlone(codec: Codec, st: State, s: Shared, i: nat, output: Path, a: Archive)
    requires output !in s.outputs && s.lock == None && s.revision == a.source && codec.accepts(a)
    ensures Run(codec, At(st, s, i, Ready(output, a)), EnterCall(i))
      == At(st, Entered(s, i, output, a), i, Compared(output, a))
  {
    hide Owned, Durable, Run, Apply, PublishStep, At;
    var posted, locked := Posting(s, i, output, a), Entered(s, i, output, a);
    LinkStep(codec, s, i, output, a);
    ConfirmStep(codec, posted, i, output, a);
    MatchStep(codec, posted, i, output, a);
    BeginStep(codec, posted, i, output, a);
    CompareStep(codec, locked, i, output, a);
    PublishesAt(codec, st, s, i, Ready(output, a), Link(i));
    PublishesAt(codec, st, posted, i, Posted(output, a), Confirm(i));
    PublishesAt(codec, st, posted, i, Published(output, a), Match(i));
    PublishesAt(codec, st, posted, i, Registering(output, a), Begin(i));
    PublishesAt(codec, st, locked, i, Locked(output, a), Compare(i));
    FiveSteps(codec, At(st, s, i, Ready(output, a)), Link(i), Confirm(i), Match(i), Begin(i), Compare(i));
  }

  /** Commit, identity and return, with nobody in between. */
  lemma FinishAlone(codec: Codec, st: State, s: Shared, i: nat, output: Path, a: Archive, event: string)
    requires AUDIT in s.tables && event !in s.tables[AUDIT] && s.synced <= a.source + 1
    ensures
      var done := Registry(codec, s, i, output, a, event).(synced := a.source + 1);
      Run(codec, At(st, Entered(s, i, output, a), i, Compared(output, a)), [Commit(i, event), Settle(i), Return(i)])
      == At(st, done, i, Done(output, a))
  {
    hide Owned, Durable, Run, Apply, PublishStep, At, WithEvent;
    var locked, committed := Entered(s, i, output, a), Registry(codec, s, i, output, a, event);
    var done := committed.(synced := a.source + 1);
    CommitStep(codec, locked, i, output, a, event);
    SettleStep(codec, committed, i, output, a);
    ReturnStep(codec, done, i, output, a);
    PublishesAt(codec, st, locked, i, Compared(output, a), Commit(i, event));
    PublishesAt(codec, st, committed, i, Committed(output, a), Settle(i));
    PublishesAt(codec, st, done, i, Returning(output, a), Return(i));
    ThreeSteps(codec, At(st, locked, i, Compared(output, a)), Commit(i, event), Settle(i), Return(i));
  }

  lemma RefusedAlone(codec: Codec, st: State, s: Shared, i: nat, output: Path, a: Archive, event: string)
    requires !codec.accepts(a)
    ensures Run(codec, At(st, s, i, Ready(output, a)), PublishCall(i, event)) == At(st, s, i, Raised)
  {
    hide Run, Apply, At, PublishStep;
    var rest := PublishCall(i, event)[1..];
    assert PublishCall(i, event) == [Link(i)] + rest;
    RefusedLink(codec, s, i, output, a);
    PublishesAt(codec, st, s, i, Ready(output, a), Link(i));
    RunOne(codec, At(st, s, i, Ready(output, a)), Link(i), rest);
    RaisedStays(codec, st, s, i, rest);
  }

  lemma RefusedLink(codec: Codec, s: Shared, i: nat, output: Path, a: Archive)
    requires !codec.accepts(a)
    ensures PublishStep(codec, s, Ready(output, a), Link(i)) == (s, Raised)
  {
    hide CommitState, Record;
  }

  lemma RegistryFields(codec: Codec, s: Shared, i: nat, output: Path, a: Archive, event: string)
    ensures
      var t := Registry(codec, s, i, output, a, event);
      && t.revision == s.revision + 1 && t.synced == s.synced && t.tables == WithEvent(s.tables, event)
      && t.inventory == s.inventory[i := Record(codec, output, a)]
      && t.outputs == s.outputs[output := Linked(i, a)] && t.lock == None
      && t.schema == s.schema && t.files == s.files
  {
    hide WithEvent, Durable, Record;
  }

  /** Whenever the write lock is free, a workspace backup that nobody interrupts completes if
      and only if its output is unused, the workspace can be captured and the archive built
      from it verifies; then it holds the current state and is registered as the next
      revision, and otherwise it raises and changes nothing. */
  lemma UninterruptedCompletesIff(codec: Codec, st: State, i: nat, output: Path, event: string)
    requires Invariant(codec, st) && st.shared.lock == None && i !in st.backups
    requires AUDIT in st.shared.tables ==> event !in st.shared.tables[AUDIT]
    ensures
      var s := st.shared;
      var a := Capture(s);
      var end := Run(codec, st, WorkspaceCall(i, output, Owned(s.tables), event));
      if output !in s.outputs && Capturable(codec, s) && codec.accepts(a) then
        && a.payload == Durable(s)
        && end.backups == st.backups[i := Done(output, a)]
        && end.shared.revision == s.revision + 1 && end.shared.synced == s.revision + 1
        && end.shared.tables == WithEvent(s.tables, event)
        && end.shared.inventory == s.inventory[i := Record(codec, output, a)]
        && end.shared.outputs == s.outputs[output := Linked(i, a)] && end.shared.lock == None
      else end == st.(backups := st.backups[i := Raised])
  {
    hide Owned, Run, PrepareCall, PublishCall, EnterCall, Durable, Capturable, SharedOk, WithEvent, Registry, Entered;
    var s := st.shared;
    var a := Capture(s);
    PrepareAlone(codec, st, i, output);
    RunAppend(codec, st, PrepareCall(i, output, Owned(s.tables)), PublishCall(i, event));
    if output in s.outputs || !Capturable(codec, s) {
      PublishSteps(i, event);
      RaisedStays(codec, st, s, i, PublishCall(i, event));
    } else if !codec.accepts(a) {
      RefusedAlone(codec, st, s, i, output, a, event);
    } else {
      AuditTable(s);
      WholePayload(s);
      InStep(codec, s);
      EnterAlone(codec, st, s, i, output, a);
      FinishAlone(codec, st, s, i, output, a, event);
      PublishParts(codec, At(st, s, i, Ready(output, a)), i, event);
      RegistryFields(codec, s, i, output, a, event);
    }
  }

  lemma PublishParts(codec: Codec, st: State, i: nat, event: string)
    ensures Run(codec, st, PublishCall(i, event))
      == Run(codec, Run(codec, st, EnterCall(i)), [Commit(i, event), Settle(i), Return(i)])
  {
    hide Run, EnterCall;
    RunAppend(codec, st, EnterCall(i), [Commit(i, event), Settle(i), Return(i)]);
  }

  lemma AuditTable(s: Shared)
    requires SharedOk(s)
    ensures AUDIT in s.tables
  {
  }

  lemma InStep(codec: Codec, s: Shared)
    requires Capturable(codec, s)
    ensures s.synced == s.revision
  {
  }

  lemma WholePayload(s: Shared)
    ensures Capture(s).payload == Durable(s) && Capture(s).source == s.revision
  {
    hide Owned;
  }

  lemma PublishSteps(i: nat, event: string)
    ensures forall k :: 0 <= k < |PublishCall(i, event)| ==>
      IsPublish(PublishCall(i, event)[k]) && PublishCall(i, event)[k].id == i
  {
  }

  // ----- a withdrawal that removes another backup ---------------------------------------------

  /** Call `i` publishes, somebody takes its file away. */
  function TakenCall(i: nat, p: Path, paths: set<Path>): seq<Step>
  {
    PrepareCall(i, p, paths) + [Link(i), Confirm(i), TakeAway(p)]
  }

  /** Call `j` then makes a whole backup under the same name. */
  function NamesakeCall(i: nat, j: nat, p: Path, paths: set<Path>, event: string): seq<Step>
  {
    TakenCall(i, p, paths) + WorkspaceCall(j, p, paths, event)
  }

  /** Call `i` goes on, finds that the revision has moved, and withdraws. */
  function WithdrawCall(i: nat): seq<Step>
  {
    [Match(i), Begin(i), Compare(i)] + [Unlink(i)]
  }

  lemma PublishThenTaken(codec: Codec, st: State, s: Shared, i: nat, p: Path, a: Archive)
    requires p !in s.outputs && codec.accepts(a)
    ensures Run(codec, At(st, s, i, Ready(p, a)), [Link(i), Confirm(i), TakeAway(p)])
      == At(st, s.(linked := s.linked[i := a]), i, Published(p, a))
  {
    hide Run, Apply, PublishStep, At;
    var posted := Posting(s, i, p, a);
    LinkStep(codec, s, i, p, a);
    ConfirmStep(codec, posted, i, p, a);
    PublishesAt(codec, st, s, i, Ready(p, a), Link(i));
    PublishesAt(codec, st, posted, i, Posted(p, a), Confirm(i));
    ElsewhereAt(codec, st, posted, i, Published(p, a), TakeAway(p));
    assert posted.outputs - {p} == s.outputs;
    assert OutsiderStep(posted, TakeAway(p)) == s.(linked := s.linked[i := a]);
    ThreeSteps(codec, At(st, s, i, Ready(p, a)), Link(i), Confirm(i), TakeAway(p));
  }

  lemma StaleWithdraws(codec: Codec, st: State, s: Shared, i: nat, p: Path, a: Archive)
    requires s.lock == None && s.revision != a.source
    ensures Run(codec, At(st, s, i, Published(p, a)), WithdrawCall(i))
      == At(st, s.(outputs := s.outputs - {p}), i, Raised)
  {
    hide Run, Apply, PublishStep, At;
    var locked := s.(lock := Some(Backup(i)));
    assert locked.(lock := None) == s;
    MatchStep(codec, s, i, p, a);
    BeginStep(codec, s, i, p, a);
    CompareStep(codec, locked, i, p, a);
    UnlinkStep(codec, s, i, p, a, false);
    PublishesAt(codec, st, s, i, Published(p, a), Match(i));
    PublishesAt(codec, st, s, i, Registering(p, a), Begin(i));
    PublishesAt(codec, st, locked, i, Locked(p, a), Compare(i));
    PublishesAt(codec, st, s, i, Withdrawing(p, a, false), Unlink(i));
    ThreeSteps(codec, At(st, s, i, Published(p, a)), Match(i), Begin(i), Compare(i));
    RunAppend(codec, At(st, s, i, Published(p, a)), [Match(i), Begin(i), Compare(i)], [Unlink(i)]);
    OneStep(codec, At(st, s, i, Withdrawing(p, a, false)), Unlink(i));
  }

  lemma OneStep(codec: Codec, st: State, step: Step)
    ensures Run(codec, st, [step]) == Apply(codec, st, step)
  {
    hide Apply;
    assert [step] == [step] + [];
    RunOne(codec, st, step, []);
  }

  /** What a capture looks at. */
  lemma SameCapture(codec: Codec, s: Shared, t: Shared)
    requires t.synced == s.synced && t.revision == s.revision && t.tidy == s.tidy
    requires t.tables == s.tables && t.inventory == s.inventory && t.files == s.files
    ensures Capture(t) == Capture(s) && (Capturable(codec, t) <==> Capturable(codec, s))
  {
    hide Owned, FoldDistinct, HasSecrets;
  }

  /** From every workspace that can be backed up there is a run in which a call that has returned
      loses its file although nobody took it: the file of another call was taken, and that call
      withdraws by name. No step of the run raises except the stale revision. */
  lemma WithdrawalByName(codec: Codec, st: State, i: nat, j: nat, p: Path, event: string)
    requires Start(st) && i != j && p !in st.shared.outputs
    requires Capturable(codec, st.shared) && codec.accepts(Capture(st.shared))
    requires AUDIT in st.shared.tables ==> event !in st.shared.tables[AUDIT]
    ensures
      var paths, a := Owned(st.shared.tables), Capture(st.shared);
      var middle := Run(codec, st, NamesakeCall(i, j, p, paths, event));
      var end := Run(codec, st, NamesakeCall(i, j, p, paths, event) + WithdrawCall(i));
      && j in middle.backups && middle.backups[j] == Done(p, a)
      && p in middle.shared.outputs && middle.shared.outputs[p] == Linked(j, a)
      && j in end.backups && end.backups[j] == Done(p, a) && j in end.shared.inventory
      && i in end.backups && end.backups[i] == Raised && p !in end.shared.outputs
  {
    hide Owned, Run, PrepareCall, WorkspaceCall, WithdrawCall, Capturable, WithEvent, Durable, SharedOk, Capture;
    var s := st.shared;
    var paths, a := Owned(s.tables), Capture(s);
    StartInvariant(codec, st);
    SourceOfCapture(s);
    PrepareAlone(codec, st, i, p);
    PublishThenTaken(codec, st, s, i, p, a);
    RunAppend(codec, st, PrepareCall(i, p, paths), [Link(i), Confirm(i), TakeAway(p)]);
    var taken := s.(linked := s.linked[i := a]);
    var first := At(st, taken, i, Published(p, a));
    assert Run(codec, st, TakenCall(i, p, paths)) == first;
    RunKeeps(codec, st, TakenCall(i, p, paths));
    SameCapture(codec, s, taken);
    UninterruptedCompletesIff(codec, first, j, p, event);
    RunAppend(codec, st, TakenCall(i, p, paths), WorkspaceCall(j, p, paths, event));
    var middle := Run(codec, st, NamesakeCall(i, j, p, paths, event));
    assert middle == At(middle, middle.shared, i, Published(p, a));
    StaleWithdraws(codec, middle, middle.shared, i, p, a);
    RunAppend(codec, st, NamesakeCall(i, j, p, paths, event), WithdrawCall(i));
  }

  lemma SourceOfCapture(s: Shared)
    ensures Capture(s).source == s.revision
  {
  }

  // ----- a sync that comes too late ---------------------------------------------------------------

  /** A whole backup up to its commit, a writer that commits and syncs, and the backup again. */
  function OvertakenCall(i: nat, p: Path, paths: set<Path>, event: string, revision: nat, tables: Tables): seq<Step>
  {
    PrepareCall(i, p, paths) + (EnterCall(i)
      + ([Commit(i, event), WriterBegin, WriterCommit(revision, tables)] + [Sync(revision), Settle(i), Unlink(i)]))
  }

  /** The shared state after a writer's whole transaction. */
  function Written(s: Shared, revision: nat, tables: Tables): Shared
  {
    CommitState(s.(lock := Some(Writer)), revision, tables, s.inventory)
  }

  lemma WriterCommits(s: Shared, revision: nat, tables: Tables)
    requires s.lock == None && revision > s.revision && tables.Keys == s.schema && Owned(tables) <= s.files.Keys
    ensures
      var begun := WriterStep(s, WriterBegin);
      var t := Written(s, revision, tables);
      && begun == s.(lock := Some(Writer))
      && WriterStep(begun, WriterCommit(revision, tables)) == t
      && WriterStep(t, Sync(revision)) == t.(synced := revision)
      && t.inventory == s.inventory && t.outputs == s.outputs
  {
    hide Owned, Durable;
  }

  lemma CommitThenWriter(
    codec: Codec, st: State, s: Shared, i: nat, p: Path, a: Archive, event: string, revision: nat, tables: Tables)
    requires AUDIT in s.tables && event !in s.tables[AUDIT] && revision > s.revision + 1
    requires tables.Keys == s.schema && Owned(tables) <= s.files.Keys
    ensures
      var committed := Registry(codec, s, i, p, a, event);
      Run(codec, At(st, Entered(s, i, p, a), i, Compared(p, a)),
          [Commit(i, event), WriterBegin, WriterCommit(revision, tables)])
      == At(st, Written(committed, revision, tables), i, Committed(p, a))
  {
    hide Owned, Run, Apply, PublishStep, WriterStep, At, WithEvent, Written;
    var locked, committed := Entered(s, i, p, a), Registry(codec, s, i, p, a, event);
    RegistryFields(codec, s, i, p, a, event);
    CommitStep(codec, locked, i, p, a, event);
    WriterCommits(committed, revision, tables);
    PublishesAt(codec, st, locked, i, Compared(p, a), Commit(i, event));
    ElsewhereAt(codec, st, committed, i, Committed(p, a), WriterBegin);
    ElsewhereAt(codec, st, committed.(lock := Some(Writer)), i, Committed(p, a), WriterCommit(revision, tables));
    ThreeSteps(codec, At(st, locked, i, Compared(p, a)), Commit(i, event), WriterBegin, WriterCommit(revision, tables));
  }

  lemma SyncThenSettle(codec: Codec, st: State, s: Shared, i: nat, p: Path, a: Archive, revision: nat)
    requires revision > a.source + 1 && WriterStep(s, Sync(revision)) == s.(synced := revision)
    ensures Run(codec, At(st, s, i, Committed(p, a)), [Sync(revision), Settle(i), Unlink(i)])
      == At(st, s.(synced := revision, outputs := s.outputs - {p}), i, RaisedLate)
  {
    hide Run, Apply, PublishStep, WriterStep, At;
    var synced := s.(synced := revision);
    ElsewhereAt(codec, st, s, i, Committed(p, a), Sync(revision));
    SettleStep(codec, synced, i, p, a);
    UnlinkStep(codec, synced, i, p, a, true);
    PublishesAt(codec, st, synced, i, Committed(p, a), Settle(i));
    PublishesAt(codec, st, synced, i, Withdrawing(p, a, true), Unlink(i));
    ThreeSteps(codec, At(st, s, i, Committed(p, a)), Sync(revision), Settle(i), Unlink(i));
  }

  /** From every workspace that can be backed up, and for every state another writer may commit,
      there is a run without a single failing step in which a backup is registered and its file
      removed: the writer commits and syncs between the backup's commit and its own sync, which
      then refuses to lower the revision in the workspace identity. */
  lemma OvertakenBackup(
    codec: Codec, st: State, i: nat, p: Path, event: string, revision: nat, tables: Tables)
    requires Start(st) && p !in st.shared.outputs
    requires Capturable(codec, st.shared) && codec.accepts(Capture(st.shared))
    requires AUDIT in st.shared.tables ==> event !in st.shared.tables[AUDIT]
    requires revision > st.shared.revision + 1 && tables.Keys == st.shared.schema
    requires Owned(tables) <= st.shared.files.Keys
    ensures
      var a := Capture(st.shared);
      var end := Run(codec, st, OvertakenCall(i, p, Owned(st.shared.tables), event, revision, tables));
      && i in end.backups && end.backups[i] == RaisedLate
      && i in end.shared.inventory && end.shared.inventory[i] == Record(codec, p, a)
      && p !in end.shared.outputs
  {
    hide Owned, Run, PrepareCall, EnterCall, Capturable, WithEvent, Durable, SharedOk, Capture, Registry, Entered;
    hide Written, WriterStep, Record;
    var s := st.shared;
    var paths, a := Owned(s.tables), Capture(s);
    var committed := Registry(codec, s, i, p, a, event);
    var written := Written(committed, revision, tables);
    var one := [Commit(i, event), WriterBegin, WriterCommit(revision, tables)];
    var two := [Sync(revision), Settle(i), Unlink(i)];
    StartInvariant(codec, st);
    AuditTable(s);
    SourceOfCapture(s);
    PrepareAlone(codec, st, i, p);
    EnterAlone(codec, st, s, i, p, a);
    CommitThenWriter(codec, st, s, i, p, a, event, revision, tables);
    RegistryFields(codec, s, i, p, a, event);
    WriterCommits(committed, revision, tables);
    SyncThenSettle(codec, st, written, i, p, a, revision);
    RunAppend(codec, st, PrepareCall(i, p, paths), EnterCall(i) + (one + two));
    RunAppend(codec, At(st, s, i, Ready(p, a)), EnterCall(i), one + two);
    RunAppend(codec, At(st, Entered(s, i, p, a), i, Compared(p, a)), one, two);
  }
}
