/** What every run of backups, writers and outsiders leaves behind (src/doll/backup.py,
    src/doll/backup_manifest.py): the registered backups, the files of returned calls, the
    traces of calls that raised, and when a withdrawal removes somebody else's file. */
module BackupOutcomes {
  import opened Outcomes
  import opened Json
  import opened BackupProtocol

  // ----- registrations ---------------------------------------------------------------------

  /** In every reachable state, every registered backup carries exactly the state of the
      revision before its own registering commit, its record describes the archive it
      published, and no two registered backups have the same source revision. */
  lemma RegisteredBackups(codec: Codec, st: State, steps: seq<Step>)
    requires Start(st)
    ensures
      var s := Run(codec, st, steps).shared;
      && (forall id :: id in s.inventory ==> Registered(codec, s, id))
      && (forall i, j :: i in s.inventory && j in s.inventory && i != j ==>
            s.inventory[i].source != s.inventory[j].source)
  {
    hide Run, Owned, Registered;
    RunKeeps(codec, st, steps);
    var s := Run(codec, st, steps).shared;
    forall i, j | i in s.inventory && j in s.inventory && i != j
      ensures s.inventory[i].source != s.inventory[j].source
    {
      SourcesDiffer(codec, s, i, j);
    }
  }

  /** The rows that go into a backup: all of them, or for a state backup those that are not secret. */
  ghost predicate RowsFor(kind: Kind, all: Tables, some: Tables)
  {
    && some.Keys == all.Keys
    && (forall t, k :: t in some && k in some[t] ==> k in all[t] && some[t][k] == all[t][k])
    && (forall t, k :: t in all && k in all[t] ==>
          (k in some[t] <==> kind == WorkspaceKind || !all[t][k].secret))
  }

  /** The files that go with them: those of the paths that one of the rows owns. */
  ghost predicate FilesFor(rows: Tables, all: map<Path, Bytes>, some: map<Path, Bytes>)
  {
    forall p :: p in some <==>
      p in all && exists t, k :: t in rows && k in rows[t] && rows[t][k].path == Some(p)
  }

  lemma PayloadMeans(kind: Kind, c: Content)
    ensures
      var payload := PayloadOf(kind, c);
      && RowsFor(kind, c.tables, payload.tables) && payload.inventory == c.inventory
      && FilesFor(payload.tables, c.files, payload.files)
      && forall p :: p in payload.files ==> payload.files[p] == c.files[p]
  {
    var rows := Carried(kind, c.tables);
    forall p ensures p in Owned(rows) <==> exists t, k :: t in rows && k in rows[t] && rows[t][k].path == Some(p) {}
  }

  /** In every reachable state, the payload of a registered backup is the rows, inventory and files of
      its source revision, without secret rows and their files in a state backup. */
  lemma RegisteredContents(codec: Codec, st: State, steps: seq<Step>, id: nat)
    requires Start(st)
    ensures
      var s := Run(codec, st, steps).shared;
      id in s.inventory ==>
        && id in s.linked && s.linked[id].source in s.history
        && var a, c := s.linked[id], s.history[s.linked[id].source];
        && RowsFor(a.kind, c.tables, a.payload.tables) && a.payload.inventory == c.inventory
        && FilesFor(a.payload.tables, c.files, a.payload.files)
        && forall p :: p in a.payload.files ==> a.payload.files[p] == c.files[p]
  {
    hide Run, Owned, PayloadOf, RowsFor, FilesFor;
    RunKeeps(codec, st, steps);
    var s := Run(codec, st, steps).shared;
    if id in s.inventory {
      assert Registered(codec, s, id);
      PayloadMeans(s.linked[id].kind, s.history[s.linked[id].source]);
    }
  }

  lemma SourcesDiffer(codec: Codec, s: Shared, i: nat, j: nat)
    requires i in s.inventory && j in s.inventory && i != j
    requires Registered(codec, s, i) && Registered(codec, s, j)
    ensures s.inventory[i].source != s.inventory[j].source
  {
    hide Faithful;
    assert i in s.history[s.inventory[i].source + 1].inventory;
  }

  // ----- what one step does to outputs and phases ------------------------------------------

  predicate Withdraws(st: State, i: nat, p: Path)
  {
    i in st.backups && st.backups[i].Withdrawing? && st.backups[i].output == p
  }

  /** The call is about to link its archive and will succeed. */
  predicate Links(codec: Codec, st: State, i: nat)
  {
    && i in st.backups && st.backups[i].Ready?
    && st.backups[i].output !in st.shared.outputs && codec.accepts(st.backups[i].archive)
  }

  /** The outputs after a step: only outsiders, a link and a withdrawal touch them. */
  function NextOutputs(codec: Codec, st: State, step: Step): map<Path, OutputFile>
  {
    var outputs := st.shared.outputs;
    match step
    case TakeAway(p) => outputs - {p}
    case Put(p, bytes) => if p in outputs then outputs else outputs[p := Foreign(bytes)]
    case Link(i) =>
      if Links(codec, st, i) then outputs[st.backups[i].output := Linked(i, st.backups[i].archive)] else outputs
    case Unlink(i) =>
      if i in st.backups && st.backups[i].Withdrawing? then outputs - {st.backups[i].output} else outputs
    case _ => outputs
  }

  lemma PublishOutputs(codec: Codec, st: State, step: Step)
    requires IsPublish(step) && step.id in st.backups
    ensures PublishStep(codec, st.shared, st.backups[step.id], step).0.outputs == NextOutputs(codec, st, step)
  {
    hide WithEvent, Record, Confirmed, CommitState;
    if step.Commit? && st.backups[step.id].Compared? {
      var s, phase := st.shared, st.backups[step.id];
      var inventory := s.inventory[step.id := Record(codec, phase.output, phase.archive)];
      CommitFields(s, s.revision + 1, WithEvent(s.tables, step.event), inventory);
    }
  }

  lemma WriterOutputs(s: Shared, step: Step)
    ensures WriterStep(s, step).outputs == s.outputs
  {
    hide Owned, CommitState;
    if step.WriterCommit? { CommitFields(s, step.revision, step.tables, s.inventory); }
  }

  lemma OwnStep(codec: Codec, st: State, step: Step)
    requires IsPublish(step) && step.id in st.backups
    ensures
      var (t, phase) := PublishStep(codec, st.shared, st.backups[step.id], step);
      Apply(codec, st, step) == State(t, st.backups[step.id := phase])
  {
    hide PrepareStep, PublishStep, WriterStep, OutsiderStep;
  }

  lemma StandingOutputs(codec: Codec, st: State, step: Step)
    requires !(IsPublish(step) && step.id in st.backups)
    ensures Apply(codec, st, step).shared.outputs == NextOutputs(codec, st, step)
  {
    hide PrepareStep, PublishStep, WriterStep;
    if !IsOutsider(step) {
      hide OutsiderStep;
      WriterOutputs(st.shared, step);
    }
  }

  lemma OutputsAfter(codec: Codec, st: State, step: Step)
    ensures Apply(codec, st, step).shared.outputs == NextOutputs(codec, st, step)
  {
    hide Apply, PublishStep, NextOutputs, Links;
    if IsPublish(step) && step.id in st.backups {
      PublishOutputs(codec, st, step);
      OwnStep(codec, st, step);
    } else {
      StandingOutputs(codec, st, step);
    }
  }

  /** The call has linked its archive and has neither removed it nor ended without it. */
  predicate Holding(phase: Phase)
  {
    Running(phase) || phase.Done? || phase.RaisedLeft?
  }

  /** The call has linked its archive and is still under way. */
  predicate Running(phase: Phase)
  {
    || phase.Posted? || phase.Published? || phase.Registering? || phase.Locked? || phase.Compared?
    || phase.Committed? || phase.Returning? || phase.Withdrawing?
  }

  predicate HasRaised(phase: Phase)
  {
    phase.Raised? || phase.RaisedLate? || phase.RaisedLeft?
  }

  /** Preparing moves a call only up to its link. */
  lemma PrepareMoves(codec: Codec, s: Shared, phase: Phase, step: Step)
    ensures
      var next := PrepareStep(codec, s, phase, step);
      next == phase || ((phase.Opened? || phase.Reading?) && (next.Reading? || next.Ready? || next.Raised?))
  {
    hide ReadStep, Covered, FilesComplete, PayloadOf;
  }

  /** The phases after the link, with the ways in and out of them. */
  ghost predicate Moves(codec: Codec, st: State, step: Step, i: nat, next: Phase)
    requires i in st.backups
  {
    var now := st.backups[i];
    && (Holding(now) || HasRaised(now) ==> Holding(next) || HasRaised(next))
    && (HasRaised(now) || now.Done? ==> next == now)
    && (!Holding(now) && Holding(next) ==>
          step == Link(i) && Links(codec, st, i) && next == Posted(now.output, now.archive))
    && (now.Withdrawing? && step == Unlink(i) ==> !Holding(next))
  }

  lemma PublishMoves(codec: Codec, st: State, step: Step, i: nat)
    requires i in st.backups && IsPublish(step) && step.id == i
    ensures Moves(codec, st, step, i, PublishStep(codec, st.shared, st.backups[i], step).1)
  {
    hide CommitState, WithEvent, Record, Confirmed;
  }

  /** A step that is not the call's own publication leaves it standing, or prepares it. */
  lemma OtherwiseStands(codec: Codec, st: State, step: Step, i: nat)
    requires i in st.backups && !(IsPublish(step) && step.id == i)
    ensures
      var now, next := st.backups[i], Apply(codec, st, step).backups;
      && i in next
      && (next[i] == now
          || ((now.Opened? || now.Reading?) && (next[i].Reading? || next[i].Ready? || next[i].Raised?)))
  {
    hide PrepareStep, PublishStep, WriterStep, OutsiderStep;
    PrepareMoves(codec, st.shared, st.backups[i], step);
  }

  lemma PhaseMoves(codec: Codec, st: State, step: Step, i: nat)
    requires i in st.backups
    ensures var next := Apply(codec, st, step); i in next.backups && Moves(codec, st, step, i, next.backups[i])
  {
    hide Apply, PublishStep, Moves, Links;
    if IsPublish(step) && step.id == i {
      PublishMoves(codec, st, step, i);
      OwnStep(codec, st, step);
    } else {
      OtherwiseStands(codec, st, step, i);
      StandingMoves(codec, st, step, i, Apply(codec, st, step).backups[i]);
    }
  }

  lemma StandingMoves(codec: Codec, st: State, step: Step, i: nat, next: Phase)
    requires i in st.backups && !(IsPublish(step) && step.id == i)
    requires
      var now := st.backups[i];
      next == now || ((now.Opened? || now.Reading?) && (next.Reading? || next.Ready? || next.Raised?))
    ensures Moves(codec, st, step, i, next)
  {
  }

  // ----- files that disappear ----------------------------------------------------------------

  ghost predicate HasFile(s: Shared, i: nat)
  {
    !NoFile(s, i)
  }

  /** The step makes the file of call `i` disappear without being its own withdrawal. */
  ghost predicate Loses(codec: Codec, st: State, step: Step, i: nat)
  {
    HasFile(st.shared, i) && !HasFile(Apply(codec, st, step).shared, i) && step != Unlink(i)
  }

  /** Somewhere in the run the file of call `i` was lost. */
  ghost predicate WasLost(codec: Codec, st: State, steps: seq<Step>, i: nat)
    decreases |steps|
  {
    steps != [] && (Loses(codec, st, steps[0], i) || WasLost(codec, Apply(codec, st, steps[0]), steps[1..], i))
  }

  /** A call that still owns a file has it. */
  ghost predicate Intact(st: State, i: nat)
  {
    i in st.backups && Holding(st.backups[i]) ==> HasFile(st.shared, i)
  }

  /** Files of a call appear only by its link. */
  lemma NoNewFile(codec: Codec, st: State, step: Step, i: nat)
    requires NoFile(st.shared, i) && !(step == Link(i) && Links(codec, st, i))
    ensures NoFile(Apply(codec, st, step).shared, i)
  {
    hide Apply;
    OutputsAfter(codec, st, step);
  }

  lemma StepIntact(codec: Codec, st: State, step: Step, i: nat)
    requires Intact(st, i) && !Loses(codec, st, step, i)
    ensures Intact(Apply(codec, st, step), i)
  {
    hide Apply, NoFile;
    var next := Apply(codec, st, step);
    if i in st.backups {
      PhaseMoves(codec, st, step, i);
      if Holding(next.backups[i]) {
        if !Holding(st.backups[i]) {
          LinkedFile(codec, st, i);
        } else if step == Unlink(i) {
          OutputsAfter(codec, st, step);
          SameFiles(st.shared, next.shared, i);
        }
      }
    } else {
      Newcomer(codec, st, step, i);
    }
  }

  lemma LinkedFile(codec: Codec, st: State, i: nat)
    requires Links(codec, st, i)
    ensures HasFile(Apply(codec, st, Link(i)).shared, i)
  {
    hide Apply;
    OutputsAfter(codec, st, Link(i));
    var p := st.backups[i].output;
    assert Apply(codec, st, Link(i)).shared.outputs[p] == Linked(i, st.backups[i].archive);
  }

  lemma SameFiles(s: Shared, t: Shared, i: nat)
    requires t.outputs == s.outputs
    ensures NoFile(t, i) <==> NoFile(s, i)
  {
  }

  /** A call that has just started holds nothing. */
  lemma Newcomer(codec: Codec, st: State, step: Step, i: nat)
    requires i !in st.backups
    ensures var next := Apply(codec, st, step).backups; i in next ==> next[i].Opened? || next[i].Raised?
  {
    hide PrepareStep, PublishStep, WriterStep, OutsiderStep;
  }

  /** A lost file does not come back. */
  lemma {:induction false} LostForGood(codec: Codec, st: State, steps: seq<Step>, i: nat)
    requires i in st.backups && (Holding(st.backups[i]) || HasRaised(st.backups[i])) && NoFile(st.shared, i)
    ensures NoFile(Run(codec, st, steps).shared, i)
    decreases |steps|
  {
    hide Apply, NoFile, Links;
    if steps != [] {
      LateNoLink(codec, st, i);
      NoNewFile(codec, st, steps[0], i);
      PhaseMoves(codec, st, steps[0], i);
      LostForGood(codec, Apply(codec, st, steps[0]), steps[1..], i);
    }
  }

  lemma LateNoLink(codec: Codec, st: State, i: nat)
    requires i in st.backups && (Holding(st.backups[i]) || HasRaised(st.backups[i]))
    ensures !Links(codec, st, i)
  {
  }

  /** At the end of a run, a call that published and did not withdraw has its file unless it was
      lost on the way. */
  lemma {:induction false} FileKeptIff(codec: Codec, st: State, steps: seq<Step>, i: nat)
    requires Invariant(codec, st) && Intact(st, i)
    ensures
      var end := Run(codec, st, steps);
      i in end.backups && Holding(end.backups[i]) ==>
        (HasFile(end.shared, i) <==> !WasLost(codec, st, steps, i))
    decreases |steps|
  {
    hide Apply, Holding, HasRaised, NoFile, Invariant;
    if steps != [] {
      var next := Apply(codec, st, steps[0]);
      StepKeeps(codec, st, steps[0]);
      if Loses(codec, st, steps[0], i) {
        LoserIsLate(codec, st, steps[0], i);
        LostForGood(codec, next, steps[1..], i);
      } else {
        StepIntact(codec, st, steps[0], i);
        FileKeptIff(codec, next, steps[1..], i);
      }
    }
  }

  /** Only a call past its link has a file to lose. */
  lemma LoserIsLate(codec: Codec, st: State, step: Step, i: nat)
    requires Invariant(codec, st) && HasFile(st.shared, i)
    ensures var next := Apply(codec, st, step);
      i in next.backups && (Holding(next.backups[i]) || HasRaised(next.backups[i]))
  {
    hide Apply, Invariant;
    var p :| p in st.shared.outputs && st.shared.outputs[p].Linked? && st.shared.outputs[p].publisher == i;
    PublisherHolds(codec, st, p);
    PhaseMoves(codec, st, step, i);
  }

  /** A published file belongs to a call past its link and lies at its output. */
  lemma PublisherHolds(codec: Codec, st: State, p: Path)
    requires Invariant(codec, st) && p in st.shared.outputs && st.shared.outputs[p].Linked?
    ensures
      var i := st.shared.outputs[p].publisher;
      i in st.backups && Holding(st.backups[i]) && st.backups[i].output == p
  {
    hide SharedOk, InventoryOk, Faithful, ReadOk, Record;
    var i := st.shared.outputs[p].publisher;
    assert PhaseOk(codec, st.shared, i, st.backups[i]);
  }

  // ----- calls that return --------------------------------------------------------------------

  lemma RunIntact(codec: Codec, st: State, steps: seq<Step>, i: nat)
    requires Start(st)
    ensures
      var end := Run(codec, st, steps);
      && Invariant(codec, end)
      && (i in end.backups && Holding(end.backups[i]) ==>
            && PhaseOk(codec, end.shared, i, end.backups[i])
            && (HasFile(end.shared, i) <==> !WasLost(codec, st, steps, i)))
  {
    hide Run, Owned, WasLost, NoFile, PhaseOk;
    StartInvariant(codec, st);
    RunKeeps(codec, st, steps);
    FileKeptIff(codec, st, steps, i);
  }

  /** The file of call `i` lies at the output. */
  predicate FileAt(s: Shared, i: nat, output: Path, a: Archive)
  {
    output in s.outputs && s.outputs[output] == Linked(i, a)
  }

  lemma OwnedFileAt(s: Shared, i: nat, output: Path, a: Archive)
    requires Owns(s, i, output, a)
    ensures HasFile(s, i) <==> FileAt(s, i, output, a)
  {
    hide Faithful;
  }

  /** In every reachable state, a call that has returned has its record, with the archive's size
      and hash, in the inventory, and its archive at the output unless the file was lost. */
  lemma ReturnedBackups(codec: Codec, st: State, steps: seq<Step>, i: nat)
    requires Start(st)
    ensures
      var end := Run(codec, st, steps);
      i in end.backups && end.backups[i].Done? ==>
        var Done(output, a) := end.backups[i];
        && i in end.shared.inventory && end.shared.inventory[i] == Record(codec, output, a)
        && Faithful(end.shared, a)
        && (FileAt(end.shared, i, output, a) <==> !WasLost(codec, st, steps, i))
  {
    hide Run, Owned, WasLost, Faithful, NoFile, Invariant;
    RunIntact(codec, st, steps, i);
    var end := Run(codec, st, steps);
    if i in end.backups && end.backups[i].Done? {
      OwnedFileAt(end.shared, i, end.backups[i].output, end.backups[i].archive);
    }
  }

  // ----- withdrawals ---------------------------------------------------------------------------

  /** In every reachable state, the withdrawal of a call removes a file that the call did not
      publish if and only if its own file was lost and something else lies at its output. */
  lemma WithdrawalIff(codec: Codec, st: State, steps: seq<Step>, i: nat)
    requires Start(st)
    ensures
      var end := Run(codec, st, steps);
      i in end.backups && end.backups[i].Withdrawing? ==>
        var Withdrawing(output, a, _) := end.backups[i];
        var next := Apply(codec, end, Unlink(i)).shared.outputs;
        && next == end.shared.outputs - {output}
        && (output in end.shared.outputs && !FileAt(end.shared, i, output, a) <==>
              output in end.shared.outputs && WasLost(codec, st, steps, i))
  {
    hide Run, Owned, WasLost, Faithful, NoFile, Invariant, Apply;
    RunIntact(codec, st, steps, i);
    var end := Run(codec, st, steps);
    if i in end.backups && end.backups[i].Withdrawing? {
      OwnedFileAt(end.shared, i, end.backups[i].output, end.backups[i].archive);
      OutputsAfter(codec, end, Unlink(i));
    }
  }

  /** A file that no running call published: one put there by others, or one whose call has
      ended. */
  ghost predicate Settled(st: State, p: Path)
  {
    && p in st.shared.outputs
    && (st.shared.outputs[p].Linked? ==>
          var i := st.shared.outputs[p].publisher;
          i in st.backups && !Running(st.backups[i]))
  }

  /** One step keeps a settled file unless it takes it away or withdraws by its name. */
  lemma StepSettled(codec: Codec, st: State, step: Step, p: Path)
    requires Invariant(codec, st) && Settled(st, p)
    ensures
      var next := Apply(codec, st, step);
      if step == TakeAway(p) || (step.Unlink? && Withdraws(st, step.id, p)) then p !in next.shared.outputs
      else Settled(next, p) && next.shared.outputs[p] == st.shared.outputs[p]
  {
    hide Apply, Invariant;
    OutputsAfter(codec, st, step);
    if st.shared.outputs[p].Linked? {
      PublisherHolds(codec, st, p);
      PhaseMoves(codec, st, step, st.shared.outputs[p].publisher);
    }
  }

  /** In every reachable state, a step removes a settled file if and only if it is somebody taking
      it away, or the withdrawal, under that name, of a call whose own file was lost; every
      other step leaves the file as it is. */
  lemma SettledRemovedIff(codec: Codec, st: State, steps: seq<Step>, step: Step, p: Path)
    requires Start(st)
    ensures
      var end := Run(codec, st, steps);
      Settled(end, p) ==>
        var next := Apply(codec, end, step);
        if step == TakeAway(p)
           || (step.Unlink? && Withdraws(end, step.id, p) && WasLost(codec, st, steps, step.id))
        then p !in next.shared.outputs
        else Settled(next, p) && next.shared.outputs[p] == end.shared.outputs[p]
  {
    hide Run, Apply, WasLost, NoFile, Invariant, PhaseOk, Owned;
    var end := Run(codec, st, steps);
    var i := if step.Unlink? then step.id else 0;
    RunIntact(codec, st, steps, i);
    if Settled(end, p) {
      StepSettled(codec, end, step, p);
      if step.Unlink? && Withdraws(end, i, p) { SettledWithdrawn(codec, end, i, p); }
    }
  }

  /** A call that withdraws under the name of a settled file has no file of its own. */
  lemma SettledWithdrawn(codec: Codec, st: State, i: nat, p: Path)
    requires Invariant(codec, st) && Settled(st, p) && Withdraws(st, i, p)
    ensures !HasFile(st.shared, i)
  {
    hide Invariant;
    forall q | q in st.shared.outputs && st.shared.outputs[q].Linked? ensures st.shared.outputs[q].publisher != i {
      PublisherHolds(codec, st, q);
    }
  }

  // ----- runs in which nobody disturbs running calls ---------------------------------------------

  /** The step takes the file of a running call away. */
  predicate Disturbs(st: State, step: Step)
  {
    && step.TakeAway? && step.path in st.shared.outputs && st.shared.outputs[step.path].Linked?
    && var i := st.shared.outputs[step.path].publisher;
    i in st.backups && Running(st.backups[i])
  }

  ghost predicate Undisturbed(codec: Codec, st: State, steps: seq<Step>)
    decreases |steps|
  {
    steps == [] || (!Disturbs(st, steps[0]) && Undisturbed(codec, Apply(codec, st, steps[0]), steps[1..]))
  }

  ghost predicate AllPresent(st: State)
  {
    forall i :: i in st.backups && Running(st.backups[i]) ==> HasFile(st.shared, i)
  }

  lemma StepPresent(codec: Codec, st: State, step: Step)
    requires Invariant(codec, st) && AllPresent(st) && !Disturbs(st, step)
    ensures AllPresent(Apply(codec, st, step))
  {
    hide Apply, Invariant, Disturbs, NoFile;
    var next := Apply(codec, st, step);
    forall i | i in next.backups && Running(next.backups[i]) ensures HasFile(next.shared, i) {
      if i !in st.backups {
        Newcomer(codec, st, step, i);
      } else {
        PhaseMoves(codec, st, step, i);
        if Running(st.backups[i]) {
          RunningKeepsFile(codec, st, step, i);
        } else {
          LinkedFile(codec, st, i);
        }
      }
    }
  }

  /** While all running calls have their files, a withdrawal removes its own file only. */
  lemma RunningKeepsFile(codec: Codec, st: State, step: Step, i: nat)
    requires Invariant(codec, st) && AllPresent(st) && !Disturbs(st, step)
    requires i in st.backups && Running(st.backups[i]) && !(step == Unlink(i) && st.backups[i].Withdrawing?)
    ensures HasFile(Apply(codec, st, step).shared, i)
  {
    hide Apply, Invariant, NoFile;
    OutputsAfter(codec, st, step);
    OwnFile(codec, st, i);
    if step.Unlink? && step.id in st.backups && st.backups[step.id].Withdrawing? { OwnFile(codec, st, step.id); }
    var p := st.backups[i].output;
    assert FileAt(Apply(codec, st, step).shared, i, p, st.backups[i].archive);
    FileSeen(Apply(codec, st, step).shared, i, p, st.backups[i].archive);
  }

  lemma FileSeen(s: Shared, i: nat, output: Path, a: Archive)
    requires FileAt(s, i, output, a)
    ensures HasFile(s, i)
  {
  }

  lemma OwnFile(codec: Codec, st: State, i: nat)
    requires Invariant(codec, st) && AllPresent(st) && i in st.backups && Running(st.backups[i])
    ensures FileAt(st.shared, i, st.backups[i].output, st.backups[i].archive)
  {
    hide SharedOk, InventoryOk, Faithful, Record, NoFile;
    assert PhaseOk(codec, st.shared, i, st.backups[i]);
    OwnedFileAt(st.shared, i, st.backups[i].output, st.backups[i].archive);
  }

  lemma {:induction false} SettledKept(codec: Codec, st: State, steps: seq<Step>, p: Path)
    requires Invariant(codec, st) && AllPresent(st) && Settled(st, p)
    requires Undisturbed(codec, st, steps) && TakeAway(p) !in steps
    ensures
      var end := Run(codec, st, steps);
      Settled(end, p) && end.shared.outputs[p] == st.shared.outputs[p]
    decreases |steps|
  {
    hide Invariant, Settled, Apply, AllPresent, NoFile;
    if steps != [] {
      assert steps[0] in steps && (forall step :: step in steps[1..] ==> step in steps);
      StepKeeps(codec, st, steps[0]);
      StepPresent(codec, st, steps[0]);
      StepSettled(codec, st, steps[0], p);
      if steps[0].Unlink? && Withdraws(st, steps[0].id, p) { NotSettled(codec, st, steps[0].id, p); }
      SettledKept(codec, Apply(codec, st, steps[0]), steps[1..], p);
    }
  }

  /** What a running call with its file in place would withdraw is not settled. */
  lemma NotSettled(codec: Codec, st: State, i: nat, p: Path)
    requires Invariant(codec, st) && AllPresent(st) && Withdraws(st, i, p)
    ensures !Settled(st, p)
  {
    hide Invariant, AllPresent;
    OwnFile(codec, st, i);
  }

  /** In an undisturbed run no running call loses its file. */
  lemma {:induction false} UndisturbedPresent(codec: Codec, st: State, steps: seq<Step>)
    requires Invariant(codec, st) && AllPresent(st) && Undisturbed(codec, st, steps)
    ensures Invariant(codec, Run(codec, st, steps)) && AllPresent(Run(codec, st, steps))
    decreases |steps|
  {
    hide Invariant, Apply, AllPresent, Disturbs;
    if steps != [] {
      StepKeeps(codec, st, steps[0]);
      StepPresent(codec, st, steps[0]);
      UndisturbedPresent(codec, Apply(codec, st, steps[0]), steps[1..]);
    }
  }

  /** Over every run in which nobody takes the file of a running call, no backup changes or
      removes a file it did not publish, or one whose call has ended: once such a file is there
      it stays unless it is itself taken away. */
  lemma SettledFilesKept(codec: Codec, st: State, before: seq<Step>, after: seq<Step>, p: Path)
    requires Start(st) && Undisturbed(codec, st, before + after) && TakeAway(p) !in after
    ensures
      var middle, end := Run(codec, st, before), Run(codec, st, before + after);
      Settled(middle, p) ==> Settled(end, p) && end.shared.outputs[p] == middle.shared.outputs[p]
  {
    hide Run, Undisturbed, Invariant, Settled;
    StartInvariant(codec, st);
    UndisturbedParts(codec, st, before, after);
    UndisturbedPresent(codec, st, before);
    RunAppend(codec, st, before, after);
    if Settled(Run(codec, st, before), p) { SettledKept(codec, Run(codec, st, before), after, p); }
  }

  lemma {:induction false} UndisturbedParts(codec: Codec, st: State, a: seq<Step>, b: seq<Step>)
    requires Undisturbed(codec, st, a + b)
    ensures Undisturbed(codec, st, a) && Undisturbed(codec, Run(codec, st, a), b)
    decreases |a|
  {
    hide Apply, Disturbs;
    if a == [] {
      assert a + b == b;
    } else {
      assert (a + b)[0] == a[0] && (a + b)[1..] == a[1..] + b;
      UndisturbedParts(codec, Apply(codec, st, a[0]), a[1..], b);
    }
  }

  // ----- calls that raise ---------------------------------------------------------------------

  /** The step is none of the exceptions that leave something of call `i` behind: in the manifest
      comparison, after the commit (an identity already synced past it raises as well), at the
      removal of the temporary package, or in the withdrawal itself. */
  predicate CleanStep(st: State, step: Step, i: nat)
  {
    i in st.backups ==>
      var phase := st.backups[i];
      && !(step == Fail(i) && (phase.Published? || phase.Committed? || phase.Returning?))
      && !(step == Settle(i) && phase.Committed? && st.shared.synced > phase.archive.source + 1)
      && !(step == UnlinkFails(i) && phase.Withdrawing?)
  }

  ghost predicate CleanRun(codec: Codec, st: State, steps: seq<Step>, i: nat)
    decreases |steps|
  {
    steps == [] || (CleanStep(st, steps[0], i) && CleanRun(codec, Apply(codec, st, steps[0]), steps[1..], i))
  }

  /** The call is not on its way to leaving anything behind. */
  predicate OnCourse(st: State, i: nat)
  {
    i in st.backups ==> PhaseOnCourse(st.backups[i])
  }

  predicate PhaseOnCourse(phase: Phase)
  {
    !phase.RaisedLate? && !phase.RaisedLeft? && !(phase.Withdrawing? && phase.committed)
  }

  lemma PublishOnCourse(codec: Codec, st: State, step: Step, i: nat)
    requires i in st.backups && IsPublish(step) && step.id == i
    ensures PhaseOnCourse(PublishStep(codec, st.shared, st.backups[i], step).1) <==>
      PhaseOnCourse(st.backups[i]) && CleanStep(st, step, i)
  {
    hide CommitState, WithEvent, Record, Confirmed;
  }

  lemma StepOnCourse(codec: Codec, st: State, step: Step, i: nat)
    ensures OnCourse(Apply(codec, st, step), i) <==> OnCourse(st, i) && CleanStep(st, step, i)
  {
    hide Apply, PublishStep;
    if i !in st.backups {
      Newcomer(codec, st, step, i);
    } else if IsPublish(step) && step.id == i {
      hide CleanStep, PhaseOnCourse;
      PublishOnCourse(codec, st, step, i);
      OwnStep(codec, st, step);
    } else {
      OtherwiseStands(codec, st, step, i);
    }
  }

  /** Exactly the clean runs keep a call on course. */
  lemma {:induction false} OnCourseIff(codec: Codec, st: State, steps: seq<Step>, i: nat)
    requires OnCourse(st, i)
    ensures OnCourse(Run(codec, st, steps), i) <==> CleanRun(codec, st, steps, i)
    decreases |steps|
  {
    hide Apply, OnCourse, CleanStep;
    if steps != [] {
      StepOnCourse(codec, st, steps[0], i);
      if CleanStep(st, steps[0], i) {
        OnCourseIff(codec, Apply(codec, st, steps[0]), steps[1..], i);
      } else {
        OffCourse(codec, Apply(codec, st, steps[0]), steps[1..], i);
      }
    }
  }

  lemma {:induction false} OffCourse(codec: Codec, st: State, steps: seq<Step>, i: nat)
    requires !OnCourse(st, i)
    ensures !OnCourse(Run(codec, st, steps), i)
    decreases |steps|
  {
    hide Apply, OnCourse, CleanStep;
    if steps != [] {
      StepOnCourse(codec, st, steps[0], i);
      OffCourse(codec, Apply(codec, st, steps[0]), steps[1..], i);
    }
  }

  /** What a raised call left, under every interleaving: nothing; or its record alone; or, when
      no handler withdrew, its file unless it was lost, and its record if it had committed. It
      left nothing if and only if none of the exceptions above happened, or a file left without
      a record was lost afterwards. */
  lemma RaisedCalls(codec: Codec, st: State, steps: seq<Step>, i: nat)
    requires Start(st)
    ensures
      var end := Run(codec, st, steps);
      i in end.backups && HasRaised(end.backups[i]) ==>
        var s, phase := end.shared, end.backups[i];
        && (phase.Raised? ==> Unregistered(s, i))
        && (phase.RaisedLate? ==> i in s.inventory && NoFile(s, i))
        && (phase.RaisedLeft? ==>
              && (i in s.inventory <==> phase.committed)
              && (FileAt(s, i, phase.output, phase.archive) <==> !WasLost(codec, st, steps, i)))
        && (Unregistered(s, i) <==>
              || CleanRun(codec, st, steps, i)
              || (phase.RaisedLeft? && !phase.committed && WasLost(codec, st, steps, i)))
  {
    hide Run, Owned, WasLost, Faithful, NoFile, CleanRun, SharedOk, InventoryOk;
    RunIntact(codec, st, steps, i);
    OnCourseIff(codec, st, steps, i);
    var end := Run(codec, st, steps);
    if i in end.backups {
      assert PhaseOk(codec, end.shared, i, end.backups[i]);
      if end.backups[i].RaisedLeft? {
        OwnedFileAt(end.shared, i, end.backups[i].output, end.backups[i].archive);
      }
    }
  }
}
