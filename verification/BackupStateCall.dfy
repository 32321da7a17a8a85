/** A state backup that nobody interrupts (src/doll/backup.py, src/doll/state_package.py): it lists
    and reads one table after another, the inventory and the files, and completes. */
module BackupStateCall {
  import opened Outcomes
  import opened BackupProtocol
  import opened BackupScenarios

  /** The identifiers and the rows of each table in turn. */
  function TableSteps(i: nat, s: Shared, order: seq<string>): seq<Step>
    requires forall t :: t in order ==> t in s.tables
  {
    if order == [] then []
    else
      var n := |order| - 1;
      TableSteps(i, s, order[..n]) + [ListKeys(i, order[n]), ReadRows(i, order[n], s.tables[order[n]].Keys)]
  }

  /** The inventory, the files of the carried rows, and the re-check. */
  function LastReads(i: nat, s: Shared): seq<Step>
  {
    [ListInventory(i), ReadRecords(i, s.inventory.Keys), ReadFiles(i, Owned(Carried(StateKind, s.tables)))]
  }

  function StateReads(i: nat, s: Shared, output: Path, order: seq<string>): seq<Step>
    requires forall t :: t in order ==> t in s.tables
  {
    [Open(i, StateKind, output), Identify(i)] + (TableSteps(i, s, order) + (LastReads(i, s) + [CheckUnchanged(i)]))
  }

  /** What has been read when these tables have. */
  function TablesSeen(s: Shared, order: seq<string>): Seen
    requires forall t :: t in order ==> t in s.tables
  {
    Seen(Content(map t | t in order :: s.tables[t], map[], map[]), map t | t in order :: s.tables[t].Keys, None, None)
  }

  function AllSeen(s: Shared): Seen
  {
    Seen(Content(s.tables, s.inventory, OwnedFiles(Carried(StateKind, s.tables), s.files)),
         map t | t in s.tables :: s.tables[t].Keys, Some(s.inventory.Keys), None)
  }

  function StateReading(s: Shared, output: Path, seen: Seen): Phase
  {
    Reading(StateKind, output, s.revision, seen)
  }

  /** A reading step of a state backup. */
  lemma ReadsOn(codec: Codec, s: Shared, output: Path, seen: Seen, step: Step)
    requires IsPrepare(step) && !step.CheckUnchanged? && !step.Snapshot? && !step.Identify?
    ensures
      var more := ReadStep(s, s.revision, seen, step);
      PrepareStep(codec, s, StateReading(s, output, seen), step)
      == if more.Some? then StateReading(s, output, more.value) else Raised
  {
    hide ReadStep, FilesComplete, PayloadOf, Covered;
  }

  /** What has been read when one more table has been listed. */
  function ListedNext(s: Shared, order: seq<string>, t: string): Seen
    requires t in s.tables && forall u :: u in order ==> u in s.tables
  {
    var seen := TablesSeen(s, order);
    seen.(read := seen.read.(tables := seen.read.tables[t := map[]]), listed := seen.listed[t := s.tables[t].Keys])
  }

  lemma TableListed(s: Shared, i: nat, order: seq<string>, t: string)
    requires t in s.tables && forall u :: u in order ==> u in s.tables
    ensures ReadStep(s, s.revision, TablesSeen(s, order), ListKeys(i, t)) == Some(ListedNext(s, order, t))
  {
    hide HasSecrets;
  }

  lemma TableRead(s: Shared, i: nat, order: seq<string>, t: string)
    requires t in s.tables && forall u :: u in order ==> u in s.tables
    ensures forall u :: u in order + [t] ==> u in s.tables
    ensures ReadStep(s, s.revision, ListedNext(s, order, t), ReadRows(i, t, s.tables[t].Keys))
      == Some(TablesSeen(s, order + [t]))
  {
    hide HasSecrets;
    NextSeen(s, order, t);
    var rows := map k | k in s.tables[t].Keys :: s.tables[t][k];
    assert rows == s.tables[t] && map[] + rows == rows;
    hide TablesSeen;
    var listed := ListedNext(s, order, t);
    assert listed.read.tables[t] == map[];
  }

  lemma NextSeen(s: Shared, order: seq<string>, t: string)
    requires t in s.tables && forall u :: u in order ==> u in s.tables
    ensures forall u :: u in order + [t] ==> u in s.tables
    ensures
      var listed := ListedNext(s, order, t);
      TablesSeen(s, order + [t]) == listed.(read := listed.read.(tables := listed.read.tables[t := s.tables[t]]))
  {
    var listed, next := ListedNext(s, order, t), TablesSeen(s, order + [t]);
    assert forall u :: u in order + [t] <==> u in order || u == t;
    assert listed.read.tables[t := s.tables[t]] == next.read.tables;
    assert listed.listed == next.listed;
  }

  lemma {:induction false} TablesRead(codec: Codec, st: State, s: Shared, i: nat, output: Path, order: seq<string>)
    requires forall t :: t in order ==> t in s.tables
    ensures Run(codec, At(st, s, i, StateReading(s, output, NOTHING)), TableSteps(i, s, order))
      == At(st, s, i, StateReading(s, output, TablesSeen(s, order)))
    decreases |order|
  {
    hide Run, Apply, PrepareStep, ReadStep, At, ListedNext;
    var start := At(st, s, i, StateReading(s, output, NOTHING));
    if order == [] {
      assert TablesSeen(s, order) == NOTHING;
      NoSteps(codec, start);
    } else {
      var n := |order| - 1;
      var front, t := order[..n], order[n];
      assert order == front + [t];
      TablesRead(codec, st, s, i, output, front);
      var seen := TablesSeen(s, front);
      var listed := ListedNext(s, front, t);
      TableListed(s, i, front, t);
      TableRead(s, i, front, t);
      ReadsOn(codec, s, output, seen, ListKeys(i, t));
      ReadsOn(codec, s, output, listed, ReadRows(i, t, s.tables[t].Keys));
      PreparesAt(codec, st, s, i, StateReading(s, output, seen), ListKeys(i, t));
      PreparesAt(codec, st, s, i, StateReading(s, output, listed), ReadRows(i, t, s.tables[t].Keys));
      var two := [ListKeys(i, t), ReadRows(i, t, s.tables[t].Keys)];
      RunAppend(codec, start, TableSteps(i, s, front), two);
      TwoSteps(codec, At(st, s, i, StateReading(s, output, seen)), ListKeys(i, t), ReadRows(i, t, s.tables[t].Keys));
    }
  }

  lemma NoSteps(codec: Codec, st: State)
    ensures Run(codec, st, []) == st
  {
  }

  lemma TwoSteps(codec: Codec, st: State, a: Step, b: Step)
    ensures Run(codec, st, [a, b]) == Apply(codec, Apply(codec, st, a), b)
  {
    hide Apply, Run;
    assert [a, b] == [a] + [b];
    RunOne(codec, st, a, [b]);
    OneStep(codec, Apply(codec, st, a), b);
  }

  lemma InventoryListed(s: Shared, i: nat, seen: Seen)
    requires seen.read.inventory == map[]
    ensures ReadStep(s, s.revision, seen, ListInventory(i)) == Some(seen.(inventoried := Some(s.inventory.Keys)))
  {
    hide HasSecrets;
  }

  lemma RecordsRead(s: Shared, i: nat, seen: Seen)
    requires seen.read.inventory == map[]
    ensures ReadStep(s, s.revision, seen, ReadRecords(i, s.inventory.Keys))
      == Some(seen.(read := seen.read.(inventory := s.inventory)))
  {
    hide HasSecrets;
    var records := map j | j in s.inventory.Keys :: s.inventory[j];
    assert records == s.inventory && seen.read.inventory + records == records;
  }

  lemma FilesRead(s: Shared, i: nat, seen: Seen)
    requires seen.read.files == map[]
    ensures
      var carried := Carried(StateKind, s.tables);
      ReadStep(s, s.revision, seen, ReadFiles(i, Owned(carried)))
      == Some(seen.(read := seen.read.(files := OwnedFiles(carried, s.files))))
  {
    hide HasSecrets, Owned, Carried;
    var carried := Carried(StateKind, s.tables);
    var files := map p | p in Owned(carried) && p in s.files :: s.files[p];
    assert seen.read.files + files == OwnedFiles(carried, s.files);
  }

  lemma AllSeenIs(s: Shared)
    ensures AllSeen(s) == Seen(
      Content(s.tables, s.inventory, OwnedFiles(Carried(StateKind, s.tables), s.files)),
      map t | t in s.tables :: s.tables[t].Keys, Some(s.inventory.Keys), None)
  {
  }

  lemma AllTablesSeen(s: Shared, order: seq<string>)
    requires forall t :: t in order <==> t in s.tables
    ensures TablesSeen(s, order).read.tables == s.tables
    ensures TablesSeen(s, order).listed == map t | t in s.tables :: s.tables[t].Keys
  {
  }

  /** The archive of the current state without its secret rows. */
  function StateCapture(s: Shared): Archive
  {
    Archive(StateKind, s.revision, PayloadOf(StateKind, Durable(s)))
  }

  lemma StateChecked(codec: Codec, s: Shared, i: nat, output: Path)
    requires SharedOk(s)
    ensures PrepareStep(codec, s, StateReading(s, output, AllSeen(s)), CheckUnchanged(i))
      == if s.synced == s.revision then Ready(output, StateCapture(s)) else Raised
  {
    hide Owned, Carried, ReadStep, HasSecrets;
    OwnedCarried(StateKind, s.tables);
    var carried := Carried(StateKind, s.tables);
    assert AllSeen(s).read.files.Keys == Owned(carried);
    assert OwnedFiles(carried, AllSeen(s).read.files) == OwnedFiles(carried, OwnedFiles(s.tables, s.files));
  }

  lemma Identified(codec: Codec, s: Shared, i: nat, output: Path)
    ensures PrepareStep(codec, s, Opened(StateKind, output, s.synced), Identify(i))
      == if s.synced == s.revision then StateReading(s, output, NOTHING) else Raised
  {
    hide ReadStep, Covered, FilesComplete, PayloadOf;
  }

  lemma OpensState(codec: Codec, st: State, i: nat, output: Path)
    requires i !in st.backups
    ensures Apply(codec, st, Open(i, StateKind, output)) == At(st, st.shared, i,
      if output in st.shared.outputs then Raised else Opened(StateKind, output, st.shared.synced))
  {
    hide PrepareStep, PublishStep, WriterStep, OutsiderStep;
  }

  /** An undisturbed state reader gets ready exactly when its output is unused and the identity is in
      step. */
  lemma StatePrepared(codec: Codec, st: State, i: nat, output: Path, order: seq<string>)
    requires SharedOk(st.shared) && i !in st.backups && forall t :: t in order <==> t in st.shared.tables
    ensures
      var s := st.shared;
      Run(codec, st, StateReads(i, s, output, order))
      == At(st, s, i, if output !in s.outputs && s.synced == s.revision then Ready(output, StateCapture(s)) else Raised)
  {
    hide Owned, Run, Apply, PrepareStep, At, StateCapture, SharedOk, TableSteps, LastReads, OwnSteps;
    var s := st.shared;
    var two := [Open(i, StateKind, output), Identify(i)];
    var rest := TableSteps(i, s, order) + (LastReads(i, s) + [CheckUnchanged(i)]);
    OpensState(codec, st, i, output);
    RunAppend(codec, st, two, rest);
    TwoSteps(codec, st, Open(i, StateKind, output), Identify(i));
    StateStepsAre(i, s, order);
    if output in s.outputs {
      RaisedStep(codec, st, s, i, Identify(i));
      OwnRaisedStays(codec, st, s, i, rest);
    } else {
      PreparesAt(codec, st, s, i, Opened(StateKind, output, s.synced), Identify(i));
      Identified(codec, s, i, output);
      if s.synced == s.revision {
        StateReadOn(codec, st, i, output, order);
      } else {
        OwnRaisedStays(codec, st, s, i, rest);
      }
    }
  }

  lemma StateReadOn(codec: Codec, st: State, i: nat, output: Path, order: seq<string>)
    requires SharedOk(st.shared) && st.shared.synced == st.shared.revision
    requires forall t :: t in order <==> t in st.shared.tables
    ensures
      var s := st.shared;
      var steps := TableSteps(i, s, order) + (LastReads(i, s) + [CheckUnchanged(i)]);
      Run(codec, At(st, s, i, StateReading(s, output, NOTHING)), steps) == At(st, s, i, Ready(output, StateCapture(s)))
  {
    hide Owned, Carried, Run, Apply, PrepareStep, ReadStep, At, StateCapture, SharedOk, TableSteps, TablesSeen, AllSeen;
    SeenShape(st.shared, order);
    var s := st.shared;
    var start := At(st, s, i, StateReading(s, output, NOTHING));
    var seen := TablesSeen(s, order);
    var counted := seen.(inventoried := Some(s.inventory.Keys));
    var recorded := counted.(read := seen.read.(inventory := s.inventory));
    var files := ReadFiles(i, Owned(Carried(StateKind, s.tables)));
    TablesRead(codec, st, s, i, output, order);
    RunAppend(codec, start, TableSteps(i, s, order), LastReads(i, s) + [CheckUnchanged(i)]);
    AllTablesSeen(s, order);
    InventoryListed(s, i, seen);
    RecordsRead(s, i, counted);
    FilesRead(s, i, recorded);
    assert recorded.(read := recorded.read.(files := OwnedFiles(Carried(StateKind, s.tables), s.files))) == AllSeen(s)
      by { AllSeenIs(s); }
    ReadsOn(codec, s, output, seen, ListInventory(i));
    ReadsOn(codec, s, output, counted, ReadRecords(i, s.inventory.Keys));
    ReadsOn(codec, s, output, recorded, files);
    StateChecked(codec, s, i, output);
    PreparesAt(codec, st, s, i, StateReading(s, output, seen), ListInventory(i));
    PreparesAt(codec, st, s, i, StateReading(s, output, counted), ReadRecords(i, s.inventory.Keys));
    PreparesAt(codec, st, s, i, StateReading(s, output, recorded), files);
    PreparesAt(codec, st, s, i, StateReading(s, output, AllSeen(s)), CheckUnchanged(i));
    var middle := At(st, s, i, StateReading(s, output, seen));
    ThreeSteps(codec, middle, ListInventory(i), ReadRecords(i, s.inventory.Keys), files);
    RunAppend(codec, middle, LastReads(i, s), [CheckUnchanged(i)]);
    OneStep(codec, At(st, s, i, StateReading(s, output, AllSeen(s))), CheckUnchanged(i));
  }

  lemma SeenShape(s: Shared, order: seq<string>)
    requires forall t :: t in order ==> t in s.tables
    ensures
      var seen := TablesSeen(s, order);
      seen.read.inventory == map[] && seen.read.files == map[] && seen.inventoried == None && seen.walked == None
  {
  }

  /** All steps are the call's own. */
  ghost predicate OwnSteps(steps: seq<Step>, i: nat)
  {
    forall k :: 0 <= k < |steps| ==> (IsPrepare(steps[k]) || IsPublish(steps[k])) && steps[k].id == i
  }

  lemma OwnAppend(a: seq<Step>, b: seq<Step>, i: nat)
    requires OwnSteps(a, i) && OwnSteps(b, i)
    ensures OwnSteps(a + b, i)
  {
    hide IsPrepare, IsPublish;
  }

  lemma OwnRaisedStays(codec: Codec, st: State, s: Shared, i: nat, steps: seq<Step>)
    requires OwnSteps(steps, i)
    ensures Run(codec, At(st, s, i, Raised), steps) == At(st, s, i, Raised)
  {
    RaisedStays(codec, st, s, i, steps);
  }

  lemma StateStepsAre(i: nat, s: Shared, order: seq<string>)
    requires forall t :: t in order ==> t in s.tables
    ensures OwnSteps(TableSteps(i, s, order) + (LastReads(i, s) + [CheckUnchanged(i)]), i)
  {
    hide Owned, Carried;
    TableStepsAre(i, s, order);
    OwnAppend(TableSteps(i, s, order), LastReads(i, s) + [CheckUnchanged(i)], i);
  }

  lemma {:induction false} TableStepsAre(i: nat, s: Shared, order: seq<string>)
    requires forall t :: t in order ==> t in s.tables
    ensures OwnSteps(TableSteps(i, s, order), i)
    decreases |order|
  {
    if order != [] {
      var n := |order| - 1;
      var two := [ListKeys(i, order[n]), ReadRows(i, order[n], s.tables[order[n]].Keys)];
      TableStepsAre(i, s, order[..n]);
      OwnAppend(TableSteps(i, s, order[..n]), two, i);
    }
  }

  /** Whenever the write lock is free, a state backup that nobody interrupts completes if and only if its
      output is unused, the identity is in step and the archive built from the state verifies;
      then it holds the state without its secret rows and is registered as the next revision,
      and otherwise it raises and changes nothing. */
  lemma StateCompletesIff(codec: Codec, st: State, i: nat, output: Path, order: seq<string>, event: string)
    requires Invariant(codec, st) && st.shared.lock == None && i !in st.backups
    requires forall t :: t in order <==> t in st.shared.tables
    requires AUDIT in st.shared.tables ==> event !in st.shared.tables[AUDIT]
    ensures
      var s := st.shared;
      var a := StateCapture(s);
      var end := Run(codec, st, StateReads(i, s, output, order) + PublishCall(i, event));
      if output !in s.outputs && s.synced == s.revision && codec.accepts(a) then
        && end.backups == st.backups[i := Done(output, a)]
        && end.shared.revision == s.revision + 1 && end.shared.synced == s.revision + 1
        && end.shared.tables == WithEvent(s.tables, event)
        && end.shared.inventory == s.inventory[i := Record(codec, output, a)]
        && end.shared.outputs == s.outputs[output := Linked(i, a)] && end.shared.lock == None
      else end == st.(backups := st.backups[i := Raised])
  {
    hide Owned, Run, StateReads, PublishCall, EnterCall, PayloadOf, SharedOk, WithEvent, Registry, Entered;
    var s := st.shared;
    var a := StateCapture(s);
    StatePrepared(codec, st, i, output, order);
    RunAppend(codec, st, StateReads(i, s, output, order), PublishCall(i, event));
    if output in s.outputs || s.synced != s.revision {
      PublishSteps(i, event);
      RaisedStays(codec, st, s, i, PublishCall(i, event));
    } else if !codec.accepts(a) {
      RefusedAlone(codec, st, s, i, output, a, event);
    } else {
      AuditTable(s);
      EnterAlone(codec, st, s, i, output, a);
      FinishAlone(codec, st, s, i, output, a, event);
      PublishParts(codec, At(st, s, i, Ready(output, a)), i, event);
      RegistryFields(codec, s, i, output, a, event);
    }
  }
}
