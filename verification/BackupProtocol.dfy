/** Backup creation against every interleaving (src/doll/backup.py,
    src/doll/backup_manifest.py).

    Any number of backups run at once, among writers that publish artifact files and
    commit new states, and among outsiders that put files at outputs or take them away.
    Each step is what one process does between two points where the others may run. A
    backup reads the state row by row or as one snapshot, re-reads the revision, verifies
    the archive it built, links it to the output without overwriting, verifies what lies
    there, compares its manifest, and registers the archive in a transaction that starts by
    comparing revisions. Every step may raise. */
module BackupProtocol {
  import opened Outcomes
  import opened Json
  import opened ManagedPaths

  type Path = string

  /** A database row; an artifact row owns the managed file at `path`. */
  datatype Row = Row(path: Option<Path>, secret: bool, data: string)

  type Tables = map<string, map<string, Row>>

  const AUDIT := "audit_events"

  /** The audit row of a registration. */
  const CREATED := Row(None, false, "backup.create")

  datatype Kind = StateKind | WorkspaceKind

  /** An inventory record of a verified backup. */
  datatype Registration = Registration(kind: Kind, source: nat, output: Path, size: nat, hash: string)

  /** The durable state at one revision: rows, backup inventory and owned artifact files. */
  datatype Content = Content(tables: Tables, inventory: map<nat, Registration>, files: map<Path, Bytes>)

  datatype Archive = Archive(kind: Kind, source: nat, payload: Content)

  /** The archive writer, the digest, case folding, and whether the archive built from a
      payload verifies. */
  datatype Codec = Codec(
    pack: Archive -> Bytes, digest: Bytes -> string, fold: Path -> string, accepts: Archive -> bool)

  /** A file at an output path, with who linked it there. */
  datatype OutputFile = Foreign(bytes: Bytes) | Linked(publisher: nat, archive: Archive)

  datatype Holder = Writer | Backup(id: nat)

  /** What all processes share. `tidy` says that the workspace directory holds nothing unknown
      outside the artifact tree and the database, `synced` is the revision in the workspace
      identity. `history` keeps the state each commit left behind and `linked` the archive
      each backup published; both only serve to state properties. */
  datatype Shared = Shared(
    schema: set<string>, tidy: bool, revision: nat, synced: nat, tables: Tables,
    inventory: map<nat, Registration>, files: map<Path, Bytes>, lock: Option<Holder>, outputs: map<Path, OutputFile>,
    history: map<nat, Content>, linked: map<nat, Archive>)

  /** What a reader has so far: the keys it listed and the rows it read table by table, the
      same for the inventory, the files, and the artifact tree it walked. */
  datatype Seen = Seen(
    read: Content, listed: map<string, set<string>>, inventoried: Option<set<nat>>, walked: Option<set<Path>>)

  const NOTHING := Seen(Content(map[], map[], map[]), map[], None, None)

  /** Where one backup call stands. `Posted` has linked its archive, `Published` has verified
      it there and `Registering` has compared its manifest; `Returning` has registered it and
      only has its temporary package to remove. `Raised` left nothing behind; `RaisedLate`
      raised after its commit and removed its file; `RaisedLeft` raised without removing it. */
  datatype Phase =
    | Opened(kind: Kind, output: Path, workspaceRevision: nat)
    | Reading(kind: Kind, output: Path, source: nat, seen: Seen)
    | Ready(output: Path, archive: Archive)
    | Posted(output: Path, archive: Archive)
    | Published(output: Path, archive: Archive)
    | Registering(output: Path, archive: Archive)
    | Locked(output: Path, archive: Archive)
    | Compared(output: Path, archive: Archive)
    | Committed(output: Path, archive: Archive)
    | Returning(output: Path, archive: Archive)
    | Done(output: Path, archive: Archive)
    | Withdrawing(output: Path, archive: Archive, committed: bool)
    | Raised
    | RaisedLate
    | RaisedLeft(output: Path, archive: Archive, committed: bool)

  datatype State = State(shared: Shared, backups: map<nat, Phase>)

  datatype Step =
    // writers
    | ChangeFiles(files: map<Path, Bytes>)
    | WriterBegin
    | WriterCommit(revision: nat, tables: Tables)
    | WriterRollback
    | Sync(revision: nat)
    // outsiders
    | TakeAway(path: Path)
    | Put(path: Path, bytes: Bytes)
    // one backup call
    | Open(id: nat, kind: Kind, output: Path)
    | Identify(id: nat)
    | ListKeys(id: nat, table: string)
    | ReadRows(id: nat, table: string, keys: set<string>)
    | ListInventory(id: nat)
    | ReadRecords(id: nat, ids: set<nat>)
    | Snapshot(id: nat)
    | Walk(id: nat)
    | ReadFiles(id: nat, paths: set<Path>)
    | CheckUnchanged(id: nat)
    | Link(id: nat)
    | Confirm(id: nat)
    | Match(id: nat)
    | Begin(id: nat)
    | Compare(id: nat)
    | Commit(id: nat, event: string)
    | Settle(id: nat)
    | Return(id: nat)
    | Fail(id: nat)
    | Unlink(id: nat)
    | UnlinkFails(id: nat)

  // ----- what a state holds --------------------------------------------------------------

  /** The managed paths that artifact rows own. */
  function Owned(tables: Tables): set<Path>
  {
    set t, k | t in tables && k in tables[t] && tables[t][k].path.Some? :: tables[t][k].path.value
  }

  function OwnedFiles(tables: Tables, files: map<Path, Bytes>): map<Path, Bytes>
  {
    map p | p in Owned(tables) && p in files :: files[p]
  }

  /** The durable state as committed now. Files that no row owns yet do not belong to it. */
  function Durable(s: Shared): Content
  {
    Content(s.tables, s.inventory, OwnedFiles(s.tables, s.files))
  }

  /** The rows that a backup of the given kind carries: a workspace backup carries the whole
      database, a state package leaves secret rows out. */
  function Carried(kind: Kind, tables: Tables): Tables
  {
    if kind == WorkspaceKind then tables
    else map t | t in tables :: map k | k in tables[t] && !tables[t][k].secret :: tables[t][k]
  }

  /** What a backup of the given kind carries of a durable state: the carried rows with their
      files, and the backup inventory. */
  function PayloadOf(kind: Kind, c: Content): Content
  {
    Content(Carried(kind, c.tables), c.inventory, OwnedFiles(Carried(kind, c.tables), c.files))
  }

  predicate HasSecrets(tables: Tables)
  {
    exists t, k :: t in tables && k in tables[t] && tables[t][k].secret
  }

  /** The reader has every row and record it listed, of every table. */
  predicate Covered(schema: set<string>, seen: Seen)
  {
    && seen.read.tables.Keys == schema
    && (forall t :: t in seen.read.tables ==> t in seen.listed && seen.read.tables[t].Keys == seen.listed[t])
    && seen.inventoried == Some(seen.read.inventory.Keys)
  }

  /** The files a reader must have: those of the rows it carries. For a workspace backup the
      artifact tree must hold exactly the owned paths, no two alike up to case. */
  ghost predicate FilesComplete(codec: Codec, kind: Kind, seen: Seen)
  {
    && Owned(Carried(kind, seen.read.tables)) <= seen.read.files.Keys
    && (kind == WorkspaceKind ==>
          && seen.walked == Some(Owned(seen.read.tables))
          && FoldDistinct(codec.fold, Owned(seen.read.tables)))
  }

  /** The tables with one more audit row. */
  function WithEvent(tables: Tables, event: string): Tables
  {
    if AUDIT in tables then tables[AUDIT := tables[AUDIT][event := CREATED]] else tables
  }

  function Record(codec: Codec, output: Path, a: Archive): Registration
  {
    Registration(a.kind, a.source, output, |codec.pack(a)|, codec.digest(codec.pack(a)))
  }

  function BytesOf(codec: Codec, file: OutputFile): Bytes
  {
    match file
    case Foreign(bytes) => bytes
    case Linked(_, a) => codec.pack(a)
  }

  /** What lies at the output has the size and digest of the archive. */
  predicate Confirmed(codec: Codec, s: Shared, output: Path, a: Archive)
  {
    && output in s.outputs
    && |BytesOf(codec, s.outputs[output])| == |codec.pack(a)|
    && codec.digest(BytesOf(codec, s.outputs[output])) == codec.digest(codec.pack(a))
  }

  // ----- the steps ------------------------------------------------------------------------

  /** A commit: the new rows become visible together with the new revision. */
  function CommitState(s: Shared, revision: nat, tables: Tables, inventory: map<nat, Registration>): Shared
  {
    var next := s.(revision := revision, tables := tables, inventory := inventory, lock := None);
    next.(history := s.history[revision := Durable(next)])
  }

  /** What a writer may do: put down or remove files that no committed row owns, commit
      under the write lock with a greater revision and all owned files in place, and
      record a revision in the workspace identity. The identity is read, compared and
      replaced without the lock, so a slow writer may put back a smaller one. */
  function WriterStep(s: Shared, step: Step): Shared
  {
    match step
    case ChangeFiles(files) =>
      if forall p :: p in Owned(s.tables) && p in s.files ==> p in files && files[p] == s.files[p]
      then s.(files := files) else s
    case WriterBegin => if s.lock.None? then s.(lock := Some(Writer)) else s
    case WriterRollback => if s.lock == Some(Writer) then s.(lock := None) else s
    case WriterCommit(revision, tables) =>
      if s.lock == Some(Writer) && revision > s.revision && tables.Keys == s.schema && Owned(tables) <= s.files.Keys
      then CommitState(s, revision, tables, s.inventory) else s
    case Sync(revision) =>
      if revision <= s.revision then s.(synced := revision) else s
    case _ => s
  }

  /** What somebody outside may do: take the file at an output away, or put one where there
      is none. */
  function OutsiderStep(s: Shared, step: Step): Shared
  {
    match step
    case TakeAway(path) => s.(outputs := s.outputs - {path})
    case Put(path, bytes) =>
      if path in s.outputs then s else s.(outputs := s.outputs[path := Foreign(bytes)])
    case _ => s
  }

  /** One step of a reader. A row or record that was listed and is gone makes it raise. */
  function ReadStep(s: Shared, source: nat, seen: Seen, step: Step): Option<Seen>
  {
    var read := seen.read;
    match step
    case ListKeys(_, table) =>
      if table !in s.tables then None
      else Some(seen.(read := read.(tables := read.tables[table := map[]]),
                      listed := seen.listed[table := s.tables[table].Keys]))
    case ReadRows(_, table, keys) =>
      if table !in read.tables || table !in s.tables || !(keys <= s.tables[table].Keys) then None
      else
        var rows := map k | k in keys :: s.tables[table][k];
        Some(seen.(read := read.(tables := read.tables[table := read.tables[table] + rows])))
    case ListInventory(_) =>
      Some(seen.(read := read.(inventory := map[]), inventoried := Some(s.inventory.Keys)))
    case ReadRecords(_, ids) =>
      if !(ids <= s.inventory.Keys) then None
      else
        var records := map j | j in ids :: s.inventory[j];
        Some(seen.(read := read.(inventory := read.inventory + records)))
    case Snapshot(_) =>
      if s.revision != source || HasSecrets(s.tables) || !s.tidy then None
      else Some(seen.(read := read.(tables := s.tables, inventory := s.inventory),
                      listed := map t | t in s.tables :: s.tables[t].Keys,
                      inventoried := Some(s.inventory.Keys)))
    case Walk(_) => Some(seen.(walked := Some(s.files.Keys)))
    case ReadFiles(_, paths) =>
      Some(seen.(read := read.(files := read.files + map p | p in paths && p in s.files :: s.files[p])))
    case _ => Some(seen)
  }

  /** The steps up to publication change nothing that is shared. A state backup reads row by
      row, a workspace backup takes one snapshot. */
  ghost function PrepareStep(codec: Codec, s: Shared, phase: Phase, step: Step): Phase
  {
    match phase
    case Opened(kind, output, workspaceRevision) =>
      if !step.Identify? then phase
      else if workspaceRevision == s.revision then Reading(kind, output, s.revision, NOTHING)
      else Raised
    case Reading(kind, output, source, seen) =>
      if step.CheckUnchanged? then
        if s.revision == source && s.synced == source && Covered(s.schema, seen) && FilesComplete(codec, kind, seen)
        then Ready(output, Archive(kind, source, PayloadOf(kind, seen.read))) else Raised
      else if (kind == StateKind && step.Snapshot?) || (kind == WorkspaceKind && ReadsRows(step)) then phase
      else
        var more := ReadStep(s, source, seen, step);
        if more.Some? then phase.(seen := more.value) else Raised
    case _ => phase
  }

  /** Publication, registration and withdrawal. */
  function PublishStep(codec: Codec, s: Shared, phase: Phase, step: Step): (Shared, Phase)
  {
    match (step, phase)
    case (Link(i), Ready(output, a)) =>
      if output in s.outputs || !codec.accepts(a) then (s, Raised)
      else (s.(outputs := s.outputs[output := Linked(i, a)], linked := s.linked[i := a]), Posted(output, a))
    case (Confirm(i), Posted(output, a)) =>
      (s, if Confirmed(codec, s, output, a) then Published(output, a) else Withdrawing(output, a, false))
    case (Match(i), Published(output, a)) => (s, Registering(output, a))
    case (Begin(i), Registering(output, a)) =>
      if s.lock.None? then (s.(lock := Some(Backup(i))), Locked(output, a)) else (s, phase)
    case (Compare(i), Locked(output, a)) =>
      if s.revision == a.source then (s, Compared(output, a))
      else (s.(lock := None), Withdrawing(output, a, false))
    case (Commit(i, event), Compared(output, a)) =>
      if AUDIT in s.tables && event !in s.tables[AUDIT] then
        (CommitState(s, s.revision + 1, WithEvent(s.tables, event), s.inventory[i := Record(codec, output, a)]),
         Committed(output, a))
      else (s.(lock := None), Withdrawing(output, a, false))
    case (Settle(i), Committed(output, a)) =>
      if s.synced <= a.source + 1 then (s.(synced := a.source + 1), Returning(output, a))
      else (s, Withdrawing(output, a, true))
    case (Return(i), Returning(output, a)) => (s, Done(output, a))
    case (Unlink(i), Withdrawing(output, a, committed)) =>
      (s.(outputs := s.outputs - {output}), if committed then RaisedLate else Raised)
    case (UnlinkFails(i), Withdrawing(output, a, committed)) => (s, RaisedLeft(output, a, committed))
    case (Fail(i), _) => FailStep(s, phase)
    case _ => (s, phase)
  }

  /** An exception. Before publication the call just raises. Inside publication and inside
      registration the handler rolls an open transaction back and withdraws the published
      file, even after the commit. Between the two, and when the temporary package is
      removed at the end, no handler withdraws anything. */
  function FailStep(s: Shared, phase: Phase): (Shared, Phase)
  {
    match phase
    case Opened(_, _, _) => (s, Raised)
    case Reading(_, _, _, _) => (s, Raised)
    case Ready(_, _) => (s, Raised)
    case Posted(output, a) => (s, Withdrawing(output, a, false))
    case Published(output, a) => (s, RaisedLeft(output, a, false))
    case Registering(output, a) => (s, Withdrawing(output, a, false))
    case Locked(output, a) => (s.(lock := None), Withdrawing(output, a, false))
    case Compared(output, a) => (s.(lock := None), Withdrawing(output, a, false))
    case Committed(output, a) => (s, Withdrawing(output, a, true))
    case Returning(output, a) => (s, RaisedLeft(output, a, true))
    case _ => (s, phase)
  }

  predicate ReadsRows(step: Step)
  {
    step.ListKeys? || step.ReadRows? || step.ListInventory? || step.ReadRecords?
  }

  predicate IsPrepare(step: Step)
  {
    ReadsRows(step) || step.Identify? || step.Snapshot? || step.Walk? || step.ReadFiles? || step.CheckUnchanged?
  }

  predicate IsPublish(step: Step)
  {
    || step.Link? || step.Confirm? || step.Match? || step.Begin? || step.Compare? || step.Commit? || step.Settle?
    || step.Return? || step.Fail? || step.Unlink? || step.UnlinkFails?
  }

  predicate IsOutsider(step: Step)
  {
    step.TakeAway? || step.Put?
  }

  /** One step of the system; a step that is not enabled changes nothing. */
  ghost function Apply(codec: Codec, st: State, step: Step): State
  {
    if step.Open? then
      if step.id in st.backups then st
      else
        var phase := if step.output in st.shared.outputs then Raised
                     else Opened(step.kind, step.output, st.shared.synced);
        st.(backups := st.backups[step.id := phase])
    else if IsPrepare(step) then
      if step.id !in st.backups then st
      else st.(backups := st.backups[step.id := PrepareStep(codec, st.shared, st.backups[step.id], step)])
    else if IsPublish(step) then
      if step.id !in st.backups then st
      else
        var (shared, phase) := PublishStep(codec, st.shared, st.backups[step.id], step);
        State(shared, st.backups[step.id := phase])
    else if IsOutsider(step) then st.(shared := OutsiderStep(st.shared, step))
    else st.(shared := WriterStep(st.shared, step))
  }

  /** A whole run. */
  ghost function Run(codec: Codec, st: State, steps: seq<Step>): State
    decreases |steps|
  {
    if steps == [] then st else Run(codec, Apply(codec, st, steps[0]), steps[1..])
  }

  // ----- what every step keeps -----------------------------------------------------------------

  /** The current state is the last entry of the history. */
  ghost predicate SharedOk(s: Shared)
  {
    && s.tables.Keys == s.schema && AUDIT in s.schema
    && Owned(s.tables) <= s.files.Keys
    && s.synced <= s.revision
    && s.revision in s.history
    && s.history[s.revision] == Durable(s)
    && (forall r :: r in s.history ==> r <= s.revision)
  }

  /** The archive carries the durable state of its source revision. */
  ghost predicate Faithful(s: Shared, a: Archive)
  {
    && a.source in s.history
    && a.payload == PayloadOf(a.kind, s.history[a.source])
  }

  /** The state after a registering commit differs from the one before it by the new
      inventory record and by one new audit row. */
  ghost predicate Follows(before: Content, after: Content, id: nat, reg: Registration, event: string)
  {
    && AUDIT in before.tables && event !in before.tables[AUDIT] && id !in before.inventory
    && after == Content(WithEvent(before.tables, event), before.inventory[id := reg], before.files)
  }

  /** A registered backup: its record describes the archive it published, that archive
      carries the state of its source revision, and the commit that took the source
      revision to the next one is the one that registered it. */
  ghost predicate Registered(codec: Codec, s: Shared, id: nat)
    requires id in s.inventory
  {
    var reg := s.inventory[id];
    && id in s.linked
    && reg == Record(codec, reg.output, s.linked[id])
    && Faithful(s, s.linked[id])
    && reg.source in s.history && reg.source + 1 in s.history
    && var before, after := s.history[reg.source], s.history[reg.source + 1];
    && exists event :: Follows(before, after, id, reg, event)
  }

  ghost predicate InventoryOk(codec: Codec, s: Shared)
  {
    forall id :: id in s.inventory ==> Registered(codec, s, id)
  }

  ghost predicate Part<K, V>(part: map<K, V>, whole: map<K, V>)
  {
    forall k :: k in part ==> k in whole && whole[k] == part[k]
  }

  ghost predicate TablesCurrent(s: Shared, tables: Tables)
  {
    forall t :: t in tables ==> t in s.tables && Part(tables[t], s.tables[t])
  }

  ghost predicate ListsCurrent(s: Shared, seen: Seen)
  {
    && (forall t :: t in seen.listed ==> t in s.tables && seen.listed[t] == s.tables[t].Keys)
    && (seen.inventoried.Some? ==> seen.inventoried.value == s.inventory.Keys)
  }

  ghost predicate FilesCurrent(s: Shared, files: map<Path, Bytes>)
  {
    forall p :: p in files && p in Owned(s.tables) ==> p in s.files && files[p] == s.files[p]
  }

  ghost predicate SeenCurrent(s: Shared, seen: Seen)
  {
    && TablesCurrent(s, seen.read.tables) && ListsCurrent(s, seen)
    && Part(seen.read.inventory, s.inventory) && FilesCurrent(s, seen.read.files)
  }

  /** What a reader has seen so far is current as long as the revision has not moved. */
  ghost predicate ReadOk(s: Shared, source: nat, seen: Seen)
  {
    source <= s.revision && (source == s.revision ==> SeenCurrent(s, seen))
  }

  /** The call has no file at any output. */
  ghost predicate NoFile(s: Shared, i: nat)
  {
    forall p :: p in s.outputs && s.outputs[p].Linked? ==> s.outputs[p].publisher != i
  }

  /** What the call published is faithful; its file, unless it was taken away, is where the
      call put it and nowhere else. */
  ghost predicate Owns(s: Shared, i: nat, output: Path, a: Archive)
  {
    && (forall p :: p in s.outputs && s.outputs[p].Linked? && s.outputs[p].publisher == i ==>
          p == output && s.outputs[p].archive == a)
    && i in s.linked && s.linked[i] == a
    && Faithful(s, a)
  }

  ghost predicate Unregistered(s: Shared, i: nat)
  {
    i !in s.inventory && NoFile(s, i)
  }

  /** The call is registered with the archive it published. */
  ghost predicate Recorded(codec: Codec, s: Shared, i: nat, output: Path, a: Archive)
  {
    Owns(s, i, output, a) && i in s.inventory && s.inventory[i] == Record(codec, output, a) && a.source < s.revision
  }

  ghost predicate PhaseOk(codec: Codec, s: Shared, i: nat, phase: Phase)
  {
    && (s.lock == Some(Backup(i)) <==> phase.Locked? || phase.Compared?)
    && match phase
       case Opened(kind, output, ws) => Unregistered(s, i)
       case Reading(kind, output, source, seen) => Unregistered(s, i) && ReadOk(s, source, seen)
       case Ready(output, a) => Unregistered(s, i) && Faithful(s, a)
       case Posted(output, a) => i !in s.inventory && Owns(s, i, output, a)
       case Published(output, a) => i !in s.inventory && Owns(s, i, output, a)
       case Registering(output, a) => i !in s.inventory && Owns(s, i, output, a)
       case Locked(output, a) => i !in s.inventory && Owns(s, i, output, a)
       case Compared(output, a) => i !in s.inventory && Owns(s, i, output, a) && s.revision == a.source
       case Committed(output, a) => Recorded(codec, s, i, output, a)
       case Returning(output, a) => Recorded(codec, s, i, output, a)
       case Done(output, a) => Recorded(codec, s, i, output, a)
       case Withdrawing(output, a, committed) => Owns(s, i, output, a) && (committed <==> i in s.inventory)
       case Raised => Unregistered(s, i)
       case RaisedLate => i in s.inventory && NoFile(s, i)
       case RaisedLeft(output, a, committed) => Owns(s, i, output, a) && (committed <==> i in s.inventory)
  }

  ghost predicate BackupsOk(codec: Codec, st: State)
  {
    forall i :: i in st.backups ==> PhaseOk(codec, st.shared, i, st.backups[i])
  }

  /** A lock held by a backup belongs to one that has started, and only started backups
      are in the inventory or have files. */
  ghost predicate HoldersStarted(st: State)
  {
    && st.shared.inventory.Keys <= st.backups.Keys
    && (forall p :: p in st.shared.outputs && st.shared.outputs[p].Linked? ==>
          st.shared.outputs[p].publisher in st.backups)
    && (st.shared.lock.Some? && st.shared.lock.value.Backup? ==> st.shared.lock.value.id in st.backups)
  }

  ghost predicate Invariant(codec: Codec, st: State)
  {
    SharedOk(st.shared) && InventoryOk(codec, st.shared) && BackupsOk(codec, st) && HoldersStarted(st)
  }

  // ----- how the shared state moves ---------------------------------------------------------------

  /** A change of the shared state by one process, as the others see it. */
  ghost predicate Evolves(s: Shared, t: Shared, actor: Holder)
  {
    && s.revision <= t.revision
    && (forall r :: r in s.history ==> r in t.history && t.history[r] == s.history[r])
    && (s.revision == t.revision ==> SameDurable(s, t))
    && (forall j :: Backup(j) != actor ==> SameFor(s, t, j))
  }

  ghost predicate SameDurable(s: Shared, t: Shared)
  {
    && t.tables == s.tables && t.inventory == s.inventory
    && (forall p :: p in Owned(s.tables) && p in s.files ==> p in t.files && t.files[p] == s.files[p])
  }

  /** What concerns backup `j` alone is untouched, but its file may be gone. */
  ghost predicate SameFor(s: Shared, t: Shared, j: nat)
  {
    && (s.lock == Some(Backup(j)) <==> t.lock == Some(Backup(j)))
    && (s.lock == Some(Backup(j)) ==> s.revision == t.revision)
    && (j in s.inventory <==> j in t.inventory) && (j in s.inventory ==> t.inventory[j] == s.inventory[j])
    && (j in s.linked ==> j in t.linked && t.linked[j] == s.linked[j])
    && (forall p :: p in t.outputs && t.outputs[p].Linked? && t.outputs[p].publisher == j ==>
          p in s.outputs && s.outputs[p] == t.outputs[p])
  }

  lemma FaithfulKept(s: Shared, t: Shared, actor: Holder, a: Archive)
    requires Evolves(s, t, actor) && Faithful(s, a)
    ensures Faithful(t, a)
  {
  }

  lemma OwnsKept(s: Shared, t: Shared, actor: Holder, j: nat, output: Path, a: Archive)
    requires Evolves(s, t, actor) && actor != Backup(j) && Owns(s, j, output, a)
    ensures Owns(t, j, output, a)
  {
    hide Faithful;
    assert SameFor(s, t, j);
    FaithfulKept(s, t, actor, a);
  }

  lemma ReadKept(s: Shared, t: Shared, actor: Holder, source: nat, seen: Seen)
    requires Evolves(s, t, actor) && ReadOk(s, source, seen)
    ensures ReadOk(t, source, seen)
  {
    hide Owned, Part;
  }

  /** No other process can spoil what a backup relies on. */
  lemma OtherPhaseKept(codec: Codec, s: Shared, t: Shared, actor: Holder, j: nat, phase: Phase)
    requires Evolves(s, t, actor) && actor != Backup(j) && PhaseOk(codec, s, j, phase)
    ensures PhaseOk(codec, t, j, phase)
  {
    hide Evolves, Owns, ReadOk, Faithful;
    assert SameFor(s, t, j) && s.revision <= t.revision by { EvolvesFor(s, t, actor, j); }
    match phase
    case Opened(kind, output, ws) =>
    case Reading(kind, output, source, seen) => ReadKept(s, t, actor, source, seen);
    case Ready(output, a) => FaithfulKept(s, t, actor, a);
    case Raised =>
    case RaisedLate =>
    case _ => OwnsKept(s, t, actor, j, phase.output, phase.archive);
  }

  lemma EvolvesFor(s: Shared, t: Shared, actor: Holder, j: nat)
    requires Evolves(s, t, actor) && actor != Backup(j)
    ensures SameFor(s, t, j) && s.revision <= t.revision
  {
  }

  /** Registrations stay sound while the history only grows. */
  lemma RegisteredKept(codec: Codec, s: Shared, t: Shared, actor: Holder, id: nat)
    requires Evolves(s, t, actor) && id in s.inventory && Registered(codec, s, id)
    requires id in t.inventory && t.inventory[id] == s.inventory[id]
    requires id in t.linked && id in s.linked && t.linked[id] == s.linked[id]
    ensures Registered(codec, t, id)
  {
    FaithfulKept(s, t, actor, s.linked[id]);
  }

  // ----- each kind of step -------------------------------------------------------------------

  /** A commit by whoever holds the lock. */
  lemma CommitEvolves(s: Shared, actor: Holder, revision: nat, tables: Tables, inventory: map<nat, Registration>)
    requires SharedOk(s) && s.lock == Some(actor) && revision > s.revision
    requires tables.Keys == s.schema && Owned(tables) <= s.files.Keys
    requires forall j :: Backup(j) != actor ==>
      (j in s.inventory <==> j in inventory) && (j in s.inventory ==> inventory[j] == s.inventory[j])
    ensures var t := CommitState(s, revision, tables, inventory); SharedOk(t) && Evolves(s, t, actor)
  {
    hide Owned, OwnedFiles;
    var t := CommitState(s, revision, tables, inventory);
    assert forall r :: r in s.history ==> r != revision;
    assert Durable(t) == Durable(t.(history := s.history));
  }

  lemma WriterKeeps(s: Shared, step: Step)
    requires SharedOk(s)
    ensures var t := WriterStep(s, step);
      SharedOk(t) && Evolves(s, t, Writer) && t.inventory == s.inventory && t.linked == s.linked
    ensures var t := WriterStep(s, step);
      t.lock == s.lock || (t.lock.Some? ==> t.lock == Some(Writer))
    ensures WriterStep(s, step).outputs == s.outputs
  {
    hide Owned, Durable, CommitState, SharedOk, Evolves;
    match step
    case ChangeFiles(files) => if WriterStep(s, step) != s { FilesKeep(s, files); } else { Unmoved(s); }
    case WriterCommit(revision, tables) =>
      if WriterStep(s, step) != s {
        CommitEvolves(s, Writer, revision, tables, s.inventory);
        CommitFields(s, revision, tables, s.inventory);
      } else { Unmoved(s); }
    case WriterBegin => if s.lock.None? { LockMoves(s, Writer, Some(Writer)); } else { Unmoved(s); }
    case WriterRollback => if s.lock == Some(Writer) { LockMoves(s, Writer, None); } else { Unmoved(s); }
    case Sync(revision) =>
      if revision <= s.revision { SyncKeeps(s, Writer, revision); } else { Unmoved(s); }
    case _ => Unmoved(s);
  }

  lemma Unmoved(s: Shared)
    ensures Evolves(s, s, Writer)
  {
  }

  lemma CommitFields(s: Shared, revision: nat, tables: Tables, inventory: map<nat, Registration>)
    ensures var t := CommitState(s, revision, tables, inventory);
      && t.revision == revision && t.lock == None && t.inventory == inventory
      && t.linked == s.linked && t.outputs == s.outputs
  {
  }

  lemma FilesKeep(s: Shared, files: map<Path, Bytes>)
    requires SharedOk(s)
    requires forall p :: p in Owned(s.tables) && p in s.files ==> p in files && files[p] == s.files[p]
    ensures SharedOk(s.(files := files)) && Evolves(s, s.(files := files), Writer)
  {
    hide Owned;
    assert OwnedFiles(s.tables, files) == OwnedFiles(s.tables, s.files);
  }

  lemma LockMoves(s: Shared, actor: Holder, lock: Option<Holder>)
    requires SharedOk(s) && (s.lock == None || s.lock == Some(actor)) && (lock == None || lock == Some(actor))
    ensures SharedOk(s.(lock := lock)) && Evolves(s, s.(lock := lock), actor)
  {
    hide Owned;
  }

  lemma SyncKeeps(s: Shared, actor: Holder, revision: nat)
    requires SharedOk(s) && revision <= s.revision
    ensures var t := s.(synced := revision); SharedOk(t) && Evolves(s, t, actor)
  {
    hide Owned;
  }

  lemma OutsiderKeeps(s: Shared, step: Step)
    requires SharedOk(s)
    ensures var t := OutsiderStep(s, step);
      && SharedOk(t) && Evolves(s, t, Writer) && t == s.(outputs := t.outputs)
      && (forall p :: p in t.outputs && t.outputs[p].Linked? ==> p in s.outputs && s.outputs[p] == t.outputs[p])
  {
    hide Owned, OwnedFiles;
    var t := OutsiderStep(s, step);
    assert Durable(t) == Durable(s);
    assert t == s.(outputs := t.outputs);
  }

  lemma OwnedCarried(kind: Kind, tables: Tables)
    ensures Owned(Carried(kind, tables)) <= Owned(tables)
  {
    var carried := Carried(kind, tables);
    forall p | p in Owned(carried) ensures p in Owned(tables) {
      var t, k :| t in carried && k in carried[t] && carried[t][k].path == Some(p);
      assert tables[t][k] == carried[t][k];
    }
  }

  lemma PartWhole<K, V>(part: map<K, V>, whole: map<K, V>)
    requires Part(part, whole) && part.Keys == whole.Keys
    ensures part == whole
  {
  }

  /** Each reading step keeps what was seen current. */
  lemma ReadStepKeeps(s: Shared, source: nat, seen: Seen, step: Step)
    requires SharedOk(s) && ReadOk(s, source, seen)
    ensures var more := ReadStep(s, source, seen, step); more.Some? ==> ReadOk(s, source, more.value)
  {
    hide Owned, HasSecrets, SharedOk, Part;
    if step.ReadRows? && step.table in s.tables && step.table in seen.read.tables
       && step.keys <= s.tables[step.table].Keys
    {
      PartGrows(seen.read.tables[step.table], s.tables[step.table], step.keys);
    } else if step.ReadRecords? && step.ids <= s.inventory.Keys {
      PartGrows(seen.read.inventory, s.inventory, step.ids);
    }
    PartOfAll(s);
  }

  lemma PartGrows<K, V>(part: map<K, V>, whole: map<K, V>, keys: set<K>)
    requires keys <= whole.Keys
    ensures Part(part, whole) ==> Part(part + map k | k in keys :: whole[k], whole)
  {
  }

  lemma PartOfAll(s: Shared)
    ensures forall t :: t in s.tables ==> Part(map[], s.tables[t]) && Part(s.tables[t], s.tables[t])
    ensures Part(map[], s.inventory) && Part(s.inventory, s.inventory)
  {
  }

  /** Reading changes only the reader, and a reader that passes the re-check holds what its
      kind carries of the durable state of its source revision. */
  lemma PrepareKeeps(codec: Codec, s: Shared, i: nat, phase: Phase, step: Step)
    requires SharedOk(s) && PhaseOk(codec, s, i, phase) && IsPrepare(step)
    ensures PhaseOk(codec, s, i, PrepareStep(codec, s, phase, step))
  {
    hide Owned, Carried, NoFile, HasSecrets, FoldDistinct, Durable, PayloadOf, FilesComplete, Covered, SharedOk;
    hide ReadStep, SeenCurrent;
    if phase.Opened? {
      NothingCurrent(s);
    } else if phase.Reading? {
      CheckedIsFaithful(codec, s, phase.kind, phase.source, phase.seen);
      ReadStepKeeps(s, phase.source, phase.seen, step);
    }
  }

  lemma NothingCurrent(s: Shared)
    ensures SeenCurrent(s, NOTHING)
  {
  }

  lemma CheckedIsFaithful(codec: Codec, s: Shared, kind: Kind, source: nat, seen: Seen)
    requires SharedOk(s) && ReadOk(s, source, seen)
    ensures
      (s.revision == source && Covered(s.schema, seen) && FilesComplete(codec, kind, seen)) ==>
        Faithful(s, Archive(kind, source, PayloadOf(kind, seen.read)))
  {
    hide Owned, Carried, FoldDistinct;
    if s.revision == source && Covered(s.schema, seen) && FilesComplete(codec, kind, seen) {
      CoveredIsWhole(s, seen);
      OwnedCarried(kind, s.tables);
      assert OwnedFiles(Carried(kind, s.tables), seen.read.files)
        == OwnedFiles(Carried(kind, s.tables), OwnedFiles(s.tables, s.files));
    }
  }

  /** A reader that has every row it listed, while the revision stood still, has them all. */
  lemma CoveredIsWhole(s: Shared, seen: Seen)
    requires s.tables.Keys == s.schema && SeenCurrent(s, seen) && Covered(s.schema, seen)
    ensures seen.read.tables == s.tables && seen.read.inventory == s.inventory
  {
    hide Owned, Part;
    forall t | t in s.tables ensures seen.read.tables[t] == s.tables[t] {
      PartWhole(seen.read.tables[t], s.tables[t]);
    }
    PartWhole(seen.read.inventory, s.inventory);
  }

  lemma InventoryKept(codec: Codec, s: Shared, t: Shared, actor: Holder)
    requires InventoryOk(codec, s) && Evolves(s, t, actor) && t.inventory == s.inventory
    requires forall id :: id in s.inventory && id in s.linked ==> id in t.linked && t.linked[id] == s.linked[id]
    ensures InventoryOk(codec, t)
  {
    hide Evolves, Faithful;
    forall id | id in t.inventory ensures Registered(codec, t, id) {
      assert Registered(codec, s, id);
      RegisteredKept(codec, s, t, actor, id);
    }
  }

  lemma LinkKeeps(codec: Codec, s: Shared, i: nat, output: Path, a: Archive)
    requires SharedOk(s) && InventoryOk(codec, s) && Unregistered(s, i) && output !in s.outputs && Faithful(s, a)
    ensures
      var t := s.(outputs := s.outputs[output := Linked(i, a)], linked := s.linked[i := a]);
      SharedOk(t) && Evolves(s, t, Backup(i)) && InventoryOk(codec, t) && Owns(t, i, output, a)
  {
    hide Owned, InventoryOk;
    var t := s.(outputs := s.outputs[output := Linked(i, a)], linked := s.linked[i := a]);
    InventoryKept(codec, s, t, Backup(i));
  }

  lemma UnlinkKeeps(codec: Codec, s: Shared, i: nat, output: Path, a: Archive)
    requires SharedOk(s) && InventoryOk(codec, s) && Owns(s, i, output, a)
    ensures
      var t := s.(outputs := s.outputs - {output});
      SharedOk(t) && Evolves(s, t, Backup(i)) && InventoryOk(codec, t) && NoFile(t, i)
  {
    hide Owned, InventoryOk;
    var t := s.(outputs := s.outputs - {output});
    InventoryKept(codec, s, t, Backup(i));
  }

  lemma LockKeeps(codec: Codec, s: Shared, i: nat, lock: Option<Holder>)
    requires SharedOk(s) && InventoryOk(codec, s)
    requires
      || lock == s.lock
      || ((s.lock == None || s.lock == Some(Backup(i))) && (lock == None || lock == Some(Backup(i))))
    ensures
      var t := s.(lock := lock);
      SharedOk(t) && Evolves(s, t, Backup(i)) && InventoryOk(codec, t)
  {
    hide Owned, InventoryOk;
    InventoryKept(codec, s, s.(lock := lock), Backup(i));
  }

  lemma EventOwnsNothing(tables: Tables, event: string)
    requires AUDIT in tables && event !in tables[AUDIT]
    ensures Owned(WithEvent(tables, event)) == Owned(tables) && WithEvent(tables, event).Keys == tables.Keys
  {
    var more := WithEvent(tables, event);
    forall p ensures p in Owned(more) <==> p in Owned(tables) {
      if p in Owned(more) {
        var t, k :| t in more && k in more[t] && more[t][k].path == Some(p);
        assert t in tables && k in tables[t] && tables[t][k] == more[t][k];
      }
      if p in Owned(tables) {
        var t, k :| t in tables && k in tables[t] && tables[t][k].path == Some(p);
        assert t in more && k in more[t] && more[t][k] == tables[t][k];
      }
    }
  }

  /** The registering commit: the revision goes from the source to the next one, and the new
      record and its audit row are all that distinguishes the two states. */
  lemma CommitKeeps(codec: Codec, s: Shared, i: nat, output: Path, a: Archive, event: string)
    requires SharedOk(s) && InventoryOk(codec, s) && i !in s.inventory && Owns(s, i, output, a)
    requires s.lock == Some(Backup(i)) && s.revision == a.source
    requires AUDIT in s.tables && event !in s.tables[AUDIT]
    ensures
      var inventory := s.inventory[i := Record(codec, output, a)];
      var t := CommitState(s, s.revision + 1, WithEvent(s.tables, event), inventory);
      && SharedOk(t) && Evolves(s, t, Backup(i)) && InventoryOk(codec, t) && Owns(t, i, output, a)
      && Follows(t.history[a.source], t.history[a.source + 1], i, t.inventory[i], event)
  {
    hide Owned, WithEvent, InventoryOk, Registered, Faithful;
    var inventory := s.inventory[i := Record(codec, output, a)];
    var t := CommitState(s, s.revision + 1, WithEvent(s.tables, event), inventory);
    EventOwnsNothing(s.tables, event);
    CommitEvolves(s, Backup(i), s.revision + 1, WithEvent(s.tables, event), inventory);
    FaithfulKept(s, t, Backup(i), a);
    CommitRegisters(codec, s, t, i, output, a, event);
  }

  lemma CommitRegisters(codec: Codec, s: Shared, t: Shared, i: nat, output: Path, a: Archive, event: string)
    requires InventoryOk(codec, s) && Evolves(s, t, Backup(i)) && Owns(s, i, output, a) && Faithful(t, a)
    requires t.inventory == s.inventory[i := Record(codec, output, a)] && t.linked == s.linked
    requires a.source in t.history && a.source + 1 in t.history
    requires Follows(t.history[a.source], t.history[a.source + 1], i, t.inventory[i], event)
    requires i !in s.inventory
    ensures InventoryOk(codec, t)
  {
    hide Evolves, Faithful, Follows;
    forall id | id in t.inventory ensures Registered(codec, t, id) {
      if id != i {
        assert Registered(codec, s, id);
        RegisteredKept(codec, s, t, Backup(i), id);
      }
    }
  }

  /** What one publishing step must establish. */
  ghost predicate PublishOk(codec: Codec, s: Shared, i: nat, t: Shared, next: Phase)
  {
    && SharedOk(t) && Evolves(s, t, Backup(i)) && InventoryOk(codec, t) && PhaseOk(codec, t, i, next)
    && t.inventory.Keys <= s.inventory.Keys + {i}
    && (t.lock == s.lock || (t.lock.Some? ==> t.lock == Some(Backup(i))))
  }

  /** Publication by link, the transaction and the withdrawal. */
  lemma PublishKeeps(codec: Codec, s: Shared, i: nat, phase: Phase, step: Step)
    requires SharedOk(s) && InventoryOk(codec, s) && PhaseOk(codec, s, i, phase) && IsPublish(step) && step.id == i
    ensures var (t, next) := PublishStep(codec, s, phase, step); PublishOk(codec, s, i, t, next)
  {
    hide PublishOk, SharedOk, InventoryOk, PublishStep, Unregistered, Owns, Faithful, ReadOk, Record;
    if step.Link? && phase.Ready? && phase.output !in s.outputs && codec.accepts(phase.archive) {
      LinkStep(codec, s, i, phase.output, phase.archive);
      LinkPublishes(codec, s, i, phase.output, phase.archive);
    } else if step.Commit? && phase.Compared? && AUDIT in s.tables && step.event !in s.tables[AUDIT] {
      CommitStep(codec, s, i, phase.output, phase.archive, step.event);
      CommitPublishes(codec, s, i, phase.output, phase.archive, step.event);
    } else if step.Unlink? && phase.Withdrawing? {
      UnlinkPublishes(codec, s, i, phase, step);
    } else if step.Settle? && phase.Committed? {
      SettlePublishes(codec, s, i, phase, step);
    } else {
      OthersPublish(codec, s, i, phase, step);
    }
  }

  lemma LinkPublishes(codec: Codec, s: Shared, i: nat, output: Path, a: Archive)
    requires SharedOk(s) && InventoryOk(codec, s) && PhaseOk(codec, s, i, Ready(output, a)) && output !in s.outputs
    ensures
      var t := s.(outputs := s.outputs[output := Linked(i, a)], linked := s.linked[i := a]);
      PublishOk(codec, s, i, t, Posted(output, a))
  {
    hide Owned, Durable, Evolves, SharedOk, InventoryOk, Owns, Faithful, NoFile;
    LinkKeeps(codec, s, i, output, a);
  }

  lemma CommitPublishes(codec: Codec, s: Shared, i: nat, output: Path, a: Archive, event: string)
    requires SharedOk(s) && InventoryOk(codec, s) && PhaseOk(codec, s, i, Compared(output, a))
    requires AUDIT in s.tables && event !in s.tables[AUDIT]
    ensures
      var inventory := s.inventory[i := Record(codec, output, a)];
      var t := CommitState(s, s.revision + 1, WithEvent(s.tables, event), inventory);
      PublishOk(codec, s, i, t, Committed(output, a))
  {
    hide Owned, Durable, Evolves, SharedOk, InventoryOk, CommitState, Owns, Faithful, WithEvent, Follows, Record;
    CommitKeeps(codec, s, i, output, a, event);
    CommitFields(s, s.revision + 1, WithEvent(s.tables, event), s.inventory[i := Record(codec, output, a)]);
  }

  lemma UnlinkPublishes(codec: Codec, s: Shared, i: nat, phase: Phase, step: Step)
    requires SharedOk(s) && InventoryOk(codec, s) && PhaseOk(codec, s, i, phase)
    requires step == Unlink(i) && phase.Withdrawing?
    ensures var (t, next) := PublishStep(codec, s, phase, step); PublishOk(codec, s, i, t, next)
  {
    hide Owned, Durable, Evolves, SharedOk, InventoryOk, CommitState, Owns, Faithful, NoFile, WithEvent;
    UnlinkKeeps(codec, s, i, phase.output, phase.archive);
  }

  lemma SettlePublishes(codec: Codec, s: Shared, i: nat, phase: Phase, step: Step)
    requires SharedOk(s) && InventoryOk(codec, s) && PhaseOk(codec, s, i, phase)
    requires step == Settle(i) && phase.Committed?
    ensures var (t, next) := PublishStep(codec, s, phase, step); PublishOk(codec, s, i, t, next)
  {
    hide Owned, Durable, Evolves, SharedOk, InventoryOk, CommitState, Faithful, NoFile, WithEvent, Record;
    var (t, next) := PublishStep(codec, s, phase, step);
    var revision := t.synced;
    assert t == s.(synced := revision);
    if next.Returning? { SyncKeeps(s, Backup(i), revision); } else { LockKeeps(codec, s, i, s.lock); }
    InventoryKept(codec, s, t, Backup(i));
    OwnsElsewhere(s, t, i, phase.output, phase.archive);
  }

  lemma OthersPublish(codec: Codec, s: Shared, i: nat, phase: Phase, step: Step)
    requires SharedOk(s) && InventoryOk(codec, s) && PhaseOk(codec, s, i, phase) && IsPublish(step) && step.id == i
    requires !(step.Link? && phase.Ready? && phase.output !in s.outputs && codec.accepts(phase.archive))
    requires !(step.Commit? && phase.Compared? && AUDIT in s.tables && step.event !in s.tables[AUDIT])
    requires !(step.Unlink? && phase.Withdrawing?) && !(step.Settle? && phase.Committed?)
    ensures var (t, next) := PublishStep(codec, s, phase, step); PublishOk(codec, s, i, t, next)
  {
    hide Owned, Durable, Evolves, SharedOk, InventoryOk, CommitState, Owns, Faithful, NoFile, WithEvent, Record;
    var (t, next) := PublishStep(codec, s, phase, step);
    assert t == s.(lock := t.lock);
    LockKeeps(codec, s, i, t.lock);
    if !phase.Opened? && !phase.Reading? && !phase.Ready? && !phase.Raised? && !phase.RaisedLate? {
      OwnsElsewhere(s, t, i, phase.output, phase.archive);
    }
  }

  /** Only the call itself adds its files. */
  lemma PublishersKnown(codec: Codec, s: Shared, i: nat, phase: Phase, step: Step)
    requires IsPublish(step) && step.id == i
    ensures
      var t := PublishStep(codec, s, phase, step).0;
      forall p :: p in t.outputs && t.outputs[p].Linked? ==>
        t.outputs[p].publisher == i || (p in s.outputs && s.outputs[p] == t.outputs[p])
  {
    hide Durable, WithEvent;
  }

  /** Ownership and absence of files do not depend on lock and identity. */
  lemma OwnsElsewhere(s: Shared, t: Shared, i: nat, output: Path, a: Archive)
    requires t.outputs == s.outputs && t.linked == s.linked && t.history == s.history
    ensures Owns(s, i, output, a) <==> Owns(t, i, output, a)
  {
  }

  // ----- whole runs ------------------------------------------------------------------------------

  lemma OthersKept(codec: Codec, st: State, t: Shared, actor: Holder)
    requires BackupsOk(codec, st) && Evolves(st.shared, t, actor)
    ensures forall j :: j in st.backups && actor != Backup(j) ==> PhaseOk(codec, t, j, st.backups[j])
  {
    hide Evolves, PhaseOk;
    forall j | j in st.backups && actor != Backup(j) ensures PhaseOk(codec, t, j, st.backups[j]) {
      OtherPhaseKept(codec, st.shared, t, actor, j, st.backups[j]);
    }
  }

  /** Every step of every process keeps the invariant. */
  lemma StepKeeps(codec: Codec, st: State, step: Step)
    requires Invariant(codec, st)
    ensures Invariant(codec, Apply(codec, st, step))
  {
    hide Evolves, PhaseOk, SharedOk, InventoryOk, PublishStep, PrepareStep, WriterStep, OutsiderStep;
    if step.Open? {
      if step.id !in st.backups { OpenKeeps(codec, st, step); }
    } else if IsPrepare(step) {
      if step.id in st.backups { PrepareKeeps(codec, st.shared, step.id, st.backups[step.id], step); }
    } else if IsPublish(step) {
      if step.id in st.backups {
        PublishKeeps(codec, st.shared, step.id, st.backups[step.id], step);
        PublishersKnown(codec, st.shared, step.id, st.backups[step.id], step);
        OthersKept(codec, st, PublishStep(codec, st.shared, st.backups[step.id], step).0, Backup(step.id));
      }
    } else if IsOutsider(step) {
      OutsiderKeeps(st.shared, step);
      OthersKept(codec, st, OutsiderStep(st.shared, step), Writer);
      InventoryKept(codec, st.shared, OutsiderStep(st.shared, step), Writer);
    } else {
      WriterKeeps(st.shared, step);
      OthersKept(codec, st, WriterStep(st.shared, step), Writer);
      InventoryKept(codec, st.shared, WriterStep(st.shared, step), Writer);
    }
  }

  lemma OpenKeeps(codec: Codec, st: State, step: Step)
    requires Invariant(codec, st) && step.Open? && step.id !in st.backups
    ensures PhaseOk(codec, st.shared, step.id, Apply(codec, st, step).backups[step.id])
  {
    hide SharedOk, InventoryOk;
  }

  lemma {:induction false} RunKeeps(codec: Codec, st: State, steps: seq<Step>)
    requires Invariant(codec, st)
    ensures Invariant(codec, Run(codec, st, steps))
    decreases |steps|
  {
    hide Invariant;
    if steps != [] {
      StepKeeps(codec, st, steps[0]);
      RunKeeps(codec, Apply(codec, st, steps[0]), steps[1..]);
    }
  }

  /** A workspace before any backup, with whatever files already lie at possible outputs. */
  ghost predicate Start(st: State)
  {
    var s := st.shared;
    && st.backups == map[] && s.inventory == map[] && s.linked == map[] && s.lock == None
    && s.tables.Keys == s.schema && AUDIT in s.schema && Owned(s.tables) <= s.files.Keys && s.synced <= s.revision
    && s.history == map[s.revision := Durable(s)]
    && (forall p :: p in s.outputs ==> s.outputs[p].Foreign?)
  }

  lemma StartInvariant(codec: Codec, st: State)
    requires Start(st)
    ensures Invariant(codec, st)
  {
    hide Owned;
  }

  lemma {:induction false} RunAppend(codec: Codec, st: State, a: seq<Step>, b: seq<Step>)
    ensures Run(codec, st, a + b) == Run(codec, Run(codec, st, a), b)
    decreases |a|
  {
    hide Apply;
    if a == [] {
      assert a + b == b;
    } else {
      assert (a + b)[0] == a[0] && (a + b)[1..] == a[1..] + b;
      RunAppend(codec, Apply(codec, st, a[0]), a[1..], b);
    }
  }

  lemma RunOne(codec: Codec, st: State, step: Step, rest: seq<Step>)
    ensures Run(codec, st, [step] + rest) == Run(codec, Apply(codec, st, step), rest)
  {
    hide Apply;
    assert ([step] + rest)[1..] == rest;
  }

  lemma LinkStep(codec: Codec, s: Shared, i: nat, output: Path, a: Archive)
    requires output !in s.outputs && codec.accepts(a)
    ensures PublishStep(codec, s, Ready(output, a), Link(i))
      == (s.(outputs := s.outputs[output := Linked(i, a)], linked := s.linked[i := a]), Posted(output, a))
  {
    hide CommitState, Record, WithEvent;
  }

  lemma CommitStep(codec: Codec, s: Shared, i: nat, output: Path, a: Archive, event: string)
    requires AUDIT in s.tables && event !in s.tables[AUDIT]
    ensures PublishStep(codec, s, Compared(output, a), Commit(i, event))
      == (CommitState(s, s.revision + 1, WithEvent(s.tables, event), s.inventory[i := Record(codec, output, a)]),
          Committed(output, a))
  {
    hide CommitState, Record, WithEvent;
  }
}
