/** The storage-tree measurement (scripts/run_imp_102_lite_install_storage_measurement.py):
    an explicit work list against recursive sums over the tree. */
module StorageTree {
  import opened Outcomes

  const MAX_TREE_ENTRIES := 250_000
  const MAX_TREE_LOGICAL_BYTES := 100 * 1024 * 1024 * 1024

  /** What lies at a path. `blocks` is the number of allocated blocks, if reported. A
      `Broken` entry is one whose inspection raises. */
  datatype Node =
    | File(size: nat, blocks: Option<int>)
    | Symlink
    | Other
    | Directory(children: seq<Node>)
    | Broken

  datatype Totals = Totals(
    entries: nat, files: nat, directories: nat, symlinks: nat, others: nat, logical: nat,
    blockBytes: nat, supported: bool)
  {
    function Add(o: Totals): Totals
    {
      Totals(entries + o.entries, files + o.files, directories + o.directories,
             symlinks + o.symlinks, others + o.others, logical + o.logical,
             blockBytes + o.blockBytes, supported && o.supported)
    }
  }

  const NOTHING := Totals(0, 0, 0, 0, 0, 0, 0, true)

  predicate BlocksReported(blocks: Option<int>) { blocks.Some? && blocks.value >= 0 }

  function FileTotals(size: nat, blocks: Option<int>): Totals
  {
    NOTHING.(files := 1, logical := size,
             blockBytes := if BlocksReported(blocks) then blocks.value * 512 else 0,
             supported := BlocksReported(blocks))
  }

  // ----- the recursive sums ---------------------------------------------------------------

  /** What a directory entry adds by itself. */
  function OwnTotals(n: Node): Totals
  {
    match n
    case File(size, blocks) => FileTotals(size, blocks).(entries := 1)
    case Symlink => NOTHING.(entries := 1, symlinks := 1)
    case Other => NOTHING.(entries := 1, others := 1)
    case Directory(cs) => NOTHING.(entries := 1, directories := 1)
    case Broken => NOTHING.(entries := 1)
  }

  /** One entry of a directory and everything below it. */
  function EntryTotals(n: Node): Totals
    decreases n, 1
  {
    match n
    case Directory(cs) => OwnTotals(n).Add(ChildTotals(cs))
    case _ => OwnTotals(n)
  }

  function ChildTotals(cs: seq<Node>): Totals
    decreases cs, 0
  {
    if cs == [] then NOTHING else EntryTotals(cs[0]).Add(ChildTotals(cs[1..]))
  }

  predicate Intact(n: Node)
  {
    match n
    case Directory(cs) => forall i :: 0 <= i < |cs| ==> Intact(cs[i])
    case Broken => false
    case _ => true
  }

  predicate AllIntact(cs: seq<Node>)
  {
    forall i :: 0 <= i < |cs| ==> Intact(cs[i])
  }

  // ----- the work list ---------------------------------------------------------------------------

  predicate AllDirectories(pending: seq<Node>)
  {
    forall i :: 0 <= i < |pending| ==> pending[i].Directory?
  }

  /** What the directories on the work list still hold. */
  ghost function PendingTotals(pending: seq<Node>): Totals
    requires AllDirectories(pending)
  {
    if pending == [] then NOTHING
    else PendingTotals(pending[..|pending| - 1]).Add(ChildTotals(pending[|pending| - 1].children))
  }

  lemma PendingSnoc(pending: seq<Node>, d: Node)
    requires AllDirectories(pending) && d.Directory?
    ensures AllDirectories(pending + [d])
    ensures PendingTotals(pending + [d]) == PendingTotals(pending).Add(ChildTotals(d.children))
  {
    assert (pending + [d])[..|pending|] == pending;
  }

  lemma AddLaws(a: Totals, b: Totals, c: Totals)
    ensures a.Add(b).Add(c) == a.Add(b.Add(c)) && a.Add(b) == b.Add(a)
    ensures a.Add(NOTHING) == a
  {
  }

  datatype MeasureError = RootUnavailable | Unreadable | EntryLimit | ByteLimit | NoBytes

  /** The part of the measurement that is checked while counting. */
  ghost predicate WithinLimits(t: Totals)
  {
    t.entries <= MAX_TREE_ENTRIES && (t.files > 0 ==> t.logical <= MAX_TREE_LOGICAL_BYTES)
  }

  /** Count one entry. */
  method CountEntry(start: Totals, entry: Node) returns (r: Result<Totals, MeasureError>)
    requires WithinLimits(start)
    ensures r.Ok? <==> !entry.Broken? && WithinLimits(start.Add(OwnTotals(entry)))
    ensures r.Ok? ==> r.value == start.Add(OwnTotals(entry))
  {
    var total := start.(entries := start.entries + 1);
    if total.entries > MAX_TREE_ENTRIES { return Err(EntryLimit); }
    match entry
    case Symlink => return Ok(total.(symlinks := total.symlinks + 1));
    case Directory(cs) => return Ok(total.(directories := total.directories + 1));
    case File(size, blocks) =>
      total := total.(files := total.files + 1, logical := total.logical + size);
      if BlocksReported(blocks) {
        total := total.(blockBytes := total.blockBytes + blocks.value * 512);
      } else {
        total := total.(supported := false);
      }
      if total.logical > MAX_TREE_LOGICAL_BYTES { return Err(ByteLimit); }
      return Ok(total);
    case Other => return Ok(total.(others := total.others + 1));
    case Broken => return Err(Unreadable);
  }

  /** One scanned directory: the running totals take in its entries one by one, and its
      subdirectories are handed back to be put on the work list. */
  method ScanDirectory(children: seq<Node>, start: Totals) returns (r: Result<(Totals, seq<Node>), MeasureError>)
    requires WithinLimits(start)
    ensures r.Ok? ==>
      var (total, found) := r.value;
      && AllDirectories(found) && WithinLimits(total)
      && total.Add(PendingTotals(found)) == start.Add(ChildTotals(children))
      && total.directories == start.directories + |found|
      && (AllIntact(found) <==> AllIntact(children))
    ensures r.Err? ==> !AllIntact(children) || !WithinLimits(start.Add(ChildTotals(children)))
  {
    hide PendingTotals, ChildTotals, AllIntact, AllDirectories, WithinLimits, OwnTotals, Intact, Totals.Add;
    var total, found: seq<Node> := start, [];
    assert children[0..] == children;
    NothingPending();
    AddLaws(start.Add(ChildTotals(children)), NOTHING, NOTHING);
    for i := 0 to |children|
      invariant AllDirectories(found) && WithinLimits(total)
      invariant total.Add(ChildTotals(children[i..])).Add(PendingTotals(found)) == start.Add(ChildTotals(children))
      invariant total.directories == start.directories + |found|
      invariant AllIntact(found) <==> AllIntact(children[..i])
    {
      var entry := children[i];
      assert children[..i + 1] == children[..i] + [entry];
      IntactSnoc(children[..i], entry);
      ScanStep(children, i, total, found);
      var counted := CountEntry(total, entry);
      if counted.Err? {
        if entry.Broken? { BrokenChild(children, i); }
        return Err(counted.error);
      }
      total := counted.value;
      if entry.Directory? {
        PendingSnoc(found, entry);
        IntactSnoc(found, entry);
        found := found + [entry];
      }
    }
    assert children[|children|..] == [] && children[..|children|] == children;
    AddLaws(total, NOTHING, PendingTotals(found));
    r := Ok((total, found));
  }

  /** The equation behind one round of the scan. */
  lemma ScanStep(children: seq<Node>, i: nat, total: Totals, found: seq<Node>)
    requires i < |children| && AllDirectories(found)
    ensures
      var entry := children[i];
      var whole := total.Add(ChildTotals(children[i..])).Add(PendingTotals(found));
      var now := total.Add(OwnTotals(entry));
      && (WithinLimits(whole) ==> WithinLimits(now))
      && (entry.Directory? ==>
            && now.directories == total.directories + 1
            && AllDirectories(found + [entry])
            && now.Add(ChildTotals(children[i + 1..])).Add(PendingTotals(found + [entry])) == whole)
      && (!entry.Directory? ==>
            && now.directories == total.directories
            && now.Add(ChildTotals(children[i + 1..])).Add(PendingTotals(found)) == whole)
      && (Intact(entry) <==> !entry.Broken? && (entry.Directory? ==> AllIntact(entry.children)))
  {
    hide PendingTotals, ChildTotals, AllDirectories;
    var entry := children[i];
    ChildTotalsStep(children, i);
    if entry.Directory? { PendingSnoc(found, entry); }
  }

  lemma NothingPending()
    ensures PendingTotals([]) == NOTHING && ChildTotals([]) == NOTHING && AllIntact([]) && AllDirectories([])
  {
  }

  lemma BrokenChild(children: seq<Node>, i: nat)
    requires i < |children| && children[i].Broken?
    ensures !AllIntact(children)
  {
  }

  lemma ChildTotalsStep(children: seq<Node>, i: nat)
    requires i < |children|
    ensures ChildTotals(children[i..]) == EntryTotals(children[i]).Add(ChildTotals(children[i + 1..]))
  {
    assert children[i..][1..] == children[i + 1..];
  }

  lemma IntactSnoc(pending: seq<Node>, d: Node)
    ensures AllIntact(pending + [d]) <==> AllIntact(pending) && Intact(d)
  {
    var more := pending + [d];
    assert more[|pending|] == d && forall i :: 0 <= i < |pending| ==> more[i] == pending[i];
  }

  // ----- the whole measurement ---------------------------------------------------------------------

  /** What the measurement reports. */
  datatype Measurement = Measurement(
    files: nat, directories: nat, symlinks: nat, others: nat, logical: nat, blockBytes: Option<nat>)

  function Report(t: Totals): Measurement
  {
    Measurement(t.files, t.directories, t.symlinks, t.others, t.logical,
                if t.supported then Some(t.blockBytes) else None)
  }

  /** The recursive sums over the tree below `root`, the root directory itself included. */
  function TreeTotals(root: Node): Totals
  {
    match root
    case File(size, blocks) => FileTotals(size, blocks)
    case Directory(cs) => NOTHING.(directories := 1).Add(ChildTotals(cs))
    case _ => NOTHING
  }

  /** The trees that can be measured: the limits bind only below a directory. */
  ghost predicate Measurable(root: Node)
  {
    && (root.File? || (root.Directory? && AllIntact(root.children) && WithinLimits(TreeTotals(root))))
    && TreeTotals(root).files > 0 && TreeTotals(root).logical > 0
  }

  lemma PendingAppend(rest: seq<Node>, found: seq<Node>)
    requires AllDirectories(rest) && AllDirectories(found)
    ensures AllDirectories(rest + found)
    ensures PendingTotals(rest + found) == PendingTotals(rest).Add(PendingTotals(found))
  {
    hide PendingTotals, ChildTotals;
    if found == [] {
      assert rest + found == rest;
      NothingPending();
    } else {
      var k := |found| - 1;
      PendingAppend(rest, found[..k]);
      PendingPop(found);
      assert rest + found == (rest + found[..k]) + [found[k]];
      PendingSnoc(rest + found[..k], found[k]);
    }
  }

  lemma IntactAppend(rest: seq<Node>, found: seq<Node>)
    ensures AllIntact(rest + found) <==> AllIntact(rest) && AllIntact(found)
  {
    var all := rest + found;
    assert forall i :: 0 <= i < |found| ==> found[i] == all[|rest| + i];
    assert forall i :: 0 <= i < |rest| ==> rest[i] == all[i];
  }

  /** Taking the last directory off the work list. */
  lemma PendingPop(pending: seq<Node>)
    requires AllDirectories(pending) && pending != []
    ensures
      var k := |pending| - 1;
      && pending[k].Directory? && AllDirectories(pending[..k])
      && PendingTotals(pending) == PendingTotals(pending[..k]).Add(ChildTotals(pending[k].children))
      && (AllIntact(pending) <==> AllIntact(pending[..k]) && AllIntact(pending[k].children))
  {
    hide ChildTotals, AllIntact, Intact;
    var k := |pending| - 1;
    assert pending == pending[..k] + [pending[k]];
    IntactSnoc(pending[..k], pending[k]);
    IntactDirectory(pending[k]);
  }

  lemma IntactDirectory(d: Node)
    requires d.Directory?
    ensures Intact(d) <==> AllIntact(d.children)
  {
  }

  /** How much scanning is left. */
  ghost function Remaining(pending: seq<Node>): nat
    requires AllDirectories(pending)
  {
    PendingTotals(pending).directories + |pending|
  }

  lemma RootAlone(root: Node)
    requires root.Directory?
    ensures AllDirectories([root]) && PendingTotals([root]) == ChildTotals(root.children)
    ensures AllIntact([root]) <==> AllIntact(root.children)
  {
    hide PendingTotals, ChildTotals, AllIntact;
    assert [root] == [] + [root];
    NothingPending();
    PendingSnoc([], root);
    IntactSnoc([], root);
    IntactDirectory(root);
  }

  /** One round of the work list keeps what is owed: the totals so far and the totals still
      pending always make up the whole tree, and there is one directory less to scan. */
  lemma RoundKeeps(total: Totals, pending: seq<Node>, next: Totals, found: seq<Node>)
    requires AllDirectories(pending) && pending != [] && AllDirectories(found)
    requires next.Add(PendingTotals(found)) == total.Add(ChildTotals(pending[|pending| - 1].children))
    requires next.directories == total.directories + |found|
    requires AllIntact(found) <==> AllIntact(pending[|pending| - 1].children)
    ensures
      var now := pending[..|pending| - 1] + found;
      && AllDirectories(now)
      && next.Add(PendingTotals(now)) == total.Add(PendingTotals(pending))
      && (AllIntact(now) <==> AllIntact(pending))
      && Remaining(now) < Remaining(pending)
  {
    hide PendingTotals, ChildTotals, AllIntact, AllDirectories;
    PendingPop(pending);
    PendingAppend(pending[..|pending| - 1], found);
    IntactAppend(pending[..|pending| - 1], found);
  }

  /** The scan below a directory root, with an explicit work list used as a stack. */
  method MeasureDirectory(root: Node) returns (r: Result<Totals, MeasureError>)
    requires root.Directory?
    ensures r.Ok? <==> AllIntact(root.children) && WithinLimits(TreeTotals(root))
    ensures r.Ok? ==> r.value == TreeTotals(root)
  {
    hide PendingTotals, ChildTotals, AllIntact, AllDirectories, WithinLimits, Totals.Add, Remaining;
    var total, pending := NOTHING.(directories := 1), [root];
    assert WithinLimits(total) by { StartWithin(); }
    RootAlone(root);
    while pending != []
      invariant AllDirectories(pending) && WithinLimits(total)
      invariant total.Add(PendingTotals(pending)) == TreeTotals(root)
      invariant AllIntact(pending) <==> AllIntact(root.children)
      decreases Remaining(pending)
    {
      ghost var before := pending;
      PendingPop(pending);
      var current := pending[|pending| - 1];
      pending := pending[..|pending| - 1];
      var scanned := ScanDirectory(current.children, total);
      if scanned.Err? {
        LimitsPart(total, PendingTotals(pending), ChildTotals(current.children));
        return Err(scanned.error);
      }
      var (next, found) := scanned.value;
      RoundKeeps(total, before, next, found);
      total, pending := next, pending + found;
    }
    NothingPending();
    AddLaws(total, NOTHING, NOTHING);
    r := Ok(total);
  }

  lemma StartWithin()
    ensures WithinLimits(NOTHING.(directories := 1))
  {
  }

  lemma LimitsPart(a: Totals, b: Totals, c: Totals)
    ensures WithinLimits(a.Add(b.Add(c))) ==> WithinLimits(a.Add(c))
  {
  }

  /** In a tree that was read completely every entry is a file, a link, something else or a
      directory. */
  lemma {:induction false} EntriesAccounted(cs: seq<Node>)
    requires AllIntact(cs)
    ensures var t := ChildTotals(cs); t.entries == t.files + t.symlinks + t.others + t.directories
    decreases cs
  {
    if cs != [] {
      if cs[0].Directory? { EntriesAccounted(cs[0].children); }
      EntriesAccounted(cs[1..]);
    }
  }

  /** The measurement of what lies at a path, `None` when nothing does. */
  method MeasureTree(root: Option<Node>) returns (r: Result<Measurement, MeasureError>)
    ensures r.Ok? <==> root.Some? && Measurable(root.value)
    ensures r.Ok? ==> r.value == Report(TreeTotals(root.value))
    ensures r.Ok? && root.value.Directory? ==>
      && r.value.directories >= 1
      && r.value.files + r.value.symlinks + r.value.others + (r.value.directories - 1)
         == ChildTotals(root.value.children).entries <= MAX_TREE_ENTRIES
  {
    hide ChildTotals, AllIntact;
    if root.None? || root.value.Symlink? { return Err(RootUnavailable); }
    var total: Totals;
    match root.value {
      case File(size, blocks) => total := FileTotals(size, blocks);
      case Directory(cs) =>
        var measured := MeasureDirectory(root.value);
        if measured.Err? { return Err(measured.error); }
        total := measured.value;
        EntriesAccounted(cs);
      case _ => return Err(Unreadable);
    }
    if total.files <= 0 || total.logical <= 0 { return Err(NoBytes); }
    r := Ok(Report(total));
  }
}
