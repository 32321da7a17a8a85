/** The process-tree sample of the runtime measurement
    (scripts/run_imp_098_local_runtime_resource_measurement.py): grow a set until nothing
    changes, then add up the memory of its members. */
module ProcessTree {
  import opened Outcomes

  /** One line of `ps` with three numeric fields; other lines are skipped. */
  datatype Row = Row(pid: nat, parent: nat, rssKib: nat)
  datatype Process = Process(parent: nat, rssKib: nat)
  type Table = map<nat, Process>

  datatype SampleError = ListenerVanished | MemoryUnavailable

  /** A later line replaces an earlier one; process 0 is ignored. */
  function TableOf(rows: seq<Row>): Table
  {
    if rows == [] then map[]
    else
      var front, last := TableOf(rows[..|rows| - 1]), rows[|rows| - 1];
      if last.pid > 0 then front[last.pid := Process(last.parent, last.rssKib)] else front
  }

  /** No later line is about the same process. */
  predicate LastOfItsProcess(rows: seq<Row>, i: nat)
  {
    i < |rows| && rows[i].pid > 0 && forall j :: i < j < |rows| ==> rows[j].pid != rows[i].pid
  }

  /** Each process has the entry of its last line. */
  lemma {:induction false} LastRowWins(rows: seq<Row>, i: nat)
    requires LastOfItsProcess(rows, i)
    ensures rows[i].pid in TableOf(rows) && TableOf(rows)[rows[i].pid] == Process(rows[i].parent, rows[i].rssKib)
  {
    var k := |rows| - 1;
    if i < k {
      assert forall j :: 0 <= j < k ==> rows[..k][j] == rows[j];
      LastRowWins(rows[..k], i);
      assert rows[k].pid != rows[i].pid;
    }
  }

  /** Each process of the table has a last line. */
  lemma {:induction false} TableHasRow(rows: seq<Row>, pid: nat) returns (i: nat)
    requires pid in TableOf(rows)
    ensures LastOfItsProcess(rows, i) && rows[i].pid == pid
  {
    var k := |rows| - 1;
    if rows[k].pid == pid && pid > 0 {
      i := k;
    } else {
      i := TableHasRow(rows[..k], pid);
      assert forall j :: 0 <= j < k ==> rows[..k][j] == rows[j];
    }
  }

  /** The table of the processes listed, each with the parent and memory of its last line. */
  method FillTable(rows: seq<Row>) returns (table: Table)
    ensures table == TableOf(rows)
    ensures forall i: nat :: LastOfItsProcess(rows, i) ==>
      rows[i].pid in table && table[rows[i].pid] == Process(rows[i].parent, rows[i].rssKib)
    ensures forall pid :: pid in table ==> exists i: nat :: LastOfItsProcess(rows, i) && rows[i].pid == pid
  {
    table := map[];
    for i := 0 to |rows|
      invariant table == TableOf(rows[..i])
    {
      assert rows[..i + 1][..i] == rows[..i];
      var row := rows[i];
      if row.pid > 0 {
        table := table[row.pid := Process(row.parent, row.rssKib)];
      }
    }
    assert rows[..|rows|] == rows;
    forall i: nat | LastOfItsProcess(rows, i)
      ensures rows[i].pid in table && table[rows[i].pid] == Process(rows[i].parent, rows[i].rssKib)
    {
      LastRowWins(rows, i);
    }
    forall pid | pid in table ensures exists i: nat :: LastOfItsProcess(rows, i) && rows[i].pid == pid {
      var i := TableHasRow(rows, pid);
    }
  }

  // ----- descendants --------------------------------------------------------------------

  /** The process `k` parents above `pid`, while the chain stays in the table. */
  ghost function Climb(table: Table, pid: nat, k: nat): Option<nat>
    decreases k
  {
    if pid !in table then None
    else if k == 0 then Some(pid)
    else Climb(table, table[pid].parent, k - 1)
  }

  /** The parent chain of `pid` reaches `root`. */
  ghost predicate Reaches(table: Table, pid: nat, root: nat)
  {
    exists k: nat :: Climb(table, pid, k) == Some(root)
  }

  ghost function Descendants(table: Table, root: nat): set<nat>
  {
    set pid | pid in table && Reaches(table, pid, root)
  }

  lemma ChildReaches(table: Table, pid: nat, root: nat)
    requires pid in table && Reaches(table, table[pid].parent, root)
    ensures Reaches(table, pid, root)
  {
    var k: nat :| Climb(table, table[pid].parent, k) == Some(root);
    assert Climb(table, pid, k + 1) == Some(root);
  }

  ghost predicate ClosedDown(table: Table, selected: set<nat>)
  {
    forall pid :: pid in table && table[pid].parent in selected ==> pid in selected
  }

  lemma {:induction false} ClosedHoldsChain(table: Table, selected: set<nat>, pid: nat, root: nat, k: nat)
    requires ClosedDown(table, selected) && root in selected && Climb(table, pid, k) == Some(root)
    ensures pid in selected
    decreases k
  {
    if k > 0 {
      ClosedHoldsChain(table, selected, table[pid].parent, root, k - 1);
    }
  }

  /** The repeat-until-unchanged loop ends on every table, cyclic ones included, with
      exactly the processes whose parent chain reaches the root. `order` is the order in
      which the table yields its processes. */
  method SelectDescendants(table: Table, root: nat, order: seq<nat>) returns (selected: set<nat>)
    requires root in table
    requires forall pid :: pid in order <==> pid in table
    ensures selected == Descendants(table, root)
  {
    selected := {root};
    assert Climb(table, root, 0) == Some(root);
    var changed := true;
    while changed
      invariant root in selected && selected <= Descendants(table, root)
      invariant !changed ==> ClosedDown(table, selected)
      decreases |table.Keys - selected|, changed
    {
      changed := false;
      ghost var before := selected;
      for i := 0 to |order|
        invariant before <= selected <= Descendants(table, root)
        invariant changed <==> selected != before
        invariant !changed ==> forall j :: 0 <= j < i && table[order[j]].parent in selected ==> order[j] in selected
      {
        var pid := order[i];
        if pid !in selected && table[pid].parent in selected {
          ChildReaches(table, pid, root);
          selected := selected + {pid};
          changed := true;
        }
      }
      if changed {
        FewerLeft(table.Keys, before, selected);
      }
    }
    forall pid | pid in Descendants(table, root) ensures pid in selected {
      var k: nat :| Climb(table, pid, k) == Some(root);
      ClosedHoldsChain(table, selected, pid, root, k);
    }
  }

  lemma FewerLeft(all: set<nat>, before: set<nat>, after: set<nat>)
    requires before < after <= all
    ensures |all - after| < |all - before|
  {
    var x :| x in after && x !in before;
    assert all - after <= (all - before) - {x};
    SubsetSize(all - after, (all - before) - {x});
  }

  lemma {:induction false} SubsetSize(a: set<nat>, b: set<nat>)
    requires a <= b
    ensures |a| <= |b|
  {
    if a != {} {
      var x :| x in a;
      SubsetSize(a - {x}, b - {x});
    }
  }

  // ----- memory -------------------------------------------------------------------------------

  /** Memory of a set of processes, each counted once. */
  ghost function TotalKib(table: Table, pids: set<nat>): nat
    requires pids <= table.Keys
  {
    if pids == {} then 0
    else
      var pid :| pid in pids;
      table[pid].rssKib + TotalKib(table, pids - {pid})
  }

  lemma {:induction false} TotalKibExtract(table: Table, pids: set<nat>, pid: nat)
    requires pids <= table.Keys && pid in pids
    ensures TotalKib(table, pids) == table[pid].rssKib + TotalKib(table, pids - {pid})
  {
    var chosen :| chosen in pids && TotalKib(table, pids) == table[chosen].rssKib + TotalKib(table, pids - {chosen});
    if chosen != pid {
      TotalKibExtract(table, pids - {chosen}, pid);
      TotalKibExtract(table, pids - {pid}, chosen);
      assert pids - {chosen} - {pid} == pids - {pid} - {chosen};
    }
  }

  method SumBytes(table: Table, pids: set<nat>) returns (bytes: nat)
    requires pids <= table.Keys
    ensures bytes == 1024 * TotalKib(table, pids)
  {
    bytes := 0;
    var left := pids;
    while left != {}
      invariant left <= pids
      invariant bytes + 1024 * TotalKib(table, left) == 1024 * TotalKib(table, pids)
      decreases |left|
    {
      var pid :| pid in left;
      TotalKibExtract(table, left, pid);
      bytes := bytes + table[pid].rssKib * 1024;
      left := left - {pid};
    }
  }

  /** The sample: memory in bytes and number of the root's descendants, itself included. */
  method RuntimeTreeSample(rows: seq<Row>, root: nat, order: seq<nat>) returns (r: Result<(nat, nat), SampleError>)
    requires forall pid :: pid in order <==> pid in TableOf(rows)
    ensures root !in TableOf(rows) ==> r == Err(ListenerVanished)
    ensures root in TableOf(rows) ==>
      var bytes := 1024 * TotalKib(TableOf(rows), Descendants(TableOf(rows), root));
      r == if bytes > 0 then Ok((bytes, |Descendants(TableOf(rows), root)|)) else Err(MemoryUnavailable)
  {
    var table := FillTable(rows);
    if root !in table { return Err(ListenerVanished); }
    var selected := SelectDescendants(table, root, order);
    var bytes := SumBytes(table, selected);
    if bytes <= 0 { return Err(MemoryUnavailable); }
    return Ok((bytes, |selected|));
  }
}
