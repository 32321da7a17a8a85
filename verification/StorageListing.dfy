/** The storage measurement (scripts/run_imp_102_lite_install_storage_measurement.py) against a
    plain list of everything below the root. */
module StorageListing {
  import opened Outcomes
  import opened StorageTree

  /** Every node below, a directory before what it holds. */
  function Listing(cs: seq<Node>): seq<Node>
    decreases cs
  {
    if cs == [] then []
    else
      var c := cs[0];
      [c] + (if c.Directory? then Listing(c.children) else []) + Listing(cs[1..])
  }

  function Number(nodes: seq<Node>, counted: Node -> bool): nat
  {
    if nodes == [] then 0 else (if counted(nodes[0]) then 1 else 0) + Number(nodes[1..], counted)
  }

  /** The sizes of all files together. */
  function Bytes(nodes: seq<Node>): nat
  {
    if nodes == [] then 0 else (if nodes[0].File? then nodes[0].size else 0) + Bytes(nodes[1..])
  }

  /** The file reports how many blocks it takes. */
  predicate Reports(n: Node)
  {
    n.File? && n.blocks.Some? && n.blocks.value >= 0
  }

  function Blocks(nodes: seq<Node>): nat
  {
    if nodes == [] then 0 else (if Reports(nodes[0]) then nodes[0].blocks.value else 0) + Blocks(nodes[1..])
  }

  predicate AllReport(nodes: seq<Node>)
  {
    forall n :: n in nodes && n.File? ==> Reports(n)
  }

  /** What a list of nodes adds up to. */
  function Account(nodes: seq<Node>): Totals
  {
    Totals(|nodes|, Number(nodes, (n: Node) => n.File?), Number(nodes, (n: Node) => n.Directory?),
           Number(nodes, (n: Node) => n.Symlink?), Number(nodes, (n: Node) => n.Other?), Bytes(nodes),
           512 * Blocks(nodes), AllReport(nodes))
  }

  lemma {:induction false} NumberAdds(a: seq<Node>, b: seq<Node>, counted: Node -> bool)
    ensures Number(a + b, counted) == Number(a, counted) + Number(b, counted)
  {
    if a == [] {
      assert a + b == b;
    } else {
      NumberAdds(a[1..], b, counted);
      assert (a + b)[1..] == a[1..] + b;
    }
  }

  lemma {:induction false} SumsAdd(a: seq<Node>, b: seq<Node>)
    ensures Bytes(a + b) == Bytes(a) + Bytes(b) && Blocks(a + b) == Blocks(a) + Blocks(b)
  {
    if a == [] {
      assert a + b == b;
    } else {
      SumsAdd(a[1..], b);
      assert (a + b)[1..] == a[1..] + b;
    }
  }

  lemma AccountAdds(a: seq<Node>, b: seq<Node>)
    ensures Account(a + b) == Account(a).Add(Account(b))
  {
    hide Number, Bytes, Blocks, Reports;
    NumberAdds(a, b, (n: Node) => n.File?);
    NumberAdds(a, b, (n: Node) => n.Directory?);
    NumberAdds(a, b, (n: Node) => n.Symlink?);
    NumberAdds(a, b, (n: Node) => n.Other?);
    SumsAdd(a, b);
  }

  lemma AccountOne(n: Node)
    ensures Account([n]) == OwnTotals(n) && Account([]) == NOTHING
  {
    NumberOne(n, (n: Node) => n.File?);
    NumberOne(n, (n: Node) => n.Directory?);
    NumberOne(n, (n: Node) => n.Symlink?);
    NumberOne(n, (n: Node) => n.Other?);
    assert [n][1..] == [] && n in [n];
    assert Bytes([n]) == if n.File? then n.size else 0;
    assert Blocks([n]) == if Reports(n) then n.blocks.value else 0;
    assert AllReport([n]) <==> (n.File? ==> Reports(n));
  }

  lemma NumberOne(n: Node, counted: Node -> bool)
    ensures Number([n], counted) == if counted(n) then 1 else 0
  {
    assert [n][1..] == [];
  }

  /** The recursive sums are those of the listing. */
  lemma {:induction false} ListingAccounts(cs: seq<Node>)
    ensures ChildTotals(cs) == Account(Listing(cs))
    decreases cs
  {
    hide Account, OwnTotals, Totals.Add;
    if cs == [] {
      AccountOne(Other);
    } else {
      var c, below := cs[0], if cs[0].Directory? then Listing(cs[0].children) else [];
      AccountOne(c);
      if c.Directory? { ListingAccounts(c.children); }
      ListingAccounts(cs[1..]);
      AccountAdds([c], below);
      AccountAdds([c] + below, Listing(cs[1..]));
      AddLaws(OwnTotals(c), NOTHING, NOTHING);
    }
  }

  lemma {:induction false} IntactListing(cs: seq<Node>)
    ensures AllIntact(cs) <==> Broken !in Listing(cs)
    decreases cs
  {
    if cs != [] {
      var c := cs[0];
      if c.Directory? {
        IntactListing(c.children);
        IntactDirectory(c);
      }
      IntactListing(cs[1..]);
      assert cs == [c] + cs[1..];
      IntactAppend([c], cs[1..]);
      assert AllIntact([c]) <==> Intact(c) by { assert [c][0] == c; }
    }
  }

  /** A directory is measured exactly when nothing below it is unreadable, it holds at most the
      entries and bytes allowed and some bytes at all; the measurement counts the files, links,
      other things and directories in the listing, the root among them, and adds up the bytes
      of the files, and the blocks if every file reports them. */
  lemma DirectoryMeasured(cs: seq<Node>)
    ensures
      var all, t := Listing(cs), TreeTotals(Directory(cs));
      && (Measurable(Directory(cs)) <==>
            && Broken !in all && |all| <= 250_000 && 0 < Bytes(all) <= 107_374_182_400)
      && Report(t) == Measurement(
           Number(all, (n: Node) => n.File?), 1 + Number(all, (n: Node) => n.Directory?),
           Number(all, (n: Node) => n.Symlink?), Number(all, (n: Node) => n.Other?), Bytes(all),
           if AllReport(all) then Some(512 * Blocks(all)) else None)
  {
    hide Listing, Number, Bytes, Blocks, AllReport, ChildTotals, AllIntact;
    ListingAccounts(cs);
    IntactListing(cs);
    SomeFile(Listing(cs));
  }

  /** Bytes come from files only. */
  lemma {:induction false} SomeFile(nodes: seq<Node>)
    ensures Bytes(nodes) > 0 ==> Number(nodes, (n: Node) => n.File?) > 0
  {
    if nodes != [] { SomeFile(nodes[1..]); }
  }
}
