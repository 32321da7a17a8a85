/** The sequential projector's outer loops, and what a successful projection yields. */
module NumberedProjector {
  import opened Outcomes
  import opened Json
  import opened Texts
  import opened JsonArrays
  import opened NumberedMembers
  import opened NumberedAggregation
  import opened NumberedProjection
  import opened ConversationMapping

  // ----- ordering the paths ----------------------------------------------------------

  predicate AllPathsLabelled(members: seq<PathMember>)
  {
    forall i :: 0 <= i < |members| ==> LabelIndex(members[i].name).Some?
  }

  function ParsedPaths(members: seq<PathMember>): seq<Indexed<PathMember>>
    requires AllPathsLabelled(members)
  {
    seq(|members|, i requires 0 <= i < |members| =>
        Indexed(LabelIndex(members[i].name).value, members[i]))
  }

  function DeclaredBytes(members: seq<PathMember>): nat
  {
    if members == [] then 0 else DeclaredBytes(members[..|members| - 1]) + members[|members| - 1].declaredSize
  }

  ghost predicate DistinctPaths(members: seq<PathMember>)
  {
    forall i, j :: 0 <= i < j < |members| ==> members[i].path != members[j].path
  }

  /** What the first stage demands of the supplied paths. */
  ghost predicate PathsAccepted(members: seq<PathMember>, limits: Limits)
  {
    && 0 < |members| <= limits.maxMembers
    && AllPathsLabelled(members)
    && DistinctPaths(members)
    && (forall i :: 0 <= i < |members| ==> members[i].isFile)
    && DeclaredBytes(members) <= limits.maxBytes
    && Consecutive(SortIndexed(ParsedPaths(members)))
  }

  lemma {:induction false} DeclaredBytesGrows(members: seq<PathMember>, i: nat)
    requires i <= |members|
    ensures DeclaredBytes(members[..i]) <= DeclaredBytes(members)
    decreases |members|
  {
    if i == |members| {
      assert members[..i] == members;
    } else {
      var front := members[..|members| - 1];
      DeclaredBytesGrows(front, i);
      assert front[..i] == members[..i];
    }
  }

  lemma RepeatedPathIndexRejected(members: seq<PathMember>, i: nat, j: nat)
    requires i < j < |members| && LabelIndex(members[i].name) == LabelIndex(members[j].name)
    ensures AllPathsLabelled(members) ==> !Consecutive(SortIndexed(ParsedPaths(members)))
  {
    hide LabelIndex;
    if AllPathsLabelled(members) && Consecutive(SortIndexed(ParsedPaths(members))) {
      ConsecutiveDistinct(ParsedPaths(members), i, j);
      assert false;
    }
  }

  function PathSet(members: seq<PathMember>): set<string>
  {
    set i | 0 <= i < |members| :: members[i].path
  }

  lemma PathsSnoc(members: seq<PathMember>, n: nat)
    requires n < |members|
    ensures PathSet(members[..n + 1]) == PathSet(members[..n]) + {members[n].path}
    ensures DistinctPaths(members[..n + 1])
      <==> DistinctPaths(members[..n]) && members[n].path !in PathSet(members[..n])
    ensures DistinctPaths(members) ==> DistinctPaths(members[..n + 1])
  {
    var more, front := members[..n + 1], members[..n];
    assert more[n] == members[n] && forall i :: 0 <= i < n ==> more[i] == front[i];
  }

  /** Every remembered label and index belongs to one of the members. */
  ghost predicate Remembers(labels: set<string>, indices: set<nat>, members: seq<PathMember>)
  {
    && (forall s :: s in labels ==> exists i :: 0 <= i < |members| && members[i].name == s)
    && (forall k :: k in indices ==> exists i :: 0 <= i < |members| && LabelIndex(members[i].name) == Some(k))
  }

  lemma RemembersSnoc(labels: set<string>, indices: set<nat>, members: seq<PathMember>, n: nat, index: nat)
    requires n < |members| && Remembers(labels, indices, members[..n]) && LabelIndex(members[n].name) == Some(index)
    ensures Remembers(labels + {members[n].name}, indices + {index}, members[..n + 1])
    ensures members[n].name in labels || index in indices ==>
      AllPathsLabelled(members) ==> !Consecutive(SortIndexed(ParsedPaths(members)))
  {
    hide LabelIndex, SortIndexed, Consecutive, ParsedPaths, AllPathsLabelled;
    var more, front := members[..n + 1], members[..n];
    assert more[n] == members[n] && forall i :: 0 <= i < n ==> more[i] == front[i] == members[i];
    if members[n].name in labels || index in indices {
      var i :| 0 <= i < n && LabelIndex(front[i].name) == Some(index);
      RepeatedPathIndexRejected(members, i, n);
    }
  }

  lemma NothingRemembered()
    ensures Remembers({}, {}, []) && PathSet([]) == {} && DistinctPaths([])
  {
  }

  method OrderPaths(members: seq<PathMember>, limits: Limits) returns (r: Option<seq<Indexed<PathMember>>>)
    ensures r.Some? <==> PathsAccepted(members, limits)
    ensures r.Some? ==> r.value == SortIndexed(ParsedPaths(members))
  {
    hide LabelIndex, SortIndexed, Consecutive, DistinctPaths, Remembers, PathSet;
    if members == [] || |members| > limits.maxMembers { return None; }
    assert members[..0] == [];
    NothingRemembered();
    var parsed: seq<Indexed<PathMember>> := [];
    var labels: set<string>, indices: set<nat>, paths: set<string> := {}, {}, {};
    var total := 0;
    for n := 0 to |members|
      invariant AllPathsLabelled(members[..n]) && parsed == ParsedPaths(members[..n])
      invariant forall i :: 0 <= i < n ==> members[i].isFile
      invariant Remembers(labels, indices, members[..n])
      invariant paths == PathSet(members[..n]) && DistinctPaths(members[..n])
      invariant total == DeclaredBytes(members[..n]) && (n > 0 ==> total <= limits.maxBytes)
    {
      var member := members[n];
      var index := LabelIndex(member.name);
      if index.None? { return None; }
      RemembersSnoc(labels, indices, members, n, index.value);
      PathsSnoc(members, n);
      if member.name in labels || index.value in indices { return None; }
      if member.path in paths || !member.isFile { return None; }
      total := total + member.declaredSize;
      assert members[..n + 1][..n] == members[..n];
      DeclaredBytesGrows(members, n + 1);
      if total > limits.maxBytes { return None; }
      labels, indices, paths := labels + {member.name}, indices + {index.value}, paths + {member.path};
      parsed := parsed + [Indexed(index.value, member)];
    }
    assert members[..|members|] == members;
    var ordered := SortIndexed(parsed);
    if !Consecutive(ordered) { return None; }
    return Some(ordered);
  }

  // ----- the members as read --------------------------------------------------------------

  /** The member as the loop reads it. */
  function AsRead(e: Indexed<PathMember>): Indexed<Member>
  {
    Indexed(e.index, Member(e.item.name, e.item.firstRead))
  }

  function AllAsRead(entries: seq<Indexed<PathMember>>): (r: seq<Indexed<Member>>)
    ensures |r| == |entries|
    ensures forall i :: 0 <= i < |entries| ==> r[i] == AsRead(entries[i])
  {
    seq(|entries|, i requires 0 <= i < |entries| => AsRead(entries[i]))
  }

  function ReadBytes(entries: seq<Indexed<PathMember>>): nat
  {
    if entries == [] then 0 else ReadBytes(entries[..|entries| - 1]) + |entries[|entries| - 1].item.firstRead|
  }

  lemma {:induction false} ReadBytesGrows(entries: seq<Indexed<PathMember>>, i: nat)
    requires i <= |entries|
    ensures ReadBytes(entries[..i]) <= ReadBytes(entries)
    decreases |entries|
  {
    if i == |entries| {
      assert entries[..i] == entries;
    } else {
      var front := entries[..|entries| - 1];
      ReadBytesGrows(front, i);
      assert front[..i] == entries[..i];
    }
  }

  /** The second reading has the size and the hash of the first. */
  predicate Stable(m: PathMember, lib: Library)
  {
    |m.finalRead| == |m.firstRead| && lib.sha256(m.finalRead) == lib.sha256(m.firstRead)
  }

  predicate HasIdentityless(items: seq<Json>)
  {
    exists i :: 0 <= i < |items| && Identityless(items[i])
  }

  /** The indices of the members that hold a quarantined conversation. */
  ghost function QuarantinedIndices(entries: seq<Indexed<PathMember>>, lib: Library): set<nat>
  {
    set i | 0 <= i < |entries| && HasIdentityless(RootOf(entries[i].item.firstRead, lib)) :: entries[i].index
  }

  ghost function ItemsRead(entries: seq<Indexed<PathMember>>, lib: Library): seq<Json>
  {
    ItemsOf(AllAsRead(entries), lib)
  }

  lemma ItemsReadSnoc(entries: seq<Indexed<PathMember>>, lib: Library, n: nat)
    requires n < |entries|
    ensures ItemsRead(entries[..n + 1], lib) == ItemsRead(entries[..n], lib) + RootOf(entries[n].item.firstRead, lib)
    ensures ItemsRead(entries[..n + 1], lib) <= ItemsRead(entries, lib)
  {
    var all := AllAsRead(entries);
    assert AllAsRead(entries[..n + 1]) == all[..n + 1];
    assert AllAsRead(entries[..n]) == all[..n];
    ItemsSnoc(all, lib, n);
    ItemsPrefix(all, lib, n + 1);
  }

  // ----- what a projection demands and yields --------------------------------------------------

  ghost predicate ReadsAccepted(entries: seq<Indexed<PathMember>>, selected: set<string>,
                                limits: Limits, maxSelected: int, lib: Library)
  {
    && (entries != [] ==> ReadBytes(entries) <= limits.maxBytes)
    && (forall i :: 0 <= i < |entries| ==> RootAccepted(entries[i].item.firstRead, limits, lib))
    && (entries != [] ==> |ItemsRead(entries, lib)| <= limits.maxConversations)
    && Projectable(ItemsRead(entries, lib), selected, maxSelected)
  }

  ghost predicate EntriesProjected(entries: seq<Indexed<PathMember>>, selected: set<string>,
                                   limits: Limits, maxSelected: int, lib: Library)
  {
    && ReadsAccepted(entries, selected, limits, maxSelected, lib)
    && (forall id :: id in selected ==> Seen(Kept(ItemsRead(entries, lib)), Some(id)))
    && (forall i :: 0 <= i < |entries| ==> Stable(entries[i].item, lib))
  }

  ghost function ProjectionOf(entries: seq<Indexed<PathMember>>, selected: set<string>, lib: Library): Projection
  {
    var items := ItemsRead(entries, lib);
    var kept := Kept(items);
    var firsts := Firsts(kept);
    var chosen := Encode(Arr(SelectedOf(firsts, selected)));
    var manifests := ManifestsOf(AllAsRead(entries), lib);
    FirstsLength(kept);
    KeptLength(items);
    Projection(chosen, lib.sha256(chosen), lib.sha256(Encode(Arr(firsts))),
               MemberSetHash(manifests, lib), manifests,
               |items|, |firsts|, |kept| - |firsts|, |items| - |kept|,
               |QuarantinedIndices(entries, lib)|, InventorySum(firsts))
  }

  /** The selection is 1 to 1000 distinct valid identifiers. */
  ghost predicate SelectionAccepted(ids: seq<string>)
  {
    && 0 < |ids| <= MAX_SELECTION_COUNT
    && (forall i :: 0 <= i < |ids| ==> Identifier(Str(ids[i])).Some?)
    && Distinct(ids)
  }

  function Chosen(ids: seq<string>): set<string>
  {
    set id | id in ids
  }

  /** What projection yields; `None` stands for a raised error. */
  ghost function ProjectResult(members: seq<PathMember>, ids: seq<string>, limits: Limits,
                               maxSelected: int, lib: Library): Option<Projection>
  {
    if SelectionAccepted(ids) && PathsAccepted(members, limits)
       && EntriesProjected(SortIndexed(ParsedPaths(members)), Chosen(ids), limits, maxSelected, lib)
    then Some(ProjectionOf(SortIndexed(ParsedPaths(members)), Chosen(ids), lib))
    else None
  }

  // ----- the loops ---------------------------------------------------------------------------------

  /** Every prefix of projectable items is projectable. */
  lemma {:induction false} ProjectablePrefix(items: seq<Json>, more: seq<Json>, selected: set<string>, maxSelected: int)
    requires Projectable(items + more, selected, maxSelected)
    ensures Projectable(items, selected, maxSelected)
    decreases |more|
  {
    hide Projectable;
    if more == [] {
      assert items + more == items;
    } else {
      var front, last := items + more[..|more| - 1], more[|more| - 1];
      assert items + more == front + [last];
      ProjectableFront(front, last, selected, maxSelected);
      ProjectablePrefix(items, more[..|more| - 1], selected, maxSelected);
    }
  }

  lemma ProjectableFront(items: seq<Json>, v: Json, selected: set<string>, maxSelected: int)
    requires Projectable(items + [v], selected, maxSelected)
    ensures Projectable(items, selected, maxSelected)
  {
    hide ConversationId, Encode, Firsts, Kept, SelectedOf, InventoryResult, Join, Seen, EncodeAll, Identityless;
    hide AllIdentified, NoConflict;
    KeptSnoc(items, v);
    if !Identityless(v) {
      var kept := Kept(items);
      PrefixKeeps(kept, kept + [v]);
      FirstsSnoc(kept, v);
      var firsts := Firsts(kept);
      if !Seen(kept, ConversationId(v)) {
        assert forall i :: 0 <= i < |firsts| ==> (firsts + [v])[i] == firsts[i];
        SelectedSnoc(firsts, v, selected);
        var chosen := SelectedOf(firsts, selected);
        EncodeAllSnoc(chosen, v);
        ArraySizeSnoc(EncodeAll(chosen), Encode(v));
      }
    }
  }

  /** The inner loop: all conversations of one member. */
  method ProjectRoot(run: ProjectionRun, index: nat, root: seq<Json>) returns (ok: bool)
    requires run.Valid()
    modifies run, run.store
    ensures ok <==> Projectable(old(run.items) + root, run.selected, run.maxSelected)
    ensures ok ==> run.Valid() && run.items == old(run.items) + root
    ensures ok ==> run.quarantineMembers == old(run.quarantineMembers) + (if HasIdentityless(root) then {index} else {})
  {
    hide Projectable, Identityless, run.Valid;
    ghost var before := run.items;
    assert before + root[..0] == before;
    for i := 0 to |root|
      invariant run.Valid() && run.items == before + root[..i]
      invariant run.quarantineMembers
        == old(run.quarantineMembers) + (if HasIdentityless(root[..i]) then {index} else {})
    {
      ok := run.Absorb(index, root[i]);
      assert before + root[..i] + [root[i]] == before + root[..i + 1];
      HasIdentitylessSnoc(root, i);
      if !ok {
        if Projectable(before + root, run.selected, run.maxSelected) {
          assert before + root == (before + root[..i + 1]) + root[i + 1..];
          ProjectablePrefix(before + root[..i + 1], root[i + 1..], run.selected, run.maxSelected);
        }
        return;
      }
    }
    assert root[..|root|] == root;
    run.ValidIsProjectable();
    ok := true;
  }

  lemma HasIdentitylessSnoc(root: seq<Json>, i: nat)
    requires i < |root|
    ensures HasIdentityless(root[..i + 1]) <==> HasIdentityless(root[..i]) || Identityless(root[i])
  {
    hide Identityless;
    var more := root[..i + 1];
    assert more[i] == root[i];
    assert forall j :: 0 <= j < i ==> more[j] == root[..i][j];
  }

  lemma QuarantinedSnoc(entries: seq<Indexed<PathMember>>, lib: Library, n: nat)
    requires n < |entries|
    ensures QuarantinedIndices(entries[..n + 1], lib) == QuarantinedIndices(entries[..n], lib)
      + (if HasIdentityless(RootOf(entries[n].item.firstRead, lib)) then {entries[n].index} else {})
  {
    hide HasIdentityless, RootOf;
    var more := entries[..n + 1];
    assert more[n] == entries[n];
    assert forall j :: 0 <= j < n ==> more[j] == entries[..n][j];
  }

  /** The outer loop over the ordered members, before the final checks. */
  method ReadMembers(run: ProjectionRun, entries: seq<Indexed<PathMember>>, limits: Limits)
    returns (ok: bool, manifests: seq<Manifest>, inputCount: nat)
    requires run.Valid() && run.items == [] && run.quarantineMembers == {}
    modifies run, run.store
    ensures ok <==> ReadsAccepted(entries, run.selected, limits, run.maxSelected, run.lib)
    ensures ok ==> run.Valid() && run.items == ItemsRead(entries, run.lib)
    ensures ok ==> manifests == ManifestsOf(AllAsRead(entries), run.lib) && inputCount == |run.items|
    ensures ok ==> run.quarantineMembers == QuarantinedIndices(entries, run.lib)
  {
    hide Projectable, run.Valid, ItemsRead, HasIdentityless, Depth, QuarantinedIndices;
    ok, manifests, inputCount := false, [], 0;
    var total := 0;
    assert entries[..0] == [];
    EmptyReads(run.lib);
    for n := 0 to |entries|
      invariant run.Valid() && run.items == ItemsRead(entries[..n], run.lib)
      invariant total == ReadBytes(entries[..n]) && (n > 0 ==> total <= limits.maxBytes)
      invariant inputCount == |run.items| && (n > 0 ==> inputCount <= limits.maxConversations)
      invariant forall i :: 0 <= i < n ==> RootAccepted(entries[i].item.firstRead, limits, run.lib)
      invariant manifests == ManifestsOf(AllAsRead(entries[..n]), run.lib)
      invariant run.quarantineMembers == QuarantinedIndices(entries[..n], run.lib)
    {
      var e := entries[n];
      assert entries[..n + 1][..n] == entries[..n];
      ReadBytesGrows(entries, n + 1);
      total := total + |e.item.firstRead|;
      if total > limits.maxBytes { return; }
      if !RootAccepted(e.item.firstRead, limits, run.lib) { return; }
      var root := RootOf(e.item.firstRead, run.lib);
      ItemsReadSnoc(entries, run.lib, n);
      QuarantinedSnoc(entries, run.lib, n);
      ghost var sofar, all := ItemsRead(entries[..n + 1], run.lib), ItemsRead(entries, run.lib);
      inputCount := inputCount + |root|;
      if inputCount > limits.maxConversations { return; }
      var hash := run.lib.sha256(e.item.firstRead);
      manifests := manifests + [Manifest(e.item.name, e.index, |e.item.firstRead|, |root|, hash)];
      var absorbed := ProjectRoot(run, e.index, root);
      if !absorbed {
        if Projectable(all, run.selected, run.maxSelected) {
          assert all == sofar + all[|sofar|..];
          ProjectablePrefix(sofar, all[|sofar|..], run.selected, run.maxSelected);
        }
        return;
      }
    }
    assert entries[..|entries|] == entries;
    run.ValidIsProjectable();
    ok := true;
  }

  lemma EmptyReads(lib: Library)
    ensures ItemsRead([], lib) == [] && QuarantinedIndices([], lib) == {}
  {
  }

  /** The final reading: every member still has the size and hash it was read with. */
  method RecheckMembers(entries: seq<Indexed<PathMember>>, lib: Library) returns (ok: bool)
    ensures ok <==> forall i :: 0 <= i < |entries| ==> Stable(entries[i].item, lib)
  {
    for n := 0 to |entries|
      invariant forall i :: 0 <= i < n ==> Stable(entries[i].item, lib)
    {
      var m := entries[n].item;
      if |m.finalRead| != |m.firstRead| { return false; }
      if lib.sha256(m.finalRead) != lib.sha256(m.firstRead) { return false; }
    }
    return true;
  }

  /** `_selected_ids`. */
  method SelectIds(ids: seq<string>) returns (r: Option<set<string>>)
    ensures r.Some? <==> SelectionAccepted(ids)
    ensures r.Some? ==> r.value == Chosen(ids)
  {
    hide Identifier;
    if ids == [] || |ids| > MAX_SELECTION_COUNT { return None; }
    var selected: set<string> := {};
    for n := 0 to |ids|
      invariant forall i :: 0 <= i < n ==> Identifier(Str(ids[i])).Some?
      invariant selected == Chosen(ids[..n])
      invariant |selected| <= n && (|selected| == n <==> Distinct(ids[..n]))
    {
      if Identifier(Str(ids[n])).None? { return None; }
      ChosenSnoc(ids, n);
      selected := selected + {ids[n]};
    }
    assert ids[..|ids|] == ids;
    if |selected| != |ids| { return None; }
    return Some(selected);
  }

  lemma ChosenSnoc(ids: seq<string>, n: nat)
    requires n < |ids|
    ensures Chosen(ids[..n + 1]) == Chosen(ids[..n]) + {ids[n]}
    ensures Distinct(ids[..n + 1]) <==> Distinct(ids[..n]) && ids[n] !in Chosen(ids[..n])
  {
    var more, front := ids[..n + 1], ids[..n];
    assert more == front + [ids[n]];
    if Distinct(more) {
      assert forall i :: 0 <= i < n ==> more[i] == front[i] && more[i] != more[n];
    }
    if Distinct(front) && ids[n] !in Chosen(front) {
      forall i, j | 0 <= i < j < |more| ensures more[i] != more[j] {
        assert more[i] == front[i] && front[i] in Chosen(front);
        if j < n { assert more[j] == front[j]; }
      }
    }
  }

  method Project(members: seq<PathMember>, ids: seq<string>, limits: Limits, maxSelected: int, lib: Library)
    returns (r: Option<Projection>)
    ensures r == ProjectResult(members, ids, limits, maxSelected, lib)
  {
    hide PathsAccepted, ReadsAccepted, SelectionAccepted, Chosen, SortIndexed, ParsedPaths, MemberSetHash, Stable;
    var selected := SelectIds(ids);
    if selected.None? { return None; }
    var ordered := OrderPaths(members, limits);
    if ordered.None? { return None; }
    r := ProjectEntries(ordered.value, selected.value, limits, maxSelected, lib);
  }

  /** Everything after the first stage. */
  method ProjectEntries(entries: seq<Indexed<PathMember>>, selected: set<string>, limits: Limits, maxSelected: int,
      lib: Library)
    returns (r: Option<Projection>)
    ensures r.Some? <==> EntriesProjected(entries, selected, limits, maxSelected, lib)
    ensures r.Some? ==> r.value == ProjectionOf(entries, selected, lib)
  {
    hide ReadsAccepted, MemberSetHash, Stable, ItemsRead, QuarantinedIndices, Firsts, Kept, SelectedOf, Join, Encode;
    hide InventorySum, EncodeAll, Seen, Tiles, AllIdentified, NoConflict, AllInventoried, AllAsRead;
    hide ManifestsOf, ArraySize;
    var run := new ProjectionRun(lib, selected, maxSelected);
    var read, manifests, inputCount := ReadMembers(run, entries, limits);
    if !read { return None; }
    ghost var firsts := run.FirstsSoFar();
    forall id: string ensures Seen(firsts, Some(id)) <==> Seen(Kept(run.items), Some(id)) {
      FirstsSeen(Kept(run.items), Some(id));
    }
    if !(selected <= run.found) { return None; }
    var stable := RecheckMembers(entries, lib);
    if !stable { return None; }
    ArrayEncoding(firsts);
    ArrayEncoding(SelectedOf(firsts, selected));
    var chosen := [OPEN] + Join(run.selectedParts) + [CLOSE];
    return Some(Projection(
      chosen, lib.sha256(chosen), lib.sha256(run.fed + [CLOSE]), MemberSetHash(manifests, lib), manifests,
      inputCount, run.outputCount, run.duplicateCount, run.quarantineCount,
      |run.quarantineMembers|, run.counts));
  }
}
