/** When the projection of a selection succeeds (src/doll/chatgpt_numbered_projection.py), said
    of the members and of the raw fields of their conversations. */
module NumberedSelection {
  import opened Outcomes
  import opened Json
  import opened Texts
  import opened JsonArrays
  import opened NumberedMembers
  import opened NumberedAggregation
  import opened NumberedProjection
  import opened NumberedProjector
  import opened NumberedRefinement
  import opened NumberedIdentity
  import opened ConversationMapping
  import opened ConversationMessages

  // ----- conversations by name ------------------------------------------------------------

  /** An object that bears neither identity field: such a conversation is set aside. */
  predicate Unnamed(v: Json)
  {
    v.Obj? && Vacant(v.fields, "id") && Vacant(v.fields, "conversation_id")
  }

  /** The first conversation with this name. */
  ghost predicate FirstBearer(items: seq<Json>, i: int, id: string)
  {
    0 <= i < |items| && NamedBy(items[i], id) && forall j :: 0 <= j < i ==> !NamedBy(items[j], id)
  }

  predicate HasMapping(v: Json)
  {
    v.Obj? && ObjectField(v.fields, "mapping")
  }

  /** Every conversation is named or set aside, one name has one content, and the first bearer of a
      name has a mapping. */
  ghost predicate Presentable(items: seq<Json>)
  {
    && (forall i :: 0 <= i < |items| ==> Named(items[i]) || Unnamed(items[i]))
    && NamesAgree(items)
    && (forall i, id :: FirstBearer(items, i, id) ==> HasMapping(items[i]))
  }

  lemma UnnamedIff(v: Json)
    ensures Identityless(v) <==> Unnamed(v)
    ensures Unnamed(v) ==> ConversationId(v).None?
  {
  }

  lemma {:induction false} KeptIff(items: seq<Json>, v: Json)
    ensures v in Kept(items) <==> v in items && !Unnamed(v)
  {
    hide Unnamed, Identityless;
    if items != [] {
      var front, last := items[..|items| - 1], items[|items| - 1];
      assert items == front + [last];
      KeptIff(front, v);
      UnnamedIff(last);
    }
  }

  lemma KeptNamed(items: seq<Json>)
    ensures AllIdentified(Kept(items)) <==> forall i :: 0 <= i < |items| ==> Named(items[i]) || Unnamed(items[i])
  {
    hide Unnamed, Identityless, Named, ConversationId, Kept;
    var kept := Kept(items);
    if AllIdentified(kept) {
      forall i | 0 <= i < |items| ensures Named(items[i]) || Unnamed(items[i]) {
        KeptIff(items, items[i]);
        NamedIff(items[i]);
      }
    }
    if forall i :: 0 <= i < |items| ==> Named(items[i]) || Unnamed(items[i]) {
      forall k | 0 <= k < |kept| ensures ConversationId(kept[k]).Some? {
        KeptIff(items, kept[k]);
        NamedIff(kept[k]);
      }
    }
  }

  /** One name has one content, whatever the positions. */
  ghost predicate OneContent(items: seq<Json>)
  {
    forall a, b, id :: a in items && b in items && NamedBy(a, id) && NamedBy(b, id) ==> Encode(a) == Encode(b)
  }

  lemma AgreeAnywhere(items: seq<Json>)
    ensures NamesAgree(items) <==> OneContent(items)
  {
    hide NamedBy, Encode;
    if NamesAgree(items) {
      forall a, b, id | a in items && b in items && NamedBy(a, id) && NamedBy(b, id) ensures Encode(a) == Encode(b) {
        var i :| 0 <= i < |items| && items[i] == a;
        var j :| 0 <= j < |items| && items[j] == b;
        if i < j { assert Encode(items[i]) == Encode(items[j]); }
        if j < i { assert Encode(items[j]) == Encode(items[i]); }
      }
    }
  }

  lemma KeptAgree(items: seq<Json>)
    requires AllIdentified(Kept(items))
    ensures NoConflict(Kept(items)) <==> NamesAgree(items)
  {
    hide NamedBy, Encode, Kept, NamesAgree, NoConflict, AllNamed, Unnamed, AllIdentified;
    NamedMeans(Kept(items));
    AgreeAnywhere(items);
    AgreeAnywhere(Kept(items));
    forall v, id | NamedBy(v, id) ensures v in items <==> v in Kept(items) {
      KeptIff(items, v);
      NamedNotUnnamed(v, id);
    }
  }

  lemma NamedNotUnnamed(v: Json, id: string)
    requires NamedBy(v, id)
    ensures !Unnamed(v)
  {
  }

  // ----- first bearers ----------------------------------------------------------------------

  lemma SeenIff(items: seq<Json>, id: string)
    ensures Seen(Kept(items), Some(id)) <==> exists i :: 0 <= i < |items| && NamedBy(items[i], id)
  {
    hide NamedBy, Kept, ConversationId, Unnamed;
    var kept := Kept(items);
    if Seen(kept, Some(id)) {
      var k :| 0 <= k < |kept| && ConversationId(kept[k]) == Some(id);
      KeptIff(items, kept[k]);
      IdentityIff(kept[k], id);
    }
    if i :| 0 <= i < |items| && NamedBy(items[i], id) {
      NamedNotUnnamed(items[i], id);
      KeptIff(items, items[i]);
      IdentityIff(items[i], id);
    }
  }

  /** The conversations that the projector keeps are the first bearers. */
  lemma {:induction false} FirstsIff(items: seq<Json>, v: Json, id: string)
    requires NamedBy(v, id)
    ensures v in Firsts(Kept(items)) <==> exists i :: FirstBearer(items, i, id) && items[i] == v
  {
    hide NamedBy, ConversationId, Unnamed, Identityless;
    if items == [] {
    } else {
      var front, last := items[..|items| - 1], items[|items| - 1];
      assert items == front + [last];
      FirstsIff(front, v, id);
      KeptSnoc(front, last);
      FirstsSnoc(Kept(front), last);
      UnnamedIff(last);
      SeenIff(front, id);
      IdentityIff(last, id);
      IdentityIff(v, id);
      BearerSnoc(front, last, v, id);
    }
  }

  lemma BearerSnoc(front: seq<Json>, last: Json, v: Json, id: string)
    requires NamedBy(v, id)
    ensures
      (exists i :: FirstBearer(front + [last], i, id) && (front + [last])[i] == v)
      <==> (exists i :: FirstBearer(front, i, id) && front[i] == v)
           || (last == v && forall j :: 0 <= j < |front| ==> !NamedBy(front[j], id))
  {
    hide NamedBy;
    var items := front + [last];
    assert forall j :: 0 <= j < |front| ==> items[j] == front[j];
    if i :| FirstBearer(items, i, id) && items[i] == v {
      if i < |front| { assert FirstBearer(front, i, id); }
    }
    if i :| FirstBearer(front, i, id) && front[i] == v {
      assert FirstBearer(items, i, id);
    }
    if last == v && forall j :: 0 <= j < |front| ==> !NamedBy(front[j], id) {
      assert FirstBearer(items, |front|, id);
    }
  }

  lemma InventoriedIff(v: Json)
    ensures HasMapping(v) <==> v.Obj? && InventoryResult(v.fields).Some?
  {
    hide HeaderCounts, SumOver, InventoryCounter;
  }

  lemma MappingsIff(items: seq<Json>)
    requires AllIdentified(Kept(items))
    ensures AllInventoried(Firsts(Kept(items)))
      <==> forall i, id :: FirstBearer(items, i, id) ==> HasMapping(items[i])
  {
    hide NamedBy, ConversationId, Kept, Firsts, InventoryResult, HasMapping;
    var firsts := Firsts(Kept(items));
    if AllInventoried(firsts) {
      forall i, id | FirstBearer(items, i, id) ensures HasMapping(items[i]) {
        FirstsIff(items, items[i], id);
        var k :| 0 <= k < |firsts| && firsts[k] == items[i];
        InventoriedIff(items[i]);
      }
    }
    if forall i, id :: FirstBearer(items, i, id) ==> HasMapping(items[i]) {
      forall k | 0 <= k < |firsts| ensures firsts[k].Obj? && InventoryResult(firsts[k].fields).Some? {
        FirstsAccepted(Kept(items));
        var id := ConversationId(firsts[k]).value;
        IdentityIff(firsts[k], id);
        FirstsIff(items, firsts[k], id);
        InventoriedIff(firsts[k]);
      }
    }
  }

  lemma PresentableIff(items: seq<Json>, selected: set<string>, maxSelected: int)
    ensures
      var chosen := SelectedOf(Firsts(Kept(items)), selected);
      Projectable(items, selected, maxSelected) <==>
        Presentable(items) && (chosen != [] ==> |Encode(Arr(chosen))| <= maxSelected)
  {
    hide Named, Unnamed, NamesAgree, FirstBearer, HasMapping, Kept, Firsts, AllIdentified, NoConflict, AllInventoried;
    hide SelectedOf, Encode, EncodeAll, Join;
    KeptNamed(items);
    if AllIdentified(Kept(items)) {
      KeptAgree(items);
      MappingsIff(items);
    }
    ArrayEncoding(SelectedOf(Firsts(Kept(items)), selected));
  }

  // ----- the projection -------------------------------------------------------------------------

  /** All conversations of the members as read, in index order. */
  ghost function ConversationsRead(members: seq<PathMember>, lib: Library): seq<Json>
    requires AllPathsLabelled(members)
  {
    ItemsRead(SortIndexed(ParsedPaths(members)), lib)
  }

  /** What the selection, the paths and the bytes must be before any conversation is looked at. */
  ghost predicate Supplied(members: seq<PathMember>, ids: seq<string>, limits: Limits)
  {
    && 1 <= |ids| <= 1000 && (forall id :: id in ids ==> IsName(id)) && Distinct(ids)
    && 1 <= |members| <= limits.maxMembers && AllPathsLabelled(members)
    && (IndicesFrom(ParsedPaths(members), 0) || IndicesFrom(ParsedPaths(members), 1))
    && (forall m :: m in members ==> m.isFile)
    && (forall i, j :: 0 <= i < j < |members| ==> members[i].path != members[j].path)
    && DeclaredBytes(members) <= limits.maxBytes && TotalBytes(MembersRead(members)) <= limits.maxBytes
  }

  /** Every member is read within the limits, and reads the same the second time. */
  ghost predicate ReadTwice(members: seq<PathMember>, limits: Limits, lib: Library)
  {
    forall m :: m in members ==>
      && RootAccepted(m.firstRead, limits, lib)
      && |m.finalRead| == |m.firstRead| && lib.sha256(m.finalRead) == lib.sha256(m.firstRead)
  }

  lemma SuppliedIff(members: seq<PathMember>, ids: seq<string>, limits: Limits)
    ensures Supplied(members, ids, limits) <==>
      && SelectionAccepted(ids) && PathsAccepted(members, limits)
      && ReadBytes(SortIndexed(ParsedPaths(members))) <= limits.maxBytes
  {
    hide LabelIndex, Consecutive, SortIndexed, IndicesFrom, TotalBytes, DeclaredBytes, ReadBytes, IsName, Identifier;
    hide Distinct, MembersRead;
    forall i | 0 <= i < |ids| ensures Identifier(Str(ids[i])).Some? <==> IsName(ids[i]) { IdentifierOf(Str(ids[i])); }
    assert forall i :: 0 <= i < |members| ==> members[i] in members;
    assert forall i :: 0 <= i < |ids| ==> ids[i] in ids;
    if AllPathsLabelled(members) {
      ConsecutiveIff(ParsedPaths(members));
      TotalBytesRead(members);
      ReadBytesSort(ParsedPaths(members));
    }
  }

  lemma SortedAreMembers(members: seq<PathMember>, i: nat)
    requires AllPathsLabelled(members) && i < |SortIndexed(ParsedPaths(members))|
    ensures SortIndexed(ParsedPaths(members))[i].item in members
  {
    hide LabelIndex, SortIndexed;
    var parsed := ParsedPaths(members);
    SortSorts(parsed);
    assert SortIndexed(parsed)[i] in multiset(parsed);
    var k :| 0 <= k < |parsed| && parsed[k] == SortIndexed(parsed)[i];
  }

  lemma MembersAreSorted(members: seq<PathMember>, m: PathMember) returns (i: nat)
    requires AllPathsLabelled(members) && m in members
    ensures i < |SortIndexed(ParsedPaths(members))| && SortIndexed(ParsedPaths(members))[i].item == m
  {
    hide LabelIndex, SortIndexed;
    var parsed := ParsedPaths(members);
    SortSorts(parsed);
    var k :| 0 <= k < |members| && members[k] == m;
    assert parsed[k] in multiset(SortIndexed(parsed));
    i :| 0 <= i < |SortIndexed(parsed)| && SortIndexed(parsed)[i] == parsed[k];
  }

  lemma ReadTwiceIff(members: seq<PathMember>, limits: Limits, lib: Library)
    requires AllPathsLabelled(members)
    ensures
      var entries := SortIndexed(ParsedPaths(members));
      ReadTwice(members, limits, lib) <==>
        && (forall i :: 0 <= i < |entries| ==> RootAccepted(entries[i].item.firstRead, limits, lib))
        && (forall i :: 0 <= i < |entries| ==> Stable(entries[i].item, lib))
  {
    hide LabelIndex, SortIndexed, RootAccepted, ParsedPaths;
    var entries := SortIndexed(ParsedPaths(members));
    if ReadTwice(members, limits, lib) {
      forall i | 0 <= i < |entries|
        ensures RootAccepted(entries[i].item.firstRead, limits, lib) && Stable(entries[i].item, lib)
      {
        SortedAreMembers(members, i);
      }
    }
    if && (forall i :: 0 <= i < |entries| ==> RootAccepted(entries[i].item.firstRead, limits, lib))
       && (forall i :: 0 <= i < |entries| ==> Stable(entries[i].item, lib))
    {
      forall m | m in members ensures RootAccepted(m.firstRead, limits, lib) && Stable(m, lib) {
        var i := MembersAreSorted(members, m);
        assert Stable(entries[i].item, lib);
      }
    }
  }

  lemma SuppliedSome(members: seq<PathMember>, ids: seq<string>, limits: Limits)
    requires SelectionAccepted(ids) && PathsAccepted(members, limits)
    ensures AllPathsLabelled(members) && SortIndexed(ParsedPaths(members)) != [] && ids != []
  {
    hide LabelIndex, Consecutive, SortIndexed, DistinctPaths, DeclaredBytes;
    SortSorts(ParsedPaths(members));
  }

  /** Every selected name occurs exactly when the projector finds all it looks for; then something is chosen. */
  lemma FoundIff(items: seq<Json>, ids: seq<string>)
    requires ids != []
    ensures (forall id :: id in Chosen(ids) ==> Seen(Kept(items), Some(id)))
      <==> forall id :: id in ids ==> exists i :: 0 <= i < |items| && NamedBy(items[i], id)
    ensures (forall id :: id in Chosen(ids) ==> Seen(Kept(items), Some(id)))
      ==> SelectedOf(Firsts(Kept(items)), Chosen(ids)) != []
  {
    hide NamedBy, Seen, Kept, Firsts, SelectedOf;
    forall id ensures id in Chosen(ids) <==> id in ids {}
    forall id: string
      ensures Seen(Kept(items), Some(id)) <==> exists i :: 0 <= i < |items| && NamedBy(items[i], id)
    {
      SeenIff(items, id);
    }
    if forall id :: id in Chosen(ids) ==> Seen(Kept(items), Some(id)) {
      var firsts := Firsts(Kept(items));
      assert ids[0] in Chosen(ids);
      FirstsSeen(Kept(items), Some(ids[0]));
      SelectingKeeps(firsts, Chosen(ids), ids[0]);
      SeenMeansNonempty(SelectedOf(firsts, Chosen(ids)), Some(ids[0]));
    }
  }

  /** Projection succeeds exactly when the selection names 1 to 1000 conversations without repeats,
      the members are distinct labelled files within the limits that read the same twice, every
      conversation is named or set aside, one name has one content and a mapping, every selected name
      occurs, and the selected conversations fit. */
  lemma ProjectsIff(members: seq<PathMember>, ids: seq<string>, limits: Limits, maxSelected: int, lib: Library)
    ensures ProjectResult(members, ids, limits, maxSelected, lib).Some? <==>
      && Supplied(members, ids, limits) && ReadTwice(members, limits, lib)
      && var items := ConversationsRead(members, lib);
      && |items| <= limits.maxConversations && Presentable(items)
      && (forall id :: id in ids ==> exists i :: 0 <= i < |items| && NamedBy(items[i], id))
      && |Encode(Arr(SelectedOf(Firsts(Kept(items)), Chosen(ids))))| <= maxSelected
  {
    hide PathsAccepted, SelectionAccepted, SortIndexed, ParsedPaths, ReadBytes, RootAccepted, Stable, ItemsRead;
    hide Projectable, Presentable, SelectedOf, Firsts, Kept, Encode, NamedBy, Seen, ProjectionOf, Supplied, ReadTwice;
    hide AllPathsLabelled, Chosen;
    SuppliedIff(members, ids, limits);
    if SelectionAccepted(ids) && PathsAccepted(members, limits) {
      SuppliedSome(members, ids, limits);
      var items := ConversationsRead(members, lib);
      ReadTwiceIff(members, limits, lib);
      PresentableIff(items, Chosen(ids), maxSelected);
      FoundIff(items, ids);
    }
  }

  // ----- beside aggregation ---------------------------------------------------------------------

  lemma ReadLabels(members: seq<PathMember>)
    ensures AllLabelled(MembersRead(members)) <==> AllPathsLabelled(members)
  {
    hide LabelIndex;
    var read := MembersRead(members);
    if AllLabelled(read) {
      forall i | 0 <= i < |members| ensures LabelIndex(members[i].name).Some? { assert LabelIndex(read[i].name).Some?; }
    }
  }

  lemma ReadIndices(members: seq<PathMember>, first: nat)
    requires AllPathsLabelled(members) && AllLabelled(MembersRead(members))
    ensures IndicesFrom(Parsed(MembersRead(members)), first) <==> IndicesFrom(ParsedPaths(members), first)
  {
    hide LabelIndex;
    var p, q := Parsed(MembersRead(members)), ParsedPaths(members);
    assert |p| == |q| && forall i :: 0 <= i < |p| ==> p[i].index == q[i].index;
    forall k: nat ensures HasIndex(p, k) <==> HasIndex(q, k) {}
  }

  lemma ReadRoots(members: seq<PathMember>, limits: Limits, lib: Library)
    requires forall i :: 0 <= i < |members| ==> RootAccepted(MembersRead(members)[i].bytes, limits, lib)
    ensures forall m :: m in members ==> RootAccepted(m.firstRead, limits, lib)
  {
    hide RootAccepted;
    forall m | m in members ensures RootAccepted(m.firstRead, limits, lib) {
      var i :| 0 <= i < |members| && members[i] == m;
      assert RootAccepted(MembersRead(members)[i].bytes, limits, lib);
    }
  }

  lemma {:induction false} AllKept(items: seq<Json>)
    requires AllNamed(items)
    ensures Kept(items) == items
  {
    hide NamedBy, Unnamed, Identityless;
    if items != [] {
      var front, last := items[..|items| - 1], items[|items| - 1];
      assert items == front + [last];
      AllKept(front);
      UnnamedIff(last);
      NamedIff(last);
    }
  }

  /** What aggregation of the bytes says of them. */
  lemma Aggregated(members: seq<PathMember>, limits: Limits, lib: Library)
    requires AggregateResult(MembersRead(members), limits, lib).Some?
    ensures 1 <= |members| <= limits.maxMembers && AllPathsLabelled(members)
    ensures TotalBytes(MembersRead(members)) <= limits.maxBytes
    ensures IndicesFrom(ParsedPaths(members), 0) || IndicesFrom(ParsedPaths(members), 1)
    ensures forall m :: m in members ==> RootAccepted(m.firstRead, limits, lib)
    ensures
      var items := ConversationsRead(members, lib);
      |items| <= limits.maxConversations && AllNamed(items) && NamesAgree(items)
  {
    hide SortIndexed, ParsedPaths, Parsed, ItemsRead, ItemsOf, LabelIndex, IndicesFrom, TotalBytes, NamesAgree;
    hide AllNamed, AggregateResult, RootAccepted, MembersAccepted, AllLabelled, AllPathsLabelled;
    var read := MembersRead(members);
    AggregatesIff(read, limits, lib);
    MembersAcceptedIff(read, limits);
    ReadLabels(members);
    ReadIndices(members, 0);
    ReadIndices(members, 1);
    ReadRoots(members, limits, lib);
    SameEntries(members, lib);
  }

  /** Where aggregation of the bytes succeeds, projection adds only its own demands: distinct files
      that read the same twice, mappings, selected names that occur, and room for what they select. */
  lemma AggregatedProjectsIff(members: seq<PathMember>, ids: seq<string>, limits: Limits, maxSelected: int,
      lib: Library)
    requires AggregateResult(MembersRead(members), limits, lib).Some?
    ensures AllPathsLabelled(members)
    ensures
      var items := ConversationsRead(members, lib);
      ProjectResult(members, ids, limits, maxSelected, lib).Some? <==>
        && 1 <= |ids| <= 1000 && Distinct(ids)
        && (forall id :: id in ids ==> exists i :: 0 <= i < |items| && NamedBy(items[i], id))
        && (forall m :: m in members ==> m.isFile && Stable(m, lib))
        && DistinctPaths(members) && DeclaredBytes(members) <= limits.maxBytes
        && (forall i, id :: FirstBearer(items, i, id) ==> HasMapping(items[i]))
        && |Encode(Arr(SelectedOf(Firsts(items), Chosen(ids))))| <= maxSelected
  {
    hide SortIndexed, ParsedPaths, ItemsRead, IndicesFrom, TotalBytes, DeclaredBytes, AllPathsLabelled, Encode, NamedBy;
    hide SelectedOf, Firsts, Kept, NamesAgree, FirstBearer, HasMapping, RootAccepted, ProjectResult, AggregateResult;
    hide Unnamed, Distinct, IsName, Chosen, MembersRead;
    Aggregated(members, limits, lib);
    ProjectsIff(members, ids, limits, maxSelected, lib);
    var items := ConversationsRead(members, lib);
    AllKept(items);
    forall id, i | 0 <= i < |items| && NamedBy(items[i], id) ensures IsName(id) { BearersNamed(items[i], id); }
  }

  lemma BearersNamed(v: Json, id: string)
    requires NamedBy(v, id)
    ensures IsName(id)
  {
  }
}
