/** How the sequential projector relates to the in-memory aggregator, and what
    aggregation does not depend on. */
module NumberedRefinement {
  import opened Outcomes
  import opened Json
  import opened JsonArrays
  import opened NumberedMembers
  import opened NumberedAggregation
  import opened NumberedProjection
  import opened NumberedProjector
  import opened ConversationMapping

  // ----- members without their identityless conversations ------------------------------

  /** `m` holds what is left of `p` once identityless conversations are removed. */
  ghost predicate Cleans(p: PathMember, m: Member, lib: Library)
  {
    p.name == m.name && lib.loadRoot(m.bytes) == Some(Kept(RootOf(p.firstRead, lib)))
  }

  ghost predicate AllCleaned(members: seq<PathMember>, clean: seq<Member>, lib: Library)
  {
    |members| == |clean| && forall i :: 0 <= i < |members| ==> Cleans(members[i], clean[i], lib)
  }

  ghost predicate EntryCleans(e: Indexed<PathMember>, c: Indexed<Member>, lib: Library)
  {
    e.index == c.index && Cleans(e.item, c.item, lib)
  }

  ghost predicate EntriesCleaned(es: seq<Indexed<PathMember>>, cs: seq<Indexed<Member>>, lib: Library)
  {
    |es| == |cs| && forall i :: 0 <= i < |es| ==> EntryCleans(es[i], cs[i], lib)
  }

  lemma EntriesCleanedCons(e: Indexed<PathMember>, c: Indexed<Member>,
                           es: seq<Indexed<PathMember>>, cs: seq<Indexed<Member>>, lib: Library)
    requires EntryCleans(e, c, lib) && EntriesCleaned(es, cs, lib)
    ensures EntriesCleaned([e] + es, [c] + cs, lib)
  {
    hide EntryCleans;
  }

  lemma {:induction false} InsertCleaned(e: Indexed<PathMember>, c: Indexed<Member>,
                                         es: seq<Indexed<PathMember>>, cs: seq<Indexed<Member>>, lib: Library)
    requires EntryCleans(e, c, lib) && EntriesCleaned(es, cs, lib)
    ensures EntriesCleaned(Insert(e, es), Insert(c, cs), lib)
  {
    hide Cleans;
    if es == [] || e.index <= es[0].index {
      EntriesCleanedCons(e, c, es, cs, lib);
    } else {
      InsertCleaned(e, c, es[1..], cs[1..], lib);
      EntriesCleanedCons(es[0], cs[0], Insert(e, es[1..]), Insert(c, cs[1..]), lib);
    }
  }

  lemma {:induction false} SortCleaned(es: seq<Indexed<PathMember>>, cs: seq<Indexed<Member>>, lib: Library)
    requires EntriesCleaned(es, cs, lib)
    ensures EntriesCleaned(SortIndexed(es), SortIndexed(cs), lib)
  {
    hide EntryCleans;
    if es != [] {
      SortCleaned(es[1..], cs[1..], lib);
      InsertCleaned(es[0], cs[0], SortIndexed(es[1..]), SortIndexed(cs[1..]), lib);
    }
  }

  lemma {:induction false} ItemsCleaned(es: seq<Indexed<PathMember>>, cs: seq<Indexed<Member>>, lib: Library)
    requires EntriesCleaned(es, cs, lib)
    ensures ItemsOf(cs, lib) == Kept(ItemsRead(es, lib))
  {
    hide Kept;
    if es == [] {
      EmptyReads(lib);
      assert Kept([]) == [] by { KeptLength([]); }
    } else {
      var n := |es| - 1;
      ItemsCleaned(es[..n], cs[..n], lib);
      ItemsReadSnoc(es, lib, n);
      assert es[..n + 1] == es;
      KeptConcat(ItemsRead(es[..n], lib), RootOf(es[n].item.firstRead, lib));
      assert EntryCleans(es[n], cs[n], lib);
    }
  }

  // ----- totals do not depend on the order ------------------------------------------------

  lemma {:induction false} TotalBytesConcat(a: seq<Member>, b: seq<Member>)
    ensures TotalBytes(a + b) == TotalBytes(a) + TotalBytes(b)
  {
    if b == [] {
      assert a + b == a;
    } else {
      var n := |b| - 1;
      assert (a + b)[..|a| + n] == a + b[..n];
      TotalBytesConcat(a, b[..n]);
    }
  }

  lemma {:induction false} ReadBytesConcat(a: seq<Indexed<PathMember>>, b: seq<Indexed<PathMember>>)
    ensures ReadBytes(a + b) == ReadBytes(a) + ReadBytes(b)
  {
    if b == [] {
      assert a + b == a;
    } else {
      var n := |b| - 1;
      assert (a + b)[..|a| + n] == a + b[..n];
      ReadBytesConcat(a, b[..n]);
    }
  }

  lemma ReadBytesCons(e: Indexed<PathMember>, s: seq<Indexed<PathMember>>)
    ensures ReadBytes([e] + s) == |e.item.firstRead| + ReadBytes(s)
  {
    ReadBytesConcat([e], s);
    assert [e][..0] == [];
  }

  lemma {:induction false} ReadBytesInsert(e: Indexed<PathMember>, s: seq<Indexed<PathMember>>)
    ensures ReadBytes(Insert(e, s)) == |e.item.firstRead| + ReadBytes(s)
  {
    if s == [] || e.index <= s[0].index {
      ReadBytesCons(e, s);
    } else {
      ReadBytesInsert(e, s[1..]);
      ReadBytesCons(s[0], Insert(e, s[1..]));
      ReadBytesCons(s[0], s[1..]);
      assert s == [s[0]] + s[1..];
    }
  }

  lemma {:induction false} ReadBytesSort(s: seq<Indexed<PathMember>>)
    ensures ReadBytes(SortIndexed(s)) == ReadBytes(s)
  {
    if s != [] {
      ReadBytesSort(s[1..]);
      ReadBytesInsert(s[0], SortIndexed(s[1..]));
      ReadBytesCons(s[0], s[1..]);
      assert s == [s[0]] + s[1..];
    }
  }

  // ----- with quarantine ----------------------------------------------------------------------

  /** The conversations add up, whatever was quarantined. */
  lemma ProjectionConserves(members: seq<PathMember>, ids: seq<string>, limits: Limits, maxSelected: int, lib: Library)
    requires ProjectResult(members, ids, limits, maxSelected, lib).Some?
    ensures
      var p := ProjectResult(members, ids, limits, maxSelected, lib).value;
      p.inputCount == p.outputCount + p.duplicateCount + p.quarantineCount
  {
    hide ItemsRead, Kept, Firsts, MemberSetHash, InventorySum, QuarantinedIndices, SelectedOf, Encode;
  }

  lemma ParsedCleaned(members: seq<PathMember>, clean: seq<Member>, lib: Library)
    requires AllCleaned(members, clean, lib) && AllPathsLabelled(members)
    ensures AllLabelled(clean)
    ensures EntriesCleaned(ParsedPaths(members), Parsed(clean), lib)
  {
    hide LabelIndex, Kept;
  }

  lemma {:induction false} KeptIsPart(items: seq<Json>, v: Json)
    requires v in Kept(items)
    ensures v in items
  {
    hide Identityless;
    if items != [] && v in Kept(items[..|items| - 1]) {
      KeptIsPart(items[..|items| - 1], v);
    }
  }

  lemma {:induction false} ItemDepthBound(xs: seq<Json>, d: nat)
    ensures ItemDepth(xs) <= d <==> forall x :: x in xs ==> Depth(x) <= d
  {
    if xs != [] {
      ItemDepthBound(xs[1..], d);
      assert forall x :: x in xs <==> x == xs[0] || x in xs[1..];
      assert ItemDepth(xs) == Max(Depth(xs[0]), ItemDepth(xs[1..]));
    }
  }

  lemma KeptDepth(root: seq<Json>)
    ensures Depth(Arr(Kept(root))) <= Depth(Arr(root))
  {
    hide Kept;
    ItemDepthBound(root, ItemDepth(root));
    ItemDepthBound(Kept(root), ItemDepth(root));
    forall v | v in Kept(root) ensures Depth(v) <= ItemDepth(root) {
      KeptIsPart(root, v);
    }
  }

  /** The aggregator accepts cleaned entries whenever the projector accepts the entries. */
  lemma EntriesRefine(es: seq<Indexed<PathMember>>, cs: seq<Indexed<Member>>, selected: set<string>,
                      limits: Limits, maxSelected: int, lib: Library)
    requires EntriesCleaned(es, cs, lib) && ReadsAccepted(es, selected, limits, maxSelected, lib)
    ensures EntriesAccepted(cs, limits, lib)
  {
    hide Kept, Firsts, Encode, SelectedOf, Depth, AllInventoried, ArraySize, ItemsRead, ItemsOf;
    ItemsCleaned(es, cs, lib);
    KeptLength(ItemsRead(es, lib));
    forall i | 0 <= i < |cs| ensures RootAccepted(cs[i].item.bytes, limits, lib) {
      assert EntryCleans(es[i], cs[i], lib);
      assert RootAccepted(es[i].item.firstRead, limits, lib);
      KeptDepth(RootOf(es[i].item.firstRead, lib));
    }
  }

  /** A successful projection has the aggregate hash and the output and duplicate counts
      of the aggregator run on members without their identityless conversations. */
  lemma ProjectionRefinesCleaned(members: seq<PathMember>, ids: seq<string>, limits: Limits, maxSelected: int,
                                 lib: Library, clean: seq<Member>)
    requires ProjectResult(members, ids, limits, maxSelected, lib).Some?
    requires lib.loadRoot([]) == None
    requires AllCleaned(members, clean, lib) && TotalBytes(clean) <= limits.maxBytes
    ensures AggregateResult(clean, limits, lib).Some?
    ensures
      var p := ProjectResult(members, ids, limits, maxSelected, lib).value;
      var a := AggregateResult(clean, limits, lib).value;
      a.sourceHash == p.sourceHash && a.outputCount == p.outputCount && a.duplicateCount == p.duplicateCount
  {
    hide ItemsRead, ItemsOf, Kept, Firsts, MemberSetHash, InventorySum, QuarantinedIndices, SelectedOf, Encode;
    hide LabelIndex, ReadsAccepted, EntriesAccepted, DistinctPaths, DeclaredBytes, TotalBytes, SelectionAccepted;
    var es, cs := ParsedPaths(members), Parsed(clean);
    ParsedCleaned(members, clean, lib);
    SortCleaned(es, cs, lib);
    ItemsCleaned(SortIndexed(es), SortIndexed(cs), lib);
    EntriesRefine(SortIndexed(es), SortIndexed(cs), Chosen(ids), limits, maxSelected, lib);
    ConsecutiveCleaned(SortIndexed(es), SortIndexed(cs), lib);
    forall i | 0 <= i < |clean| ensures clean[i].bytes != [] {
      assert Cleans(members[i], clean[i], lib);
    }
  }

  lemma ConsecutiveCleaned(es: seq<Indexed<PathMember>>, cs: seq<Indexed<Member>>, lib: Library)
    requires EntriesCleaned(es, cs, lib) && Consecutive(es)
    ensures Consecutive(cs)
  {
    hide Cleans;
    assert forall i :: 0 <= i < |es| ==> EntryCleans(es[i], cs[i], lib);
  }

  // ----- without quarantine ---------------------------------------------------------------------

  /** The members with the bytes that the projector read. */
  function MembersRead(members: seq<PathMember>): seq<Member>
  {
    seq(|members|, i requires 0 <= i < |members| => Member(members[i].name, members[i].firstRead))
  }

  lemma {:induction false} KeptAll(items: seq<Json>)
    requires |Kept(items)| == |items|
    ensures Kept(items) == items
  {
    if items != [] {
      var front := items[..|items| - 1];
      KeptLength(front);
      KeptAll(front);
      assert items == front + [items[|items| - 1]];
    }
  }

  lemma {:induction false} EachRootKept(es: seq<Indexed<PathMember>>, lib: Library, i: nat)
    requires |Kept(ItemsRead(es, lib))| == |ItemsRead(es, lib)| && i < |es|
    ensures Kept(RootOf(es[i].item.firstRead, lib)) == RootOf(es[i].item.firstRead, lib)
    decreases |es|
  {
    hide Kept;
    var n := |es| - 1;
    var front, root := ItemsRead(es[..n], lib), RootOf(es[n].item.firstRead, lib);
    ItemsReadSnoc(es, lib, n);
    assert es[..n + 1] == es;
    KeptConcat(front, root);
    KeptLength(front);
    KeptLength(root);
    if i == n {
      KeptAll(root);
    } else {
      EachRootKept(es[..n], lib, i);
    }
  }

  lemma SortKeeps(s: seq<Indexed<PathMember>>, e: Indexed<PathMember>)
    requires e in s
    ensures e in SortIndexed(s)
  {
    SortSorts(s);
    assert e in multiset(SortIndexed(s));
  }

  lemma {:induction false} TotalBytesRead(members: seq<PathMember>)
    requires AllPathsLabelled(members)
    ensures TotalBytes(MembersRead(members)) == ReadBytes(ParsedPaths(members))
  {
    hide LabelIndex;
    if members != [] {
      var n := |members| - 1;
      TotalBytesRead(members[..n]);
      assert MembersRead(members)[..n] == MembersRead(members[..n]);
      assert ParsedPaths(members)[..n] == ParsedPaths(members[..n]);
    }
  }

  lemma ReadEntries(es: seq<Indexed<PathMember>>, cs: seq<Indexed<Member>>, lib: Library)
    requires cs == AllAsRead(es)
    ensures ManifestsOf(cs, lib) == ManifestsOf(AllAsRead(es), lib) && ItemsOf(cs, lib) == ItemsRead(es, lib)
  {
  }

  lemma AllAsReadCons(e: Indexed<PathMember>, s: seq<Indexed<PathMember>>)
    ensures AllAsRead([e] + s) == [AsRead(e)] + AllAsRead(s)
    ensures AllAsRead([e] + s)[1..] == AllAsRead(s)
  {
    hide AsRead;
    var all, rest := AllAsRead([e] + s), AllAsRead(s);
    hide AllAsRead;
    assert all[0] == AsRead(e);
    forall i | 0 <= i < |s| ensures all[i + 1] == rest[i] { assert ([e] + s)[i + 1] == s[i]; }
    assert all == [AsRead(e)] + rest;
  }

  lemma {:induction false} InsertAsRead(e: Indexed<PathMember>, s: seq<Indexed<PathMember>>)
    ensures Insert(AsRead(e), AllAsRead(s)) == AllAsRead(Insert(e, s))
  {
    hide AllAsRead;
    if s == [] || e.index <= s[0].index {
      AllAsReadCons(e, s);
    } else {
      InsertAsRead(e, s[1..]);
      assert s == [s[0]] + s[1..];
      AllAsReadCons(s[0], s[1..]);
      AllAsReadCons(s[0], Insert(e, s[1..]));
    }
  }

  lemma {:induction false} SortAsRead(s: seq<Indexed<PathMember>>)
    ensures SortIndexed(AllAsRead(s)) == AllAsRead(SortIndexed(s))
  {
    if s == [] {
      assert AllAsRead(s) == [];
    } else {
      SortAsRead(s[1..]);
      assert AllAsRead(s)[1..] == AllAsRead(s[1..]);
      InsertAsRead(s[0], SortIndexed(s[1..]));
    }
  }

  /** When nothing was quarantined, the members as read are their own cleaned form. */
  lemma NothingQuarantined(members: seq<PathMember>, ids: seq<string>, limits: Limits, maxSelected: int, lib: Library)
    requires ProjectResult(members, ids, limits, maxSelected, lib).Some?
    requires ProjectResult(members, ids, limits, maxSelected, lib).value.quarantineCount == 0
    ensures AllCleaned(members, MembersRead(members), lib)
    ensures TotalBytes(MembersRead(members)) <= limits.maxBytes
  {
    hide ItemsRead, Kept, Firsts, MemberSetHash, InventorySum, QuarantinedIndices, SelectedOf, Encode;
    hide LabelIndex, Projectable;
    hide DistinctPaths, DeclaredBytes, SelectionAccepted, TotalBytes, Depth, Consecutive;
    var es := ParsedPaths(members);
    var sorted := SortIndexed(es);
    SortSorts(es);
    TotalBytesRead(members);
    ReadBytesSort(es);
    KeptLength(ItemsRead(sorted, lib));
    forall i | 0 <= i < |members| ensures Cleans(members[i], MembersRead(members)[i], lib) {
      SortKeeps(es, es[i]);
      var j :| 0 <= j < |sorted| && sorted[j] == es[i];
      EachRootKept(sorted, lib, j);
      assert RootAccepted(sorted[j].item.firstRead, limits, lib);
    }
  }

  /** If projection succeeds and nothing is quarantined, aggregation of the same bytes
      under the same limits succeeds with the same hashes, manifests and counts. */
  lemma ProjectionRefinesAggregation(members: seq<PathMember>, ids: seq<string>, limits: Limits, maxSelected: int,
      lib: Library)
    requires ProjectResult(members, ids, limits, maxSelected, lib).Some?
    requires ProjectResult(members, ids, limits, maxSelected, lib).value.quarantineCount == 0
    requires lib.loadRoot([]) == None
    ensures AggregateResult(MembersRead(members), limits, lib).Some?
    ensures
      var p := ProjectResult(members, ids, limits, maxSelected, lib).value;
      var a := AggregateResult(MembersRead(members), limits, lib).value;
      && a.sourceHash == p.sourceHash && a.memberSetHash == p.memberSetHash && a.members == p.members
      && a.inputCount == p.inputCount && a.outputCount == p.outputCount && a.duplicateCount == p.duplicateCount
  {
    hide ItemsRead, ItemsOf, Kept, Firsts, MemberSetHash, InventorySum, QuarantinedIndices, SelectedOf, Encode;
    hide LabelIndex, EntriesProjected, SelectionAccepted, EntriesAccepted, ManifestsOf, TotalBytes, DeclaredBytes;
    hide DistinctPaths, SortIndexed, MembersRead, AllAsRead, AllLabelled, Parsed, ParsedPaths, Consecutive;
    NothingQuarantined(members, ids, limits, maxSelected, lib);
    ProjectionRefinesCleaned(members, ids, limits, maxSelected, lib, MembersRead(members));
    SameEntries(members, lib);
  }

  /** The aggregator's entries are the projector's, as read. */
  lemma SameEntries(members: seq<PathMember>, lib: Library)
    requires AllPathsLabelled(members)
    ensures AllLabelled(MembersRead(members))
    ensures
      var es := SortIndexed(ParsedPaths(members));
      && SortIndexed(Parsed(MembersRead(members))) == AllAsRead(es)
      && ItemsOf(SortIndexed(Parsed(MembersRead(members))), lib) == ItemsRead(es, lib)
  {
    hide LabelIndex, ItemsRead, ItemsOf, SortIndexed;
    var es := ParsedPaths(members);
    assert Parsed(MembersRead(members)) == AllAsRead(es);
    SortAsRead(es);
    ReadEntries(SortIndexed(es), AllAsRead(SortIndexed(es)), lib);
  }

  // ----- aggregation is free of the order of its members --------------------------------------

  lemma ParsedRemove(s: seq<Member>, j: nat)
    requires j < |s| && AllLabelled(s)
    ensures
      var rest := s[..j] + s[j + 1..];
      && AllLabelled(rest)
      && multiset(Parsed(s)) == multiset(Parsed(rest)) + multiset{Indexed(LabelIndex(s[j].name).value, s[j])}
      && TotalBytes(s) == TotalBytes(rest) + |s[j].bytes|
  {
    hide LabelIndex, TotalBytes;
    var a, b := s[..j], s[j + 1..];
    assert s == (a + [s[j]]) + b;
    assert Parsed(s) == Parsed(a) + [Indexed(LabelIndex(s[j].name).value, s[j])] + Parsed(b);
    assert Parsed(a + b) == Parsed(a) + Parsed(b);
    TotalBytesConcat(a + [s[j]], b);
    TotalBytesConcat(a, [s[j]]);
    TotalBytesConcat(a, b);
    TotalBytesOne(s[j]);
  }

  lemma TotalBytesOne(m: Member)
    ensures TotalBytes([m]) == |m.bytes|
  {
    assert [m][..0] == [];
  }

  lemma RemoveOne<T>(s: seq<T>, j: nat)
    requires j < |s|
    ensures multiset(s[..j] + s[j + 1..]) == multiset(s) - multiset{s[j]}
    ensures |s[..j] + s[j + 1..]| == |s| - 1
  {
    assert s == s[..j] + [s[j]] + s[j + 1..];
  }

  lemma PermutedLabels(s: seq<Member>, t: seq<Member>)
    requires multiset(s) == multiset(t) && AllLabelled(s)
    ensures |s| == |t| && AllLabelled(t)
  {
    hide LabelIndex;
    assert |s| == |multiset(s)| && |t| == |multiset(t)|;
    forall i | 0 <= i < |t| ensures LabelIndex(t[i].name).Some? {
      assert t[i] in multiset(s);
    }
  }

  lemma {:induction false} PermutedParsed(s: seq<Member>, t: seq<Member>)
    requires multiset(s) == multiset(t) && AllLabelled(s)
    ensures |s| == |t| && AllLabelled(t)
    ensures multiset(Parsed(s)) == multiset(Parsed(t)) && TotalBytes(s) == TotalBytes(t)
    decreases |s|
  {
    hide LabelIndex, TotalBytes, Parsed, AllLabelled;
    PermutedLabels(s, t);
    if s == [] {
      assert t == s;
    } else {
      var n := |s| - 1;
      assert s[n] in multiset(t);
      var j :| 0 <= j < |t| && t[j] == s[n];
      var front, rest := s[..n] + s[n + 1..], t[..j] + t[j + 1..];
      RemoveOne(s, n);
      RemoveOne(t, j);
      ParsedRemove(s, n);
      ParsedRemove(t, j);
      PermutedParsed(front, rest);
    }
  }

  lemma PermutedAccepted(s: seq<Member>, t: seq<Member>, limits: Limits)
    requires multiset(s) == multiset(t) && MembersAccepted(s, limits)
    ensures MembersAccepted(t, limits) && SortIndexed(Parsed(t)) == SortIndexed(Parsed(s))
  {
    hide LabelIndex, TotalBytes, SortIndexed, Consecutive;
    PermutedParsed(s, t);
    SortIsOrderFree(Parsed(s), Parsed(t));
    forall i | 0 <= i < |t| ensures t[i].bytes != [] {
      assert t[i] in multiset(s);
    }
  }

  /** The members may be supplied in any order. */
  lemma AggregationIsOrderFree(s: seq<Member>, t: seq<Member>, limits: Limits, lib: Library)
    requires multiset(s) == multiset(t)
    ensures AggregateResult(s, limits, lib) == AggregateResult(t, limits, lib)
  {
    hide MembersAccepted, EntriesAccepted, AggregationOf, SortIndexed, Parsed;
    if MembersAccepted(s, limits) {
      PermutedAccepted(s, t, limits);
    } else if MembersAccepted(t, limits) {
      PermutedAccepted(t, s, limits);
    }
  }

  /** Members are aggregated only when their indices are 0..n-1 or 1..n. */
  lemma AggregatedIndices(members: seq<Member>, limits: Limits, lib: Library)
    requires AggregateResult(members, limits, lib).Some?
    ensures AllLabelled(members)
    ensures IndicesFrom(Parsed(members), 0) || IndicesFrom(Parsed(members), 1)
  {
    hide LabelIndex, Consecutive, TotalBytes, EntriesAccepted, HasIndex;
    ConsecutiveIndexSet(Parsed(members));
  }

  // ----- aggregating the aggregate ----------------------------------------------------------------

  ghost predicate DistinctIdentities(items: seq<Json>)
  {
    forall i, j :: 0 <= i < j < |items| ==> ConversationId(items[i]) != ConversationId(items[j])
  }

  lemma {:induction false} FirstsDistinct(items: seq<Json>)
    ensures DistinctIdentities(Firsts(items))
  {
    hide ConversationId, Seen;
    if items != [] {
      var front, last := items[..|items| - 1], items[|items| - 1];
      FirstsDistinct(front);
      FirstsSeen(front, ConversationId(last));
      if !Seen(front, ConversationId(last)) {
        NotSeen(Firsts(front), ConversationId(last));
      }
    }
  }

  lemma NotSeen(items: seq<Json>, id: Option<string>)
    requires !Seen(items, id)
    ensures forall i :: 0 <= i < |items| ==> ConversationId(items[i]) != id
  {
    hide ConversationId;
  }

  lemma {:induction false} FirstsOfDistinct(items: seq<Json>)
    requires DistinctIdentities(items)
    ensures Firsts(items) == items
  {
    hide ConversationId;
    if items != [] {
      var front, last := items[..|items| - 1], items[|items| - 1];
      assert items == front + [last];
      assert forall i :: 0 <= i < |front| ==> front[i] == items[i];
      FirstsOfDistinct(front);
    }
  }

  lemma FirstsAccepted(items: seq<Json>)
    requires AllIdentified(items)
    ensures AllIdentified(Firsts(items)) && NoConflict(Firsts(items))
    ensures Firsts(Firsts(items)) == Firsts(items)
  {
    hide ConversationId, Encode, Firsts;
    FirstsDistinct(items);
    FirstsOfDistinct(Firsts(items));
    forall i | 0 <= i < |Firsts(items)| ensures ConversationId(Firsts(items)[i]).Some? {
      FirstsAreItems(items, i);
    }
  }

  lemma {:induction false} ItemsFromRoots(entries: seq<Indexed<Member>>, lib: Library, v: Json)
    requires v in ItemsOf(entries, lib)
    ensures exists i :: 0 <= i < |entries| && v in RootOf(entries[i].item.bytes, lib)
  {
    hide RootOf;
    var n := |entries| - 1;
    if v in ItemsOf(entries[..n], lib) {
      ItemsFromRoots(entries[..n], lib, v);
      var i :| 0 <= i < n && v in RootOf(entries[..n][i].item.bytes, lib);
      assert entries[..n][i] == entries[i];
    } else {
      assert v in RootOf(entries[n].item.bytes, lib);
    }
  }

  /** The aggregate nests no deeper than the members did. */
  lemma AggregateDepth(entries: seq<Indexed<Member>>, limits: Limits, lib: Library)
    requires entries != [] && EntriesAccepted(entries, limits, lib)
    ensures Depth(Arr(Firsts(ItemsOf(entries, lib)))) <= limits.maxDepth
  {
    hide ItemsOf, Firsts, AllIdentified, NoConflict;
    var firsts := Firsts(ItemsOf(entries, lib));
    assert RootAccepted(entries[0].item.bytes, limits, lib);
    var bound: nat := limits.maxDepth - 1;
    forall v | v in firsts ensures Depth(v) <= bound {
      var j :| 0 <= j < |firsts| && firsts[j] == v;
      FirstsAreItems(ItemsOf(entries, lib), j);
      ItemsFromRoots(entries, lib, v);
      var i :| 0 <= i < |entries| && v in RootOf(entries[i].item.bytes, lib);
      assert RootAccepted(entries[i].item.bytes, limits, lib);
      ItemDepthBound(RootOf(entries[i].item.bytes, lib), bound);
    }
    ItemDepthBound(firsts, bound);
  }

  lemma OneMember(m: Member, index: nat)
    requires LabelIndex(m.name) == Some(index) && index <= 1
    ensures AllLabelled([m]) && SortIndexed(Parsed([m])) == [Indexed(index, m)]
    ensures Consecutive(SortIndexed(Parsed([m])))
  {
    hide LabelIndex;
    var e := Indexed(index, m);
    assert Parsed([m]) == [e];
    assert [e][1..] == [];
    assert SortIndexed([e]) == Insert(e, []) == [e];
  }

  lemma OneItems(e: Indexed<Member>, lib: Library)
    ensures ItemsOf([e], lib) == RootOf(e.item.bytes, lib)
  {
    assert [e][..0] == [];
  }

  /** Aggregating an aggregate as a single member succeeds exactly when its bytes are
      within the byte limit, and then reproduces them without duplicates, provided that
      the loader undoes the printer on them. */
  lemma Reaggregation(members: seq<Member>, limits: Limits, lib: Library, name: string)
    requires AggregateResult(members, limits, lib).Some?
    requires LabelIndex(name) == Some(0) || LabelIndex(name) == Some(1)
    requires
      var items := ItemsOf(SortIndexed(Parsed(members)), lib);
      lib.loadRoot(Encode(Arr(Firsts(items)))) == Some(Firsts(items))
    ensures
      var a := AggregateResult(members, limits, lib).value;
      var again := AggregateResult([Member(name, a.bytes)], limits, lib);
      && (again.Some? <==> |a.bytes| <= limits.maxBytes)
      && (again.Some? ==>
            && again.value.bytes == a.bytes && again.value.sourceHash == a.sourceHash
            && again.value.duplicateCount == 0 && again.value.outputCount == a.outputCount)
  {
    hide LabelIndex, Firsts, Encode, SortIndexed, Parsed, Depth, ItemsOf, MemberSetHash, TotalBytes, ManifestsOf;
    hide AllIdentified, NoConflict, Consecutive;
    var entries := SortIndexed(Parsed(members));
    var items := ItemsOf(entries, lib);
    var firsts := Firsts(items);
    var a := AggregateResult(members, limits, lib).value;
    var m := Member(name, a.bytes);
    var index := LabelIndex(name).value;
    SortSorts(Parsed(members));
    ParsedLength(members);
    OneMember(m, index);
    OneItems(Indexed(index, m), lib);
    FirstsAccepted(items);
    FirstsLength(items);
    AggregateDepth(entries, limits, lib);
    TotalBytesOne(m);
    ArrayEncoding(firsts);
  }

  lemma ParsedLength(members: seq<Member>)
    requires AllLabelled(members)
    ensures |Parsed(members)| == |members|
  {
  }

  // ----- the selected output --------------------------------------------------------------------------

  /** `chosen` appear among `firsts`, in the same order. */
  predicate Subsequence(chosen: seq<Json>, firsts: seq<Json>)
  {
    if chosen == [] then true
    else if firsts == [] then false
    else
      var c, f := |chosen| - 1, |firsts| - 1;
      (chosen[c] == firsts[f] && Subsequence(chosen[..c], firsts[..f])) || Subsequence(chosen, firsts[..f])
  }

  lemma SubsequenceSnoc(chosen: seq<Json>, firsts: seq<Json>, last: Json)
    requires Subsequence(chosen, firsts)
    ensures Subsequence(chosen, firsts + [last]) && Subsequence(chosen + [last], firsts + [last])
  {
    assert (firsts + [last])[..|firsts|] == firsts && (chosen + [last])[..|chosen|] == chosen;
  }

  /** Selecting keeps the order and exactly the selected identities. */
  lemma {:induction false} SelectingKeeps(firsts: seq<Json>, selected: set<string>, id: string)
    ensures Subsequence(SelectedOf(firsts, selected), firsts)
    ensures Seen(SelectedOf(firsts, selected), Some(id)) <==> id in selected && Seen(firsts, Some(id))
    ensures forall a :: 0 <= a < |SelectedOf(firsts, selected)| ==>
      && ConversationId(SelectedOf(firsts, selected)[a]).Some?
      && ConversationId(SelectedOf(firsts, selected)[a]).value in selected
  {
    hide ConversationId, Seen, Subsequence;
    if firsts == [] {
      assert Subsequence([], firsts) by { NoneIsSubsequence(firsts); }
      NothingSeen(Some(id));
    } else {
      var front, last := firsts[..|firsts| - 1], firsts[|firsts| - 1];
      assert firsts == front + [last];
      SelectingKeeps(front, selected, id);
      SelectedSnoc(front, last, selected);
      var chosen := SelectedOf(front, selected);
      SubsequenceSnoc(chosen, front, last);
      SeenSnoc(chosen, last, Some(id));
      SeenSnoc(front, last, Some(id));
    }
  }

  lemma NoneIsSubsequence(firsts: seq<Json>)
    ensures Subsequence([], firsts)
  {
  }

  lemma NothingSeen(id: Option<string>)
    ensures !Seen([], id)
  {
  }

  /** The selected output of a projection is the canonical array of exactly the selected
      conversations, one for each selected identity, in first-occurrence order; its tracked
      size is its length, and that is within the limit. */
  lemma SelectedOutput(members: seq<PathMember>, ids: seq<string>, limits: Limits, maxSelected: int, lib: Library)
    requires ProjectResult(members, ids, limits, maxSelected, lib).Some?
    ensures AllPathsLabelled(members)
    ensures
      var p := ProjectResult(members, ids, limits, maxSelected, lib).value;
      var firsts := Firsts(Kept(ItemsRead(SortIndexed(ParsedPaths(members)), lib)));
      var chosen := SelectedOf(firsts, Chosen(ids));
      && p.selectedBytes == Encode(Arr(chosen)) && p.selectedHash == lib.sha256(p.selectedBytes)
      && |p.selectedBytes| == ArraySize(EncodeAll(chosen)) <= maxSelected
      && DistinctIdentities(firsts) && Subsequence(chosen, firsts)
      && (forall id :: Seen(chosen, Some(id)) <==> id in ids)
      && (forall a :: 0 <= a < |chosen| ==> ConversationId(chosen[a]).Some? && ConversationId(chosen[a]).value in ids)
  {
    hide SortIndexed, ParsedPaths, ItemsRead, Firsts, Kept, SelectedOf, Encode, EncodeAll, Join, ConversationId;
    hide MemberSetHash, ManifestsOf, InventorySum, QuarantinedIndices, Seen, DistinctIdentities, Subsequence;
    hide Stable, Identifier;
    var items := ItemsRead(SortIndexed(ParsedPaths(members)), lib);
    var firsts := Firsts(Kept(items));
    var chosen := SelectedOf(firsts, Chosen(ids));
    FirstsDistinct(Kept(items));
    forall id: string ensures Seen(chosen, Some(id)) <==> id in ids {
      SelectingKeeps(firsts, Chosen(ids), id);
      FirstsSeen(Kept(items), Some(id));
      assert id in Chosen(ids) <==> id in ids;
    }
    SelectingKeeps(firsts, Chosen(ids), ids[0]);
    assert chosen != [] by { assert Seen(chosen, Some(ids[0])); SeenMeansNonempty(chosen, Some(ids[0])); }
    ArrayEncoding(chosen);
  }

  lemma SeenMeansNonempty(items: seq<Json>, id: Option<string>)
    requires Seen(items, id)
    ensures items != []
  {
    hide ConversationId;
  }
}
