/** Which conversations are one and the same (src/doll/chatgpt_export_import.py,
    src/doll/chatgpt_numbered_aggregation.py), said of the raw fields, and what aggregation
    makes of it. */
module NumberedIdentity {
  import opened Outcomes
  import opened Json
  import opened JsonText
  import opened NumberedMembers
  import opened NumberedAggregation
  import NumberedRefinement
  import opened ConversationMessages

  // ----- names --------------------------------------------------------------------------

  /** The conversation bears one of the two identity fields or both, and whichever it bears
      holds this name. */
  predicate NamedBy(v: Json, id: string)
  {
    && v.Obj? && IsName(id)
    && !(Vacant(v.fields, "id") && Vacant(v.fields, "conversation_id"))
    && (Vacant(v.fields, "id") || v.fields["id"] == Str(id))
    && (Vacant(v.fields, "conversation_id") || v.fields["conversation_id"] == Str(id))
  }

  /** The identity that the program reads is the name in the raw fields. */
  lemma IdentityIff(v: Json, id: string)
    ensures ConversationId(v) == Some(id) <==> NamedBy(v, id)
  {
  }

  lemma NamedOnce(v: Json, a: string, b: string)
    requires NamedBy(v, a) && NamedBy(v, b)
    ensures a == b
  {
  }

  // ----- aggregation -----------------------------------------------------------------------

  /** All conversations of the members, in index order. */
  function Conversations(members: seq<Member>, lib: Library): seq<Json>
    requires AllLabelled(members)
  {
    ItemsOf(SortIndexed(Parsed(members)), lib)
  }

  /** The first stage accepts exactly a bounded number of labelled members, none of them empty, of a
      bounded size together, whose indices are 0..n-1 or 1..n. */
  lemma MembersAcceptedIff(members: seq<Member>, limits: Limits)
    ensures MembersAccepted(members, limits) <==>
      && 1 <= |members| <= limits.maxMembers && TotalBytes(members) <= limits.maxBytes
      && AllLabelled(members) && (forall m :: m in members ==> |m.bytes| > 0)
      && (IndicesFrom(Parsed(members), 0) || IndicesFrom(Parsed(members), 1))
  {
    hide LabelIndex, Consecutive, SortIndexed, IndicesFrom, TotalBytes;
    forall i | 0 <= i < |members| ensures members[i] in members {}
    if AllLabelled(members) { ConsecutiveIff(Parsed(members)); }
  }

  /** Everything that aggregation demands before it looks at names. */
  ghost predicate Readable(members: seq<Member>, limits: Limits, lib: Library)
  {
    && MembersAccepted(members, limits)
    && (forall i :: 0 <= i < |members| ==> RootAccepted(members[i].bytes, limits, lib))
    && |Conversations(members, lib)| <= limits.maxConversations
  }

  ghost predicate Named(v: Json)
  {
    exists id :: NamedBy(v, id)
  }

  ghost predicate AllNamed(items: seq<Json>)
  {
    forall i :: 0 <= i < |items| ==> Named(items[i])
  }

  /** Conversations with one name have the same canonical bytes. */
  ghost predicate NamesAgree(items: seq<Json>)
  {
    forall i, j, id :: 0 <= i < j < |items| && NamedBy(items[i], id) && NamedBy(items[j], id) ==>
      Encode(items[i]) == Encode(items[j])
  }

  lemma NamedMeans(items: seq<Json>)
    ensures AllIdentified(items) <==> AllNamed(items)
    ensures AllNamed(items) ==> (NoConflict(items) <==> NamesAgree(items))
  {
    hide NamedBy, ConversationId, Encode, Named;
    forall i | 0 <= i < |items| ensures ConversationId(items[i]).Some? <==> Named(items[i]) { NamedIff(items[i]); }
    if AllNamed(items) && NamesAgree(items) {
      forall i, j | 0 <= i < j < |items| && ConversationId(items[i]) == ConversationId(items[j])
        ensures Encode(items[i]) == Encode(items[j])
      {
        IdentityIff(items[i], ConversationId(items[i]).value);
        IdentityIff(items[j], ConversationId(items[j]).value);
      }
    }
    if NoConflict(items) {
      forall i, j, id | 0 <= i < j < |items| && NamedBy(items[i], id) && NamedBy(items[j], id)
        ensures Encode(items[i]) == Encode(items[j])
      {
        IdentityIff(items[i], id);
        IdentityIff(items[j], id);
      }
    }
  }

  lemma NamedIff(v: Json)
    ensures ConversationId(v).Some? <==> Named(v)
  {
    hide NamedBy, ConversationId;
    if ConversationId(v).Some? { IdentityIff(v, ConversationId(v).value); }
    if Named(v) {
      var id :| NamedBy(v, id);
      IdentityIff(v, id);
    }
  }

  lemma RootsAccepted(members: seq<Member>, limits: Limits, lib: Library)
    requires MembersAccepted(members, limits)
    ensures
      var entries := SortIndexed(Parsed(members));
      (forall i :: 0 <= i < |members| ==> RootAccepted(members[i].bytes, limits, lib))
      <==> forall i :: 0 <= i < |entries| ==> RootAccepted(entries[i].item.bytes, limits, lib)
  {
    hide LabelIndex, Consecutive, SortIndexed, RootAccepted, TotalBytes;
    var parsed := Parsed(members);
    var entries := SortIndexed(parsed);
    SortSorts(parsed);
    if forall i :: 0 <= i < |members| ==> RootAccepted(members[i].bytes, limits, lib) {
      forall i | 0 <= i < |entries| ensures RootAccepted(entries[i].item.bytes, limits, lib) {
        assert entries[i] in multiset(parsed);
        var k :| 0 <= k < |parsed| && parsed[k] == entries[i];
      }
    }
    if forall i :: 0 <= i < |entries| ==> RootAccepted(entries[i].item.bytes, limits, lib) {
      forall i | 0 <= i < |members| ensures RootAccepted(members[i].bytes, limits, lib) {
        assert parsed[i] in multiset(entries);
        var k :| 0 <= k < |entries| && entries[k] == parsed[i];
      }
    }
  }

  /** Aggregation succeeds exactly when, beside the limits, every conversation has a name and those
      with one name agree. */
  lemma AggregatesIff(members: seq<Member>, limits: Limits, lib: Library)
    ensures AggregateResult(members, limits, lib).Some? <==>
      && Readable(members, limits, lib)
      && AllNamed(Conversations(members, lib)) && NamesAgree(Conversations(members, lib))
  {
    hide AllNamed, NamesAgree, AllIdentified, NoConflict, AggregationOf, RootAccepted, ItemsOf, SortIndexed;
    hide LabelIndex, TotalBytes;
    if MembersAccepted(members, limits) {
      RootsAccepted(members, limits, lib);
      NamedMeans(Conversations(members, lib));
      SortSorts(Parsed(members));
    }
  }

  /** Members whose conversations have pairwise different names are aggregated without loss. */
  lemma DistinctNamesKept(members: seq<Member>, limits: Limits, lib: Library, ids: seq<string>)
    requires Readable(members, limits, lib)
    requires
      var items := Conversations(members, lib);
      && |ids| == |items| && (forall i :: 0 <= i < |ids| ==> NamedBy(items[i], ids[i]))
      && (forall i, j :: 0 <= i < j < |ids| ==> ids[i] != ids[j])
    ensures
      var items := Conversations(members, lib);
      var r := AggregateResult(members, limits, lib);
      && r.Some? && r.value.bytes == Encode(Arr(items))
      && r.value.inputCount == r.value.outputCount == |items| && r.value.duplicateCount == 0
  {
    hide NamedBy, ItemsOf, SortIndexed, ConversationId, Encode, Firsts, LabelIndex, RootAccepted, TotalBytes;
    hide Consecutive;
    var items := Conversations(members, lib);
    forall i | 0 <= i < |items| ensures ConversationId(items[i]) == Some(ids[i]) { IdentityIff(items[i], ids[i]); }
    forall i | 0 <= i < |items| ensures Named(items[i]) { assert NamedBy(items[i], ids[i]); }
    forall i, j, id | 0 <= i < j < |items| ensures !(NamedBy(items[i], id) && NamedBy(items[j], id)) {
      if NamedBy(items[i], id) { NamedOnce(items[i], id, ids[i]); }
      if NamedBy(items[j], id) { NamedOnce(items[j], id, ids[j]); }
    }
    AggregatesIff(members, limits, lib);
    NumberedRefinement.FirstsOfDistinct(items);
  }

  /** Two conversations of one name are refused as a conflict or counted as duplicates. */
  lemma RepeatedName(members: seq<Member>, limits: Limits, lib: Library, i: nat, j: nat, id: string)
    requires AggregateResult(members, limits, lib).Some? && i < j < |Conversations(members, lib)|
    requires NamedBy(Conversations(members, lib)[i], id) && NamedBy(Conversations(members, lib)[j], id)
    ensures Encode(Conversations(members, lib)[i]) == Encode(Conversations(members, lib)[j])
    ensures AggregateResult(members, limits, lib).value.duplicateCount >= 1
  {
    hide NamedBy, ItemsOf, SortIndexed, ConversationId, Encode, Firsts, LabelIndex, RootAccepted, TotalBytes;
    hide Consecutive;
    var items := Conversations(members, lib);
    AggregatesIff(members, limits, lib);
    IdentityIff(items[i], id);
    IdentityIff(items[j], id);
    RepeatShortens(items, i, j);
  }

  lemma {:induction false} RepeatShortens(items: seq<Json>, i: nat, j: nat)
    requires i < j < |items| && ConversationId(items[i]) == ConversationId(items[j])
    ensures |Firsts(items)| < |items|
    decreases |items|
  {
    hide ConversationId;
    var front, last := items[..|items| - 1], items[|items| - 1];
    if j == |items| - 1 {
      assert front[i] == items[i] && Seen(front, ConversationId(last));
      FirstsLength(front);
    } else {
      RepeatShortens(front, i, j);
    }
  }

  /** Every name that occurs is in the output once, as the first conversation that bears it. */
  lemma OutputHasName(members: seq<Member>, limits: Limits, lib: Library, i: nat, id: string)
    returns (k: nat)
    requires AggregateResult(members, limits, lib).Some? && i < |Conversations(members, lib)|
    requires NamedBy(Conversations(members, lib)[i], id)
    requires forall j :: 0 <= j < i ==> !NamedBy(Conversations(members, lib)[j], id)
    ensures
      var out := Firsts(Conversations(members, lib));
      && AggregateResult(members, limits, lib).value.bytes == Encode(Arr(out))
      && k < |out| && out[k] == Conversations(members, lib)[i]
      && forall l :: 0 <= l < |out| && l != k ==> !NamedBy(out[l], id)
  {
    hide NamedBy, ItemsOf, SortIndexed, ConversationId, Encode, Firsts, LabelIndex, RootAccepted, TotalBytes;
    hide Consecutive, EntriesAccepted;
    var items := Conversations(members, lib);
    var out := Firsts(items);
    IdentityIff(items[i], id);
    forall j | 0 <= j < i ensures ConversationId(items[j]) != Some(id) { IdentityIff(items[j], id); }
    k := FirstIsKept(items, i);
    NumberedRefinement.FirstsDistinct(items);
    forall l | 0 <= l < |out| && l != k ensures !NamedBy(out[l], id) {
      IdentityIff(out[l], id);
      if l < k { assert ConversationId(out[l]) != ConversationId(out[k]); }
    }
  }

  lemma {:induction false} FirstIsKept(items: seq<Json>, i: nat) returns (k: nat)
    requires i < |items| && forall j :: 0 <= j < i ==> ConversationId(items[j]) != ConversationId(items[i])
    ensures k < |Firsts(items)| && Firsts(items)[k] == items[i]
    decreases |items|
  {
    hide ConversationId;
    var front, last := items[..|items| - 1], items[|items| - 1];
    if i == |items| - 1 {
      k := |Firsts(front)|;
    } else {
      k := FirstIsKept(front, i);
    }
  }

  // ----- labels ------------------------------------------------------------------------------

  /** A label is the text around some digits, and its index is the number they stand for. */
  lemma LabelIff(name: string, n: nat)
    ensures LabelIndex(name) == Some(n) <==>
      exists digits :: IsLabel(name, digits) && NatValue(digits) == n
  {
    hide NatValue;
    var p, q := |"conversations-"|, |name| - |".json"|;
    if LabelIndex(name).Some? {
      var digits := name[p..q];
      assert name == name[..p] + digits + name[q..];
      assert forall i :: 0 <= i < |digits| ==> digits[i] == name[p + i];
      assert IsLabel(name, digits);
    }
    if digits :| IsLabel(name, digits) {
      assert name[..p] == "conversations-" && name[p..q] == digits && name[q..] == ".json";
      assert forall i :: p <= i < q ==> name[i] == digits[i - p];
    }
  }

  predicate IsLabel(name: string, digits: string)
  {
    IsDigits(digits) && name == "conversations-" + digits + ".json"
  }

  // ----- nesting ------------------------------------------------------------------------------

  /** One value lies directly in another. */
  predicate Within(inner: Json, outer: Json)
  {
    || (outer.Arr? && inner in outer.items)
    || (outer.Obj? && exists k :: k in outer.fields && outer.fields[k] == inner)
  }

  /** A chain of values, each directly in the one before. */
  ghost predicate Chain(chain: seq<Json>)
  {
    chain != [] && forall i :: 0 <= i < |chain| - 1 ==> Within(chain[i + 1], chain[i])
  }

  lemma InnerIsShallower(inner: Json, outer: Json)
    requires Within(inner, outer)
    ensures Depth(inner) < Depth(outer)
  {
    hide Texts.Sorted;
    if outer.Arr? {
      var i :| 0 <= i < |outer.items| && outer.items[i] == inner;
      ItemIsShallower(outer.items, i);
    } else {
      var k :| k in outer.fields && outer.fields[k] == inner;
      Texts.SortedProperties(outer.fields.Keys);
      var keys := Texts.Sorted(outer.fields.Keys);
      var i :| 0 <= i < |keys| && keys[i] == k;
      FieldIsShallower(outer, keys, i);
    }
  }

  lemma {:induction false} ItemIsShallower(xs: seq<Json>, i: nat)
    requires i < |xs|
    ensures Depth(xs[i]) <= ItemDepth(xs)
  {
    hide Depth;
    if i > 0 { ItemIsShallower(xs[1..], i - 1); }
  }

  lemma {:induction false} FieldIsShallower(o: Json, keys: seq<string>, i: nat)
    requires o.Obj? && i < |keys| && forall k :: k in keys ==> k in o.fields
    ensures Depth(o.fields[keys[i]]) <= FieldDepth(o, keys)
    decreases |keys|
  {
    hide Depth;
    if i > 0 { FieldIsShallower(o, keys[1..], i - 1); }
  }

  /** No chain is longer than the depth of the value it starts from. */
  lemma {:induction false} ChainsFit(chain: seq<Json>)
    requires Chain(chain)
    ensures |chain| <= Depth(chain[0])
    decreases |chain|
  {
    hide Within;
    if |chain| == 1 {
      hide FieldDepth, ItemDepth;
    } else {
      hide Depth;
      var rest := chain[1..];
      forall i | 0 <= i < |rest| - 1 ensures Within(rest[i + 1], rest[i]) {
        assert rest[i + 1] == chain[i + 2] && rest[i] == chain[i + 1] && Within(chain[(i + 1) + 1], chain[i + 1]);
      }
      assert Within(chain[0 + 1], chain[0]);
      ChainsFit(chain[1..]);
      InnerIsShallower(chain[1], chain[0]);
    }
  }

  /** And some chain reaches it. */
  lemma {:induction false} DeepestChain(v: Json) returns (chain: seq<Json>)
    ensures Chain(chain) && chain[0] == v && |chain| == Depth(v)
    decreases v, 1, 0
  {
    hide Texts.Sorted;
    chain := [v];
    if v.Arr? && v.items != [] {
      var inner := DeepestItem(v.items);
      chain := [v] + inner;
    } else if v.Obj? {
      Texts.SortedProperties(v.fields.Keys);
      var keys := Texts.Sorted(v.fields.Keys);
      if keys != [] {
        var inner := DeepestField(v, keys);
        chain := [v] + inner;
      }
    }
  }

  lemma {:induction false} DeepestItem(xs: seq<Json>) returns (chain: seq<Json>)
    requires xs != []
    ensures Chain(chain) && chain[0] in xs && |chain| == ItemDepth(xs)
    decreases xs, 0, 0
  {
    hide Depth;
    chain := DeepestChain(xs[0]);
    if |xs| > 1 && ItemDepth(xs[1..]) > |chain| { chain := DeepestItem(xs[1..]); }
    assert |xs| == 1 ==> xs[1..] == [];
  }

  lemma {:induction false} DeepestField(o: Json, keys: seq<string>) returns (chain: seq<Json>)
    requires o.Obj? && keys != [] && forall k :: k in keys ==> k in o.fields
    ensures Chain(chain) && (exists k :: k in o.fields && o.fields[k] == chain[0]) && |chain| == FieldDepth(o, keys)
    decreases o, 0, |keys|
  {
    hide Depth;
    chain := DeepestChain(o.fields[keys[0]]);
    if |keys| > 1 && FieldDepth(o, keys[1..]) > |chain| { chain := DeepestField(o, keys[1..]); }
    assert |keys| == 1 ==> keys[1..] == [];
  }

  // ----- the hash of the member set --------------------------------------------------------------------

  function SummaryFields(m: Manifest): seq<Field>
  {
    [("byte_count", Int(m.byteCount)), ("conversation_count", Int(m.conversationCount)), ("index", Int(m.index)),
     ("label", Str(m.name)), ("sha256", Str(m.sha256))]
  }

  lemma SummaryConsists(m: Manifest)
    ensures Summary(m).Obj? && Consists(Summary(m).fields, SummaryFields(m))
  {
    var fields := SummaryFields(m);
    assert fields[0] in fields && fields[1] in fields && fields[2] in fields && fields[3] in fields;
    assert fields[4] in fields;
  }

  lemma SummaryInOrder(m: Manifest)
    ensures InOrder(KeysOf(SummaryFields(m)))
  {
    hide Texts.AtOrBefore;
    Precedes("byte_count", "conversation_count", 0);
    Precedes("conversation_count", "index", 0);
    Precedes("index", "label", 0);
    Precedes("label", "sha256", 0);
  }

  /** What is hashed of one member, in the order in which it is printed. */
  lemma SummaryText(m: Manifest)
    ensures Text(Summary(m)) == "{" + FieldsText(SummaryFields(m)) + "}"
  {
    hide Text, FieldsText, InOrder, Consists, Summary;
    SummaryConsists(m);
    SummaryInOrder(m);
    CanonicalText(Summary(m).fields, SummaryFields(m));
  }

  function MemberSetFields(manifests: seq<Manifest>): seq<Field>
  {
    [("aggregation_format", Str("chatgpt-numbered-conversation-members")), ("aggregation_version", Str("1")),
     ("members", Arr(seq(|manifests|, i requires 0 <= i < |manifests| => Summary(manifests[i]))))]
  }

  lemma MemberSetInOrder(manifests: seq<Manifest>)
    ensures InOrder(KeysOf(MemberSetFields(manifests)))
  {
    hide Texts.AtOrBefore, Summary;
    Precedes("aggregation_format", "aggregation_version", 12);
    Precedes("aggregation_version", "members", 0);
  }

  lemma MemberSetConsists(manifests: seq<Manifest>, m: map<string, Json>)
    requires m == map[
      "aggregation_format" := Str("chatgpt-numbered-conversation-members"), "aggregation_version" := Str("1"),
      "members" := MemberSetFields(manifests)[2].1]
    ensures Consists(m, MemberSetFields(manifests))
  {
    hide Summary;
    var fields := MemberSetFields(manifests);
    assert "aggregation_format" != "aggregation_version" by { KeysDiffer(); }
    assert fields[0] in fields && fields[1] in fields && fields[2] in fields;
  }

  lemma KeysDiffer()
    ensures "aggregation_format" != "aggregation_version"
  {
    assert "aggregation_format"[12] != "aggregation_version"[12];
  }

  /** The text behind the hash of the member set. */
  lemma MemberSetText(manifests: seq<Manifest>, lib: Library)
    ensures MemberSetHash(manifests, lib) == lib.sha256(Utf8("{" + FieldsText(MemberSetFields(manifests)) + "}"))
  {
    hide Text, FieldsText, InOrder, Consists, Summary, Utf8;
    var m := map[
      "aggregation_format" := Str("chatgpt-numbered-conversation-members"), "aggregation_version" := Str("1"),
      "members" := MemberSetFields(manifests)[2].1];
    MemberSetConsists(manifests, m);
    MemberSetInOrder(manifests);
    CanonicalText(m, MemberSetFields(manifests));
  }
}
