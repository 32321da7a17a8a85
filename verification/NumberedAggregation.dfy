/** Aggregation of numbered conversation members in memory
    (src/doll/chatgpt_numbered_aggregation.py). */
module NumberedAggregation {
  import opened Outcomes
  import opened Json
  import opened NumberedMembers
  import opened ConversationMapping

  datatype Limits = Limits(maxMembers: int, maxBytes: int, maxConversations: int, maxDepth: int)

  datatype Member = Member(name: string, bytes: Bytes)

  /** SHA-256 as hexadecimal text, and the strict JSON list loader. */
  datatype Library = Library(sha256: Bytes -> string, loadRoot: Bytes -> Option<seq<Json>>)

  datatype Manifest = Manifest(name: string, index: nat, byteCount: nat, conversationCount: nat, sha256: string)

  datatype Aggregation = Aggregation(
    bytes: Bytes, sourceHash: string, memberSetHash: string, members: seq<Manifest>,
    inputCount: nat, outputCount: nat, duplicateCount: nat)

  // ----- identities -----------------------------------------------------------------

  /** The identity of a conversation; `None` stands for a raised import error. */
  function ConversationId(v: Json): Option<string>
  {
    if !v.Obj? then None
    else
      var first, second := Get(v.fields, "id"), Get(v.fields, "conversation_id");
      if first == Null && second == Null then None
      else if first != Null && second != Null && first != second then None
      else Identifier(if first != Null then first else second)
  }

  ghost predicate AllIdentified(items: seq<Json>)
  {
    forall i :: 0 <= i < |items| ==> ConversationId(items[i]).Some?
  }

  /** Conversations with the same identity have the same canonical bytes. */
  ghost predicate NoConflict(items: seq<Json>)
  {
    forall i, j :: 0 <= i < j < |items| && ConversationId(items[i]) == ConversationId(items[j]) ==>
      Encode(items[i]) == Encode(items[j])
  }

  predicate Seen(items: seq<Json>, id: Option<string>)
  {
    exists i :: 0 <= i < |items| && ConversationId(items[i]) == id
  }

  /** The conversations whose identity did not occur earlier, in order. */
  function Firsts(items: seq<Json>): seq<Json>
  {
    if items == [] then []
    else
      var front, last := items[..|items| - 1], items[|items| - 1];
      if Seen(front, ConversationId(last)) then Firsts(front) else Firsts(front) + [last]
  }

  lemma FirstsSnoc(items: seq<Json>, v: Json)
    ensures Firsts(items + [v]) == if Seen(items, ConversationId(v)) then Firsts(items) else Firsts(items) + [v]
  {
    assert (items + [v])[..|items|] == items;
  }

  lemma {:induction false} FirstsLength(items: seq<Json>)
    ensures |Firsts(items)| <= |items|
  {
    if items != [] {
      FirstsLength(items[..|items| - 1]);
    }
  }

  // ----- depth -------------------------------------------------------------------------

  function Max(a: nat, b: nat): nat { if a < b then b else a }

  function Depth(v: Json): nat
    decreases v, 1, 0
  {
    match v
    case Obj(m) => Texts.SortedProperties(m.Keys); 1 + FieldDepth(v, Texts.Sorted(m.Keys))
    case Arr(xs) => 1 + ItemDepth(xs)
    case _ => 1
  }

  function FieldDepth(o: Json, keys: seq<string>): nat
    requires o.Obj? && forall k :: k in keys ==> k in o.fields
    decreases o, 0, |keys|
  {
    if keys == [] then 0 else Max(Depth(o.fields[keys[0]]), FieldDepth(o, keys[1..]))
  }

  function ItemDepth(xs: seq<Json>): nat
    decreases xs, 0, 0
  {
    if xs == [] then 0 else Max(Depth(xs[0]), ItemDepth(xs[1..]))
  }

  // ----- the ordered members ---------------------------------------------------------------

  function TotalBytes(members: seq<Member>): nat
  {
    if members == [] then 0 else TotalBytes(members[..|members| - 1]) + |members[|members| - 1].bytes|
  }

  predicate AllLabelled(members: seq<Member>)
  {
    forall i :: 0 <= i < |members| ==> LabelIndex(members[i].name).Some?
  }

  function Parsed(members: seq<Member>): (r: seq<Indexed<Member>>)
    requires AllLabelled(members)
  {
    seq(|members|, i requires 0 <= i < |members| =>
        Indexed(LabelIndex(members[i].name).value, members[i]))
  }

  /** What the first stage demands of the supplied members. */
  ghost predicate MembersAccepted(members: seq<Member>, limits: Limits)
  {
    && 0 < |members| <= limits.maxMembers
    && AllLabelled(members)
    && (forall i :: 0 <= i < |members| ==> members[i].bytes != [])
    && TotalBytes(members) <= limits.maxBytes
    && Consecutive(SortIndexed(Parsed(members)))
  }

  lemma {:induction false} TotalBytesGrows(members: seq<Member>, i: nat)
    requires i <= |members|
    ensures TotalBytes(members[..i]) <= TotalBytes(members)
    decreases |members|
  {
    if i == |members| {
      assert members[..i] == members;
    } else {
      var front := members[..|members| - 1];
      TotalBytesGrows(front, i);
      assert front[..i] == members[..i];
    }
  }

  /** The checking loop and the sort. */
  method OrderMembers(members: seq<Member>, limits: Limits) returns (r: Option<seq<Indexed<Member>>>)
    ensures r.Some? <==> MembersAccepted(members, limits)
    ensures r.Some? ==> r.value == SortIndexed(Parsed(members))
  {
    hide LabelIndex, SortIndexed, Consecutive;
    if members == [] || |members| > limits.maxMembers { return None; }
    var parsed: seq<Indexed<Member>> := [];
    var labels: set<string> := {};
    var indices: set<nat> := {};
    var total := 0;
    for n := 0 to |members|
      invariant AllLabelled(members[..n]) && parsed == Parsed(members[..n])
      invariant forall i :: 0 <= i < n ==> members[i].bytes != []
      invariant forall s :: s in labels ==> exists i :: 0 <= i < n && members[i].name == s
      invariant forall k :: k in indices ==> exists i :: 0 <= i < n && LabelIndex(members[i].name) == Some(k)
      invariant total == TotalBytes(members[..n]) && (n > 0 ==> total <= limits.maxBytes)
    {
      var member := members[n];
      var index := LabelIndex(member.name);
      if index.None? { return None; }
      if member.name in labels || index.value in indices {
        ghost var i :| 0 <= i < n && LabelIndex(members[i].name) == index;
        RepeatedIndexRejected(members, i, n);
        return None;
      }
      if member.bytes == [] { return None; }
      labels, indices := labels + {member.name}, indices + {index.value};
      total := total + |member.bytes|;
      assert members[..n + 1][..n] == members[..n];
      TotalBytesGrows(members, n + 1);
      if total > limits.maxBytes { return None; }
      parsed := parsed + [Indexed(index.value, member)];
    }
    assert members[..|members|] == members;
    var ordered := SortIndexed(parsed);
    if !Consecutive(ordered) { return None; }
    return Some(ordered);
  }

  lemma RepeatedIndexRejected(members: seq<Member>, i: nat, j: nat)
    requires i < j < |members| && LabelIndex(members[i].name) == LabelIndex(members[j].name)
    ensures AllLabelled(members) ==> !Consecutive(SortIndexed(Parsed(members)))
  {
    hide LabelIndex;
    if AllLabelled(members) && Consecutive(SortIndexed(Parsed(members))) {
      ConsecutiveDistinct(Parsed(members), i, j);
      assert false;
    }
  }

  // ----- the conversations of the ordered members ---------------------------------------------

  function RootOf(bytes: Bytes, lib: Library): seq<Json>
  {
    if lib.loadRoot(bytes).Some? then lib.loadRoot(bytes).value else []
  }

  predicate RootAccepted(bytes: Bytes, limits: Limits, lib: Library)
  {
    lib.loadRoot(bytes).Some? && Depth(Arr(RootOf(bytes, lib))) <= limits.maxDepth
  }

  function ItemsOf(entries: seq<Indexed<Member>>, lib: Library): seq<Json>
  {
    if entries == [] then []
    else ItemsOf(entries[..|entries| - 1], lib) + RootOf(entries[|entries| - 1].item.bytes, lib)
  }

  lemma {:induction false} ItemsPrefix(entries: seq<Indexed<Member>>, lib: Library, i: nat)
    requires i <= |entries|
    ensures ItemsOf(entries[..i], lib) <= ItemsOf(entries, lib)
    decreases |entries|
  {
    if i == |entries| {
      assert entries[..i] == entries;
    } else {
      var front := entries[..|entries| - 1];
      ItemsPrefix(front, lib, i);
      assert front[..i] == entries[..i];
    }
  }

  function ManifestOf(e: Indexed<Member>, lib: Library): Manifest
  {
    Manifest(e.item.name, e.index, |e.item.bytes|, |RootOf(e.item.bytes, lib)|, lib.sha256(e.item.bytes))
  }

  function ManifestsOf(entries: seq<Indexed<Member>>, lib: Library): seq<Manifest>
  {
    seq(|entries|, i requires 0 <= i < |entries| => ManifestOf(entries[i], lib))
  }

  function Summary(m: Manifest): Json
  {
    Obj(map["label" := Str(m.name), "index" := Int(m.index), "byte_count" := Int(m.byteCount),
            "conversation_count" := Int(m.conversationCount), "sha256" := Str(m.sha256)])
  }

  /** The hash that binds the whole set of members. */
  function MemberSetHash(manifests: seq<Manifest>, lib: Library): string
  {
    lib.sha256(Encode(Obj(map[
      "aggregation_format" := Str("chatgpt-numbered-conversation-members"),
      "aggregation_version" := Str("1"),
      "members" := Arr(seq(|manifests|, i requires 0 <= i < |manifests| => Summary(manifests[i])))])))
  }

  ghost predicate EntriesAccepted(entries: seq<Indexed<Member>>, limits: Limits, lib: Library)
  {
    && (forall i :: 0 <= i < |entries| ==> RootAccepted(entries[i].item.bytes, limits, lib))
    && (entries != [] ==> |ItemsOf(entries, lib)| <= limits.maxConversations)
    && AllIdentified(ItemsOf(entries, lib))
    && NoConflict(ItemsOf(entries, lib))
  }

  function AggregationOf(entries: seq<Indexed<Member>>, lib: Library): Aggregation
  {
    var items := ItemsOf(entries, lib);
    var firsts := Firsts(items);
    var bytes := Encode(Arr(firsts));
    var manifests := ManifestsOf(entries, lib);
    FirstsLength(items);
    Aggregation(bytes, lib.sha256(bytes), MemberSetHash(manifests, lib), manifests,
                |items|, |firsts|, |items| - |firsts|)
  }

  /** What aggregation yields; `None` stands for a raised aggregation error. */
  ghost function AggregateResult(members: seq<Member>, limits: Limits, lib: Library): Option<Aggregation>
  {
    if MembersAccepted(members, limits)
       && EntriesAccepted(SortIndexed(Parsed(members)), limits, lib)
    then Some(AggregationOf(SortIndexed(Parsed(members)), lib))
    else None
  }

  // ----- the aggregation loops -----------------------------------------------------------------

  /** The loop variables `identities`, `aggregated` and `duplicate_count`. */
  datatype Tally = Tally(identities: map<string, Bytes>, aggregated: seq<Json>, duplicates: nat)

  ghost predicate Tracks(t: Tally, items: seq<Json>)
  {
    && AllIdentified(items) && NoConflict(items)
    && (forall id :: id in t.identities <==> Seen(items, Some(id)))
    && (forall i :: 0 <= i < |items| ==>
          && ConversationId(items[i]).Some?
          && ConversationId(items[i]).value in t.identities
          && t.identities[ConversationId(items[i]).value] == Encode(items[i]))
    && t.aggregated == Firsts(items)
    && t.duplicates == |items| - |Firsts(items)|
  }

  lemma SeenSnoc(items: seq<Json>, v: Json, id: Option<string>)
    ensures Seen(items + [v], id) <==> Seen(items, id) || ConversationId(v) == id
  {
    hide ConversationId;
    var more := items + [v];
    assert more[|items|] == v;
    assert forall i :: 0 <= i < |items| ==> more[i] == items[i];
  }

  lemma TracksFresh(t: Tally, items: seq<Json>, raw: Json, id: string)
    requires Tracks(t, items) && ConversationId(raw) == Some(id) && id !in t.identities
    ensures Tracks(Tally(t.identities[id := Encode(raw)], t.aggregated + [raw], t.duplicates), items + [raw])
  {
    hide ConversationId, Encode, Firsts, Seen;
    var more := items + [raw];
    FirstsSnoc(items, raw);
    assert more[|items|] == raw && forall i :: 0 <= i < |items| ==> more[i] == items[i];
    forall k: string ensures Seen(more, Some(k)) <==> Seen(items, Some(k)) || k == id {
      SeenSnoc(items, raw, Some(k));
    }
    assert !Seen(items, Some(id));
  }

  lemma TracksRepeat(t: Tally, items: seq<Json>, raw: Json, id: string)
    requires Tracks(t, items) && ConversationId(raw) == Some(id) && id in t.identities
    requires t.identities[id] == Encode(raw)
    ensures Tracks(t.(duplicates := t.duplicates + 1), items + [raw])
  {
    hide ConversationId, Encode, Firsts, Seen;
    var more := items + [raw];
    FirstsSnoc(items, raw);
    assert more[|items|] == raw && forall i :: 0 <= i < |items| ==> more[i] == items[i];
    forall k: string ensures Seen(more, Some(k)) <==> Seen(items, Some(k)) || k == id {
      SeenSnoc(items, raw, Some(k));
    }
  }

  /** One conversation of the inner loop. */
  method AbsorbItem(t: Tally, raw: Json, ghost items: seq<Json>) returns (r: Option<Tally>)
    requires Tracks(t, items)
    ensures r.Some? <==> AllIdentified(items + [raw]) && NoConflict(items + [raw])
    ensures r.Some? ==> Tracks(r.value, items + [raw])
  {
    hide ConversationId, Encode, Firsts;
    ghost var more := items + [raw];
    assert more[|items|] == raw;
    var id := ConversationId(raw);
    if id.None? { return None; }
    var canonical := Encode(raw);
    if id.value !in t.identities {
      TracksFresh(t, items, raw, id.value);
      return Some(Tally(t.identities[id.value := canonical], t.aggregated + [raw], t.duplicates));
    }
    if t.identities[id.value] == canonical {
      TracksRepeat(t, items, raw, id.value);
      return Some(t.(duplicates := t.duplicates + 1));
    }
    ghost var i :| 0 <= i < |items| && ConversationId(items[i]) == id;
    assert more[i] == items[i];
    return None;
  }

  lemma PrefixKeeps(items: seq<Json>, more: seq<Json>)
    requires items <= more && AllIdentified(more) && NoConflict(more)
    ensures AllIdentified(items) && NoConflict(items)
  {
    hide ConversationId, Encode;
    assert forall i :: 0 <= i < |items| ==> items[i] == more[i];
  }

  /** The inner loop: all conversations of one member. */
  method AbsorbRoot(t: Tally, root: seq<Json>, ghost items: seq<Json>) returns (r: Option<Tally>)
    requires Tracks(t, items)
    ensures r.Some? <==> AllIdentified(items + root) && NoConflict(items + root)
    ensures r.Some? ==> Tracks(r.value, items + root)
  {
    hide ConversationId, Encode, Firsts, Tracks, AllIdentified, NoConflict;
    var tally := t;
    assert items + root[..0] == items;
    for i := 0 to |root|
      invariant Tracks(tally, items + root[..i])
    {
      var next := AbsorbItem(tally, root[i], items + root[..i]);
      assert items + root[..i] + [root[i]] == items + root[..i + 1];
      if next.None? {
        assert items + root[..i + 1] <= items + root;
        if AllIdentified(items + root) && NoConflict(items + root) {
          PrefixKeeps(items + root[..i + 1], items + root);
        }
        return None;
      }
      tally := next.value;
    }
    assert root[..|root|] == root;
    assert AllIdentified(items + root) && NoConflict(items + root) by { TracksMeans(tally, items + root); }
    return Some(tally);
  }

  lemma TracksMeans(t: Tally, items: seq<Json>)
    requires Tracks(t, items)
    ensures AllIdentified(items) && NoConflict(items)
  {
  }

  lemma ItemsSnoc(entries: seq<Indexed<Member>>, lib: Library, n: nat)
    requires n < |entries|
    ensures ItemsOf(entries[..n + 1], lib) == ItemsOf(entries[..n], lib) + RootOf(entries[n].item.bytes, lib)
  {
    assert entries[..n + 1][..n] == entries[..n];
  }

  /** The outer loop over the ordered members. */
  method AggregateEntries(entries: seq<Indexed<Member>>, limits: Limits, lib: Library) returns (r: Option<Aggregation>)
    ensures r.Some? <==> EntriesAccepted(entries, limits, lib)
    ensures r.Some? ==> r.value == AggregationOf(entries, lib)
  {
    hide ConversationId, Encode, Firsts, Tracks, AllIdentified, NoConflict, Depth, ItemsOf, MemberSetHash;
    var tally := Tally(map[], [], 0);
    var inputCount := 0;
    var manifests: seq<Manifest> := [];
    assert entries[..0] == [];
    EmptyTracked(lib);
    for n := 0 to |entries|
      invariant forall i :: 0 <= i < n ==> RootAccepted(entries[i].item.bytes, limits, lib)
      invariant inputCount == |ItemsOf(entries[..n], lib)|
      invariant n > 0 ==> inputCount <= limits.maxConversations
      invariant manifests == ManifestsOf(entries[..n], lib)
      invariant Tracks(tally, ItemsOf(entries[..n], lib))
    {
      var e := entries[n];
      if !RootAccepted(e.item.bytes, limits, lib) { return None; }
      var root := RootOf(e.item.bytes, lib);
      ItemsSnoc(entries, lib, n);
      ItemsPrefix(entries, lib, n + 1);
      inputCount := inputCount + |root|;
      if inputCount > limits.maxConversations { return None; }
      manifests := manifests + [Manifest(e.item.name, e.index, |e.item.bytes|, |root|, lib.sha256(e.item.bytes))];
      var next := AbsorbRoot(tally, root, ItemsOf(entries[..n], lib));
      if next.None? {
        if AllIdentified(ItemsOf(entries, lib)) && NoConflict(ItemsOf(entries, lib)) {
          PrefixKeeps(ItemsOf(entries[..n + 1], lib), ItemsOf(entries, lib));
        }
        return None;
      }
      tally := next.value;
    }
    assert entries[..|entries|] == entries;
    TracksMeans(tally, ItemsOf(entries, lib));
    TracksTotals(tally, ItemsOf(entries, lib));
    var bytes := Encode(Arr(tally.aggregated));
    return Some(Aggregation(bytes, lib.sha256(bytes), MemberSetHash(manifests, lib), manifests,
                            inputCount, |tally.aggregated|, tally.duplicates));
  }

  lemma EmptyTracked(lib: Library)
    ensures ItemsOf([], lib) == [] && Tracks(Tally(map[], [], 0), [])
  {
  }

  lemma TracksTotals(t: Tally, items: seq<Json>)
    requires Tracks(t, items)
    ensures t.aggregated == Firsts(items) && t.duplicates == |items| - |Firsts(items)|
  {
  }

  method Aggregate(members: seq<Member>, limits: Limits, lib: Library) returns (r: Option<Aggregation>)
    ensures r == AggregateResult(members, limits, lib)
  {
    hide MembersAccepted, EntriesAccepted, AggregationOf, SortIndexed, Parsed;
    var ordered := OrderMembers(members, limits);
    if ordered.None? { return None; }
    r := AggregateEntries(ordered.value, limits, lib);
  }
}
