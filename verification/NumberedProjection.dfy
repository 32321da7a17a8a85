/** Sequential projection of numbered conversation members
    (src/doll/chatgpt_numbered_projection.py): canonical bytes go to a store on disk, the
    aggregate hash is fed piece by piece, and only selected conversations are kept. */
module NumberedProjection {
  import opened Outcomes
  import opened Json
  import opened JsonArrays
  import opened NumberedAggregation
  import opened ConversationMapping

  const MAX_SELECTION_COUNT := 1000
  const READ_CHUNK_BYTES := 1024 * 1024

  /** A member and what the file system answers for its resolved path: at the size check,
      when it is read, and when it is hashed again at the end. */
  datatype PathMember = PathMember(
    name: string, path: string, isFile: bool, declaredSize: nat, firstRead: Bytes, finalRead: Bytes)

  datatype StoredIdentity = StoredIdentity(sha256: string, offset: nat, byteCount: nat)

  datatype Projection = Projection(
    selectedBytes: Bytes, selectedHash: string, sourceHash: string, memberSetHash: string,
    members: seq<Manifest>, inputCount: nat, outputCount: nat, duplicateCount: nat,
    quarantineCount: nat, quarantineMemberCount: nat, counts: Counts)

  // ----- the canonical store ---------------------------------------------------------

  /** The temporary file: its bytes and its read/write position. */
  class CanonicalStore {
    var content: Bytes
    var position: nat

    constructor ()
      ensures content == [] && position == 0
    {
      content, position := [], 0;
    }

    method Seek(offset: nat)
      modifies this
      ensures content == old(content) && position == offset
    {
      position := offset;
    }

    method Write(bytes: Bytes)
      requires position <= |content|
      modifies this
      ensures content == old(content[..position]) + bytes
        + (if old(position) + |bytes| <= old(|content|) then old(content)[old(position) + |bytes|..] else [])
      ensures position == old(position) + |bytes|
    {
      var end := position + |bytes|;
      content := content[..position] + bytes + (if end <= |content| then content[end..] else []);
      position := end;
    }

    /** At most `size` bytes; fewer are allowed, none only at the end of the file. */
    method Read(size: nat) returns (chunk: Bytes)
      requires size > 0
      modifies this
      ensures content == old(content)
      ensures old(position) >= |content| ==> chunk == [] && position == old(position)
      ensures old(position) < |content| ==>
        && 0 < |chunk| <= size && old(position) + |chunk| <= |content|
        && chunk == content[old(position)..old(position) + |chunk|]
        && position == old(position) + |chunk|
    {
      if position >= |content| { return []; }
      var available := |content| - position;
      var count: nat :| 0 < count <= size && count <= available;
      chunk := content[position..position + count];
      position := position + count;
    }
  }

  /** The stored slice, if it lies inside the content, is exactly `candidate`. */
  ghost predicate SliceIs(content: Bytes, offset: nat, byteCount: nat, candidate: Bytes)
  {
    && byteCount == |candidate|
    && (byteCount == 0 || offset + byteCount <= |content|)
    && forall i :: 0 <= i < byteCount ==> content[offset + i] == candidate[i]
  }

  /** The comparison of `candidate[position : position + len(expected)]` with a chunk. */
  predicate ChunkMatches(expected: Bytes, candidate: Bytes, position: nat)
  {
    position + |expected| <= |candidate| && candidate[position..position + |expected|] == expected
  }

  /** Chunked comparison, however the reads are cut. */
  method StoredBytesEqual(store: CanonicalStore, previous: StoredIdentity, candidate: Bytes) returns (equal: bool)
    modifies store
    ensures store.content == old(store.content)
    ensures equal <==> SliceIs(store.content, previous.offset, previous.byteCount, candidate)
  {
    store.Seek(previous.offset);
    var position := 0;
    while position < previous.byteCount
      invariant store.content == old(store.content)
      invariant position <= previous.byteCount && position <= |candidate|
      invariant store.position == previous.offset + position
      invariant position > 0 ==> previous.offset + position <= |store.content|
      invariant forall i :: 0 <= i < position ==> store.content[previous.offset + i] == candidate[i]
    {
      var left := previous.byteCount - position;
      var expected := store.Read(if left < READ_CHUNK_BYTES then left else READ_CHUNK_BYTES);
      if expected == [] { return false; }
      forall i | 0 <= i < |expected| ensures expected[i] == store.content[previous.offset + position + i] {
      }
      ChunkAgrees(store.content, previous, candidate, position, expected);
      if !ChunkMatches(expected, candidate, position) { return false; }
      forall i | position <= i < position + |expected|
        ensures store.content[previous.offset + i] == candidate[i]
      {
        assert candidate[position..position + |expected|][i - position] == candidate[i];
        assert expected[i - position] == store.content[previous.offset + position + (i - position)];
      }
      position := position + |expected|;
    }
    equal := position == |candidate|;
  }

  lemma ChunkAgrees(content: Bytes, previous: StoredIdentity, candidate: Bytes, position: nat, expected: Bytes)
    requires position + |expected| <= previous.byteCount && previous.offset + position + |expected| <= |content|
    requires forall i :: 0 <= i < |expected| ==> expected[i] == content[previous.offset + position + i]
    ensures SliceIs(content, previous.offset, previous.byteCount, candidate) ==>
      ChunkMatches(expected, candidate, position)
  {
    if SliceIs(content, previous.offset, previous.byteCount, candidate) {
      forall i | 0 <= i < |expected| ensures candidate[position..position + |expected|][i] == expected[i] {
        assert content[previous.offset + (position + i)] == candidate[position + i];
      }
      assert candidate[position..position + |expected|] == expected;
    }
  }

  // ----- slices tile the store -----------------------------------------------------------

  function Concat(parts: seq<Bytes>): Bytes
  {
    if parts == [] then [] else Concat(parts[..|parts| - 1]) + parts[|parts| - 1]
  }

  /** The first-occurrence conversations lie in the store one after another, and each
      identity's record says where. */
  ghost predicate Tiles(content: Bytes, identities: map<string, StoredIdentity>, firsts: seq<Json>, lib: Library)
  {
    && content == Concat(EncodeAll(firsts))
    && (forall id :: id in identities <==> Seen(firsts, Some(id)))
    && (forall i :: 0 <= i < |firsts| ==>
          && ConversationId(firsts[i]).Some?
          && ConversationId(firsts[i]).value in identities
          && Placed(content, identities[ConversationId(firsts[i]).value], firsts[i], lib))
  }

  /** A stored record points at the canonical bytes of a conversation. */
  ghost predicate Placed(content: Bytes, stored: StoredIdentity, v: Json, lib: Library)
  {
    && stored.sha256 == lib.sha256(Encode(v))
    && stored.byteCount == |Encode(v)|
    && stored.offset + stored.byteCount <= |content|
    && content[stored.offset..stored.offset + stored.byteCount] == Encode(v)
  }

  lemma PlacedStays(content: Bytes, more: Bytes, stored: StoredIdentity, v: Json, lib: Library)
    requires Placed(content, stored, v, lib)
    ensures Placed(content + more, stored, v, lib)
  {
    hide Encode;
    var end := stored.offset + stored.byteCount;
    assert (content + more)[stored.offset..end] == content[stored.offset..end];
  }

  /** Looking at the record: the three-way test is equality of canonical bytes. */
  lemma PlacedDecides(content: Bytes, stored: StoredIdentity, v: Json, canonical: Bytes, lib: Library)
    requires Placed(content, stored, v, lib)
    ensures SliceIs(content, stored.offset, stored.byteCount, canonical) <==> canonical == Encode(v)
  {
    hide Encode;
    var slice := content[stored.offset..stored.offset + stored.byteCount];
    assert forall i :: 0 <= i < |slice| ==> slice[i] == content[stored.offset + i];
  }

  lemma TilesExtend(content: Bytes, identities: map<string, StoredIdentity>, firsts: seq<Json>, lib: Library,
      v: Json, id: string)
    requires Tiles(content, identities, firsts, lib)
    requires ConversationId(v) == Some(id) && id !in identities
    ensures Tiles(content + Encode(v),
                  identities[id := StoredIdentity(lib.sha256(Encode(v)), |content|, |Encode(v)|)],
                  firsts + [v], lib)
  {
    hide Encode, ConversationId, Seen;
    var more := firsts + [v];
    var stored := StoredIdentity(lib.sha256(Encode(v)), |content|, |Encode(v)|);
    var now := identities[id := stored];
    assert EncodeAll(more)[..|firsts|] == EncodeAll(firsts) && EncodeAll(more)[|firsts|] == Encode(v);
    forall k: string ensures k in now <==> Seen(more, Some(k)) {
      SeenSnoc(firsts, v, Some(k));
    }
    forall i | 0 <= i < |more|
      ensures ConversationId(more[i]).Some? && ConversationId(more[i]).value in now
      ensures Placed(content + Encode(v), now[ConversationId(more[i]).value], more[i], lib)
    {
      if i < |firsts| {
        assert more[i] == firsts[i];
        var k := ConversationId(firsts[i]).value;
        assert k in identities && k != id;
        PlacedStays(content, Encode(v), identities[k], firsts[i], lib);
      } else {
        assert (content + Encode(v))[|content|..] == Encode(v);
      }
    }
  }

  // ----- what is kept and what is selected ---------------------------------------------------

  /** A conversation object without either identifier: it is quarantined. */
  predicate Identityless(v: Json)
  {
    v.Obj? && Get(v.fields, "id") == Null && Get(v.fields, "conversation_id") == Null
  }

  /** The items that are not quarantined. */
  function Kept(items: seq<Json>): seq<Json>
  {
    if items == [] then []
    else
      var front, last := Kept(items[..|items| - 1]), items[|items| - 1];
      if Identityless(last) then front else front + [last]
  }

  lemma KeptSnoc(items: seq<Json>, v: Json)
    ensures Kept(items + [v]) == if Identityless(v) then Kept(items) else Kept(items) + [v]
  {
    assert (items + [v])[..|items|] == items;
  }

  lemma {:induction false} KeptLength(items: seq<Json>)
    ensures |Kept(items)| <= |items|
  {
    if items != [] {
      KeptLength(items[..|items| - 1]);
    }
  }

  lemma {:induction false} KeptConcat(a: seq<Json>, b: seq<Json>)
    ensures Kept(a + b) == Kept(a) + Kept(b)
  {
    hide Identityless;
    if b == [] {
      assert a + b == a;
    } else {
      hide Kept;
      var front, last := b[..|b| - 1], b[|b| - 1];
      assert a + b == (a + front) + [last] && b == front + [last];
      KeptSnoc(a + front, last);
      KeptSnoc(front, last);
      KeptConcat(a, front);
    }
  }

  function SelectedOf(firsts: seq<Json>, selected: set<string>): seq<Json>
  {
    if firsts == [] then []
    else
      var front, last := SelectedOf(firsts[..|firsts| - 1], selected), firsts[|firsts| - 1];
      var id := ConversationId(last);
      if id.Some? && id.value in selected then front + [last] else front
  }

  lemma SelectedSnoc(firsts: seq<Json>, v: Json, selected: set<string>)
    ensures SelectedOf(firsts + [v], selected) ==
      if ConversationId(v).Some? && ConversationId(v).value in selected
      then SelectedOf(firsts, selected) + [v] else SelectedOf(firsts, selected)
  {
    assert (firsts + [v])[..|firsts|] == firsts;
  }

  /** Inventory counts of the first-occurrence conversations, if all can be read. */
  ghost predicate AllInventoried(firsts: seq<Json>)
  {
    forall i :: 0 <= i < |firsts| ==> firsts[i].Obj? && InventoryResult(firsts[i].fields).Some?
  }

  function InventoryOf(v: Json): Counts
  {
    if v.Obj? && InventoryResult(v.fields).Some? then InventoryResult(v.fields).value else ZERO
  }

  function InventorySum(firsts: seq<Json>): Counts
  {
    if firsts == [] then ZERO else InventorySum(firsts[..|firsts| - 1]).Add(InventoryOf(firsts[|firsts| - 1]))
  }

  lemma InventorySnoc(firsts: seq<Json>, v: Json)
    ensures InventorySum(firsts + [v]) == InventorySum(firsts).Add(InventoryOf(v))
  {
    assert (firsts + [v])[..|firsts|] == firsts;
  }

  /** The size of `[` + parts joined by `,` + `]`. */
  function ArraySize(parts: seq<Bytes>): nat
  {
    2 + |Join(parts)|
  }

  lemma ArraySizeSnoc(parts: seq<Bytes>, p: Bytes)
    ensures ArraySize(parts + [p]) == ArraySize(parts) + |p| + (if parts != [] then 1 else 0)
  {
    JoinSnoc(parts, p);
  }

  // ----- one conversation of the loop -------------------------------------------------------

  lemma {:induction false} FirstsSeen(items: seq<Json>, id: Option<string>)
    ensures Seen(Firsts(items), id) <==> Seen(items, id)
  {
    hide ConversationId, Seen;
    if items == [] {
      assert Firsts(items) == items;
    } else {
      var front, last := items[..|items| - 1], items[|items| - 1];
      assert items == front + [last];
      FirstsSeen(front, id);
      SeenSnoc(front, last, id);
      SeenSnoc(Firsts(front), last, id);
    }
  }

  lemma {:induction false} FirstsAreItems(items: seq<Json>, i: nat)
    requires i < |Firsts(items)|
    ensures Firsts(items)[i] in items
  {
    hide ConversationId, Seen;
    var front, last := items[..|items| - 1], items[|items| - 1];
    assert items == front + [last];
    if i < |Firsts(front)| {
      FirstsAreItems(front, i);
    }
  }

  lemma FreshKeeps(kept: seq<Json>, raw: Json)
    requires AllIdentified(kept) && NoConflict(kept)
    requires ConversationId(raw).Some? && !Seen(kept, ConversationId(raw))
    ensures AllIdentified(kept + [raw]) && NoConflict(kept + [raw])
    ensures Firsts(kept + [raw]) == Firsts(kept) + [raw]
  {
    hide ConversationId, Encode, Firsts;
    FirstsSnoc(kept, raw);
    var more := kept + [raw];
    assert more[|kept|] == raw && forall i :: 0 <= i < |kept| ==> more[i] == kept[i];
  }

  lemma RepeatKeepsIff(kept: seq<Json>, raw: Json, i: nat)
    requires AllIdentified(kept) && NoConflict(kept) && i < |Firsts(kept)|
    requires ConversationId(raw).Some? && ConversationId(Firsts(kept)[i]) == ConversationId(raw)
    ensures AllIdentified(kept + [raw]) && NoConflict(kept + [raw]) <==> Encode(raw) == Encode(Firsts(kept)[i])
    ensures Firsts(kept + [raw]) == Firsts(kept)
  {
    hide ConversationId, Encode, Firsts;
    FirstsAreItems(kept, i);
    var j :| 0 <= j < |kept| && kept[j] == Firsts(kept)[i];
    assert Seen(kept, ConversationId(raw));
    FirstsSnoc(kept, raw);
    var more := kept + [raw];
    assert more[|kept|] == raw && forall k :: 0 <= k < |kept| ==> more[k] == kept[k];
    if Encode(raw) == Encode(kept[j]) {
      forall k | 0 <= k < |kept| && ConversationId(kept[k]) == ConversationId(raw)
        ensures Encode(kept[k]) == Encode(raw)
      {
        if k < j { assert Encode(kept[k]) == Encode(kept[j]); }
        if j < k { assert Encode(kept[j]) == Encode(kept[k]); }
      }
    }
  }

  /** What the loop demands of all the items it has read. */
  ghost predicate Projectable(items: seq<Json>, selected: set<string>, maxSelected: int)
  {
    var kept := Kept(items);
    var firsts := Firsts(kept);
    var chosen := SelectedOf(firsts, selected);
    && AllIdentified(kept) && NoConflict(kept)
    && AllInventoried(firsts)
    && (chosen != [] ==> ArraySize(EncodeAll(chosen)) <= maxSelected)
  }

  lemma EncodeAllSnoc(xs: seq<Json>, v: Json)
    ensures EncodeAll(xs + [v]) == EncodeAll(xs) + [Encode(v)]
  {
    hide Encode;
    assert forall i :: 0 <= i < |xs| ==> (xs + [v])[i] == xs[i];
  }

  lemma IdentifiedIsKept(v: Json)
    requires ConversationId(v).Some?
    ensures v.Obj? && !Identityless(v)
  {
  }

  lemma QuarantineProjectable(items: seq<Json>, raw: Json, selected: set<string>, maxSelected: int)
    requires ConversationId(raw).None?
    ensures Identityless(raw) ==> Kept(items + [raw]) == Kept(items)
    ensures !Identityless(raw) ==> !Projectable(items + [raw], selected, maxSelected)
  {
    hide ConversationId, Encode, Firsts, Identityless, SelectedOf, AllInventoried, NoConflict;
    KeptSnoc(items, raw);
    if !Identityless(raw) {
      assert Kept(items + [raw])[|Kept(items)|] == raw;
    }
  }

  /** A new identity may be absorbed exactly when it can be inventoried and, if selected,
      its bytes still fit. */
  lemma FreshProjectable(items: seq<Json>, raw: Json, selected: set<string>, maxSelected: int)
    requires Projectable(items, selected, maxSelected)
    requires ConversationId(raw).Some? && !Seen(Kept(items), ConversationId(raw)) && raw.Obj?
    ensures
      var firsts := Firsts(Kept(items));
      var chosen := SelectedOf(firsts, selected);
      && Kept(items + [raw]) == Kept(items) + [raw]
      && Firsts(Kept(items + [raw])) == firsts + [raw]
      && (Projectable(items + [raw], selected, maxSelected) <==>
           && InventoryResult(raw.fields).Some?
           && (ConversationId(raw).value in selected ==>
                 ArraySize(EncodeAll(chosen) + [Encode(raw)]) <= maxSelected))
  {
    hide ConversationId, Encode, Firsts, SelectedOf, InventoryResult, Join, Seen, Kept, EncodeAll, NoConflict;
    hide AllIdentified;
    IdentifiedIsKept(raw);
    KeptSnoc(items, raw);
    FreshKeeps(Kept(items), raw);
    var firsts := Firsts(Kept(items));
    SelectedSnoc(firsts, raw, selected);
    EncodeAllSnoc(SelectedOf(firsts, selected), raw);
    var more := firsts + [raw];
    assert more[|firsts|] == raw && forall i :: 0 <= i < |firsts| ==> more[i] == firsts[i];
  }

  /** What the hash is fed grows by a comma, unless it is the first, and the next item. */
  lemma FedSnoc(firsts: seq<Json>, v: Json)
    ensures [OPEN] + Join(EncodeAll(firsts + [v]))
      == [OPEN] + Join(EncodeAll(firsts)) + (if firsts == [] then [] else [COMMA]) + Encode(v)
  {
    hide Encode, EncodeAll;
    EncodeAllSnoc(firsts, v);
    JoinSnoc(EncodeAll(firsts), Encode(v));
    assert |EncodeAll(firsts)| == |firsts| by { EncodeAllLength(firsts); }
    Associate([OPEN], Join(EncodeAll(firsts)), [COMMA] + Encode(v));
    Associate(Join(EncodeAll(firsts)), [COMMA], Encode(v));
  }

  lemma EncodeAllLength(xs: seq<Json>)
    ensures |EncodeAll(xs)| == |xs|
  {
  }

  /** The running state of a projection. */
  class ProjectionRun {
    const lib: Library
    const selected: set<string>
    const maxSelected: int
    const store: CanonicalStore
    var identities: map<string, StoredIdentity>
    var writeOffset: nat
    var fed: Bytes
    var started: bool
    var selectedParts: seq<Bytes>
    var selectedSize: nat
    var found: set<string>
    var outputCount: nat
    var duplicateCount: nat
    var quarantineCount: nat
    var quarantineMembers: set<nat>
    var counts: Counts
    ghost var items: seq<Json>

    ghost function FirstsSoFar(): seq<Json>
      reads this`items
    {
      Firsts(Kept(items))
    }

    ghost predicate Selection(firsts: seq<Json>)
      reads this`selectedParts, this`selectedSize, this`found
    {
      && selectedParts == EncodeAll(SelectedOf(firsts, selected))
      && selectedSize == ArraySize(selectedParts)
      && (selectedParts != [] ==> selectedSize <= maxSelected)
      && (forall id :: id in found <==> id in selected && Seen(firsts, Some(id)))
    }

    ghost predicate Totals(all: seq<Json>, firsts: seq<Json>)
      reads this`outputCount, this`duplicateCount, this`quarantineCount, this`counts
    {
      && outputCount == |firsts|
      && duplicateCount == |Kept(all)| - |firsts|
      && quarantineCount == |all| - |Kept(all)|
      && AllInventoried(firsts)
      && counts == InventorySum(firsts)
    }

    ghost predicate Storage(firsts: seq<Json>)
      reads this`identities, this`writeOffset, this`fed, this`started, store
    {
      && Tiles(store.content, identities, firsts, lib)
      && writeOffset == |store.content|
      && fed == [OPEN] + Join(EncodeAll(firsts))
      && (started <==> firsts != [])
    }

    ghost predicate Valid()
      reads this, store
    {
      var firsts := FirstsSoFar();
      && AllIdentified(Kept(items)) && NoConflict(Kept(items))
      && Storage(firsts)
      && Selection(firsts)
      && Totals(items, firsts)
    }

    constructor (lib: Library, selected: set<string>, maxSelected: int)
      ensures Valid() && items == [] && quarantineMembers == {} && fresh(store)
      ensures this.lib == lib && this.selected == selected && this.maxSelected == maxSelected
    {
      this.lib, this.selected, this.maxSelected := lib, selected, maxSelected;
      store := new CanonicalStore();
      identities, writeOffset, fed, started := map[], 0, [OPEN], false;
      selectedParts, selectedSize, found := [], 2, {};
      outputCount, duplicateCount, quarantineCount, quarantineMembers, counts := 0, 0, 0, {}, ZERO;
      items := [];
      new;
      assert EncodeAll([]) == [];
    }

    /** The state is one that the loop may be in. */
    lemma ValidIsProjectable()
      requires Valid()
      ensures Projectable(items, selected, maxSelected)
    {
      hide ConversationId, Encode, Firsts, Kept, SelectedOf, InventoryResult, Join, Tiles;
      assert SelectedOf(FirstsSoFar(), selected) == [] <==> selectedParts == [];
    }

    /** A conversation without an identity is counted and skipped. */
    method Quarantine(index: nat, ghost raw: Json)
      requires Valid() && Identityless(raw)
      modifies this
      ensures Valid() && items == old(items) + [raw]
      ensures quarantineMembers == old(quarantineMembers) + {index}
    {
      hide ConversationId, Encode, Firsts, Kept, SelectedOf, InventoryResult, Join, Tiles, Identityless, EncodeAll;
      hide AllIdentified, NoConflict, AllInventoried;
      KeptSnoc(items, raw);
      quarantineCount := quarantineCount + 1;
      quarantineMembers := quarantineMembers + {index};
      items := items + [raw];
    }

    /** The position of a known identity among the first occurrences. */
    lemma KnownIdentity(id: string) returns (i: nat)
      requires Valid() && id in identities
      ensures i < |FirstsSoFar()| && ConversationId(FirstsSoFar()[i]) == Some(id)
      ensures Placed(store.content, identities[id], FirstsSoFar()[i], lib)
    {
      hide ConversationId, Encode, Firsts, Kept, SelectedOf, InventoryResult, Join, Placed, EncodeAll;
      hide AllIdentified, NoConflict, AllInventoried, Selection, Totals;
      var firsts := FirstsSoFar();
      assert Seen(firsts, Some(id));
      i :| 0 <= i < |firsts| && ConversationId(firsts[i]) == Some(id);
    }

    /** A known identity: accepted as a duplicate exactly when the canonical bytes are the
        stored ones. */
    method AbsorbRepeat(raw: Json, id: string, canonical: Bytes, digest: string) returns (ok: bool)
      requires Valid() && ConversationId(raw) == Some(id) && id in identities
      requires canonical == Encode(raw) && digest == lib.sha256(canonical)
      modifies this, store
      ensures ok <==> Projectable(old(items) + [raw], selected, maxSelected)
      ensures ok ==> Valid() && items == old(items) + [raw]
      ensures quarantineMembers == old(quarantineMembers)
    {
      hide ConversationId, Encode, Firsts, Kept, SelectedOf, InventoryResult, Join, Placed, EncodeAll, SliceIs;
      hide ArraySize;
      hide AllIdentified, NoConflict, AllInventoried, Tiles, InventorySum;
      ghost var i := KnownIdentity(id);
      ghost var first := FirstsSoFar()[i];
      RepeatKeepsIff(Kept(items), raw, i);
      IdentifiedIsKept(raw);
      KeptSnoc(items, raw);
      PlacedFacts(store.content, identities[id], first, lib);
      PlacedDecides(store.content, identities[id], first, canonical, lib);
      ValidIsProjectable();
      var previous := identities[id];
      if previous.sha256 != digest || previous.byteCount != |canonical| { return false; }
      var equal := StoredBytesEqual(store, previous, canonical);
      if !equal { return false; }
      duplicateCount := duplicateCount + 1;
      items := items + [raw];
      return true;
    }

    /** Append the canonical bytes to the store and feed them to the aggregate hash. */
    method StoreCanonical(raw: Json, id: string, canonical: Bytes, digest: string, ghost firsts: seq<Json>)
      requires Storage(firsts) && ConversationId(raw) == Some(id) && id !in identities
      requires canonical == Encode(raw) && digest == lib.sha256(canonical)
      modifies this`identities, this`writeOffset, this`fed, this`started, store
      ensures Storage(firsts + [raw])
    {
      hide ConversationId, Encode, Placed, EncodeAll, Seen, Tiles;
      hide Join;
      TilesExtend(store.content, identities, firsts, lib, raw, id);
      FedSnoc(firsts, raw);
      store.Seek(writeOffset);
      store.Write(canonical);
      assert store.content == old(store.content) + canonical;
      identities := identities[id := StoredIdentity(digest, writeOffset, |canonical|)];
      writeOffset := writeOffset + |canonical|;
      if started { fed := fed + [COMMA]; }
      fed := fed + canonical;
      started := true;
    }

    /** Keep the canonical bytes when the conversation is selected, within the limit. */
    method Select(raw: Json, id: string, canonical: Bytes, ghost firsts: seq<Json>) returns (ok: bool)
      requires Selection(firsts) && ConversationId(raw) == Some(id) && canonical == Encode(raw)
      modifies this`selectedParts, this`selectedSize, this`found
      ensures ok <==> (id in selected ==>
        ArraySize(EncodeAll(SelectedOf(firsts, selected)) + [canonical]) <= maxSelected)
      ensures ok ==> Selection(firsts + [raw])
    {
      hide ConversationId, Encode, SelectedOf, EncodeAll, ArraySize, Seen;
      ghost var chosen := SelectedOf(firsts, selected);
      SelectedSnoc(firsts, raw, selected);
      EncodeAllSnoc(chosen, raw);
      ArraySizeSnoc(EncodeAll(chosen), canonical);
      forall k: string ensures Seen(firsts + [raw], Some(k)) <==> Seen(firsts, Some(k)) || k == id {
        SeenSnoc(firsts, raw, Some(k));
      }
      if id in selected {
        var additional := |canonical| + (if selectedParts != [] then 1 else 0);
        if selectedSize + additional > maxSelected { return false; }
        selectedParts := selectedParts + [canonical];
        selectedSize := selectedSize + additional;
        found := found + {id};
      }
      return true;
    }

    /** Count one more first occurrence. */
    method CountFresh(raw: Json, ghost all: seq<Json>, ghost firsts: seq<Json>) returns (ok: bool)
      requires Totals(all, firsts) && raw.Obj? && Kept(all + [raw]) == Kept(all) + [raw]
      modifies this`outputCount, this`counts
      ensures ok <==> InventoryResult(raw.fields).Some?
      ensures ok ==> Totals(all + [raw], firsts + [raw])
    {
      hide Kept, InventoryResult, InventorySum;
      InventorySnoc(firsts, raw);
      outputCount := outputCount + 1;
      var inventory := InventoryResult(raw.fields);
      if inventory.None? { return false; }
      counts := counts.Add(inventory.value);
      ghost var more := firsts + [raw];
      assert more[|firsts|] == raw && forall i :: 0 <= i < |firsts| ==> more[i] == firsts[i];
      return true;
    }

    /** A new identity: stored, hashed, counted and, if selected, kept. */
    method AbsorbFresh(raw: Json, id: string, canonical: Bytes, digest: string) returns (ok: bool)
      requires Valid() && ConversationId(raw) == Some(id) && id !in identities && raw.Obj?
      requires canonical == Encode(raw) && digest == lib.sha256(canonical)
      modifies this, store
      ensures ok <==> Projectable(old(items) + [raw], selected, maxSelected)
      ensures ok ==> Valid() && items == old(items) + [raw]
      ensures quarantineMembers == old(quarantineMembers)
    {
      hide ConversationId, Encode, Firsts, Kept, SelectedOf, InventoryResult, EncodeAll, ArraySize, Seen;
      hide Projectable, Selection, Storage, Totals, AllIdentified, NoConflict;
      ghost var firsts := FirstsSoFar();
      ghost var kept := Kept(items);
      ValidIsProjectable();
      UnknownIdentity(id);
      FreshProjectable(items, raw, selected, maxSelected);
      FreshKeeps(kept, raw);
      StoreCanonical(raw, id, canonical, digest, firsts);
      ok := CountFresh(raw, items, firsts);
      if !ok { return; }
      ok := Select(raw, id, canonical, firsts);
      items := items + [raw];
    }

    lemma UnknownIdentity(id: string)
      requires Valid() && id !in identities
      ensures !Seen(Kept(items), Some(id))
    {
      hide ConversationId, Encode, Firsts, Kept, SelectedOf, InventoryResult, Join, Placed, EncodeAll, Seen;
      FirstsSeen(Kept(items), Some(id));
    }

    /** One conversation of the inner loop. */
    method Absorb(index: nat, raw: Json) returns (ok: bool)
      requires Valid()
      modifies this, store
      ensures ok <==> Projectable(old(items) + [raw], selected, maxSelected)
      ensures ok ==> Valid() && items == old(items) + [raw]
      ensures ok ==> quarantineMembers == old(quarantineMembers) + (if Identityless(raw) then {index} else {})
    {
      hide ConversationId, Encode, Valid, Projectable, Identityless;
      var id := ConversationId(raw);
      if id.None? {
        QuarantineProjectable(items, raw, selected, maxSelected);
        if !Identityless(raw) { return false; }
        ValidIsProjectable();
        QuarantineKeeps(items, raw, selected, maxSelected);
        Quarantine(index, raw);
        return true;
      }
      IdentifiedIsKept(raw);
      var canonical := Encode(raw);
      var digest := lib.sha256(canonical);
      if id.value in identities {
        ok := AbsorbRepeat(raw, id.value, canonical, digest);
      } else {
        ok := AbsorbFresh(raw, id.value, canonical, digest);
      }
    }
  }

  lemma PlacedFacts(content: Bytes, stored: StoredIdentity, v: Json, lib: Library)
    requires Placed(content, stored, v, lib)
    ensures stored.sha256 == lib.sha256(Encode(v)) && stored.byteCount == |Encode(v)|
  {
  }

  lemma QuarantineKeeps(items: seq<Json>, raw: Json, selected: set<string>, maxSelected: int)
    requires Projectable(items, selected, maxSelected) && Identityless(raw)
    ensures Projectable(items + [raw], selected, maxSelected)
  {
    hide ConversationId, Encode, Firsts, Identityless, SelectedOf, AllInventoried, NoConflict, AllIdentified, ArraySize;
    KeptSnoc(items, raw);
  }
}
