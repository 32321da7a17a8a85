/** Which nodes of a conversation become messages (src/doll/chatgpt_export_import.py), said of
    the raw fields: what is read as a supported, an unsupported or a malformed message, where
    a message hangs, and how often each occurs. */
module ConversationMessages {
  import opened Outcomes
  import opened Json
  import opened Texts
  import opened ConversationMapping
  import opened ConversationAncestry
  import opened ConversationCounting

  // ----- raw fields --------------------------------------------------------------------

  predicate Vacant(m: Fields, key: string)
  {
    key !in m || m[key] == Null
  }

  predicate TextField(m: Fields, key: string, maximum: nat)
  {
    key in m && m[key].Str? && 1 <= |m[key].text| <= maximum
  }

  predicate ObjectField(m: Fields, key: string)
  {
    key in m && m[key].Obj?
  }

  /** A text that can name something: 1 to 256 characters, none of them a control character. */
  predicate IsName(id: string)
  {
    1 <= |id| <= 256 && forall i :: 0 <= i < |id| ==> id[i] as int >= 0x20 && id[i] as int != 0x7F
  }

  lemma IdentifierOf(v: Json)
    ensures Identifier(v) == if v.Str? && IsName(v.text) then Some(v.text) else None
  {
  }

  // ----- one message ---------------------------------------------------------------------

  /** What every message must have, supported or not. */
  predicate Readable(message: Json, n: string, validTime: Json -> bool)
  {
    && message.Obj? && IsName(n)
    && var m := message.fields;
    && (Vacant(m, "id") || (m["id"].Str? && IsName(m["id"].text)))
    && ObjectField(m, "author") && TextField(m["author"].fields, "role", 64)
    && ObjectField(m, "content") && TextField(m["content"].fields, "content_type", 128)
    && validTime(if "create_time" in m then m["create_time"] else Null)
  }

  /** The message is a text from one of the four roles. */
  predicate SaysText(message: Json, n: string, validTime: Json -> bool)
    requires Readable(message, n, validTime)
  {
    var role := message.fields["author"].fields["role"].text;
    && (role == "user" || role == "assistant" || role == "system" || role == "tool")
    && message.fields["content"].fields["content_type"].text == "text"
  }

  /** The text, as its list of parts. */
  predicate PartsListed(message: Json, n: string, validTime: Json -> bool)
    requires Readable(message, n, validTime)
  {
    var content := message.fields["content"].fields;
    "parts" in content && content["parts"].Arr?
  }

  /** The number of characters of all parts together, and of the line breaks between them. */
  function TextLength(parts: seq<Json>): nat
    requires forall p :: p in parts ==> p.Str?
  {
    if parts == [] then 0
    else if |parts| == 1 then |parts[0].text|
    else |parts[0].text| + 1 + TextLength(parts[1..])
  }

  /** The fields that only a supported message needs to have in order. */
  predicate DetailsReadable(message: Json, n: string, validTime: Json -> bool)
    requires Readable(message, n, validTime)
  {
    var m := message.fields;
    && (Vacant(m["author"].fields, "name") || TextField(m["author"].fields, "name", 256))
    && (Vacant(m, "status") || TextField(m, "status", 128))
    && (ObjectField(m, "metadata") && !Vacant(m["metadata"].fields, "model_slug") ==>
          TextField(m["metadata"].fields, "model_slug", 256))
  }

  /** A supported message: a text of the four roles whose parts are all texts, within the length
      limit and with its details in order. */
  predicate IsSupported(message: Json, n: string, validTime: Json -> bool)
  {
    && Readable(message, n, validTime) && SaysText(message, n, validTime) && PartsListed(message, n, validTime)
    && var parts := message.fields["content"].fields["parts"].items;
    && (forall p :: p in parts ==> p.Str?) && TextLength(parts) <= 1_048_576
    && DetailsReadable(message, n, validTime)
  }

  /** An unsupported message: readable, but not a text of the four roles, or one with a part that
      is no text. */
  predicate IsUnsupported(message: Json, n: string, validTime: Json -> bool)
  {
    && Readable(message, n, validTime)
    && (SaysText(message, n, validTime) ==>
          && PartsListed(message, n, validTime)
          && exists p :: p in message.fields["content"].fields["parts"].items && !p.Str?)
  }

  lemma {:induction false} JoinedIsTotal(parts: seq<Json>)
    requires AllTexts(parts)
    ensures JoinedLength(parts) == TextLength(parts)
  {
    if |parts| > 1 {
      JoinedIsTotal(parts[..|parts| - 1]);
      LengthSnoc(parts[..|parts| - 1], parts[|parts| - 1]);
      assert parts == parts[..|parts| - 1] + [parts[|parts| - 1]];
    }
  }

  lemma {:induction false} LengthSnoc(parts: seq<Json>, last: Json)
    requires parts != [] && last.Str? && forall p :: p in parts ==> p.Str?
    ensures forall p :: p in parts + [last] ==> p.Str?
    ensures TextLength(parts + [last]) == TextLength(parts) + 1 + |last.text|
  {
    if |parts| > 1 {
      LengthSnoc(parts[1..], last);
      assert (parts + [last])[1..] == parts[1..] + [last];
    } else {
      assert (parts + [last])[1..] == [last];
    }
  }

  /** What the reader makes of a message is decided by the raw fields alone. */
  lemma ReadMessageIff(message: Json, node: Fields, n: string, validTime: Json -> bool)
    ensures
      var r := ReadMessage(message, node, n, validTime);
      && (r.Some? && r.value.supported <==> IsSupported(message, n, validTime))
      && (r.Some? && !r.value.supported <==> IsUnsupported(message, n, validTime))
  {
    hide AttachmentReferences, Unknown, TextLength, JoinedLength, Identifier, IsName;
    IdentifierOf(Str(n));
    if message.Obj? {
      var m := message.fields;
      IdentifierOf(Get(m, "id"));
      var content := Get(m, "content");
      if content.Obj? {
        var parts := Get(content.fields, "parts");
        if parts.Arr? {
          if AllTexts(parts.items) {
            JoinedIsTotal(parts.items);
          } else {
            var p :| p in parts.items && !p.Str?;
          }
        }
      }
    }
  }

  // ----- where a message hangs --------------------------------------------------------------

  /** The node holds a message object. */
  predicate HoldsMessage(src: Source, p: string)
  {
    p in src.mapping && src.mapping[p].Obj? && ObjectField(src.mapping[p].fields, "message")
  }

  /** The search has gone from node to parent, through nodes of the mapping without a message,
      each met once. */
  ghost predicate Walk(src: Source, walk: seq<string>)
  {
    && AllObjects(src.mapping) && walk != [] && (forall i :: 0 <= i < |walk| ==> walk[i] in src.mapping)
    && (forall i :: 0 < i < |walk| ==> IsName(walk[i]) && !HoldsMessage(src, walk[i]))
    && (forall i :: 0 < i < |walk| ==> LeadsTo(src, walk[i - 1], walk[i]))
    && (forall i, j :: 0 < i < j < |walk| ==> walk[i] != walk[j])
  }

  predicate LeadsTo(src: Source, n: string, p: string)
  {
    && n in src.mapping && src.mapping[n].Obj?
    && "parent" in src.mapping[n].fields && src.mapping[n].fields["parent"] == Str(p)
  }

  /** How a search that has walked so far ends: at the root, in an error for a parent that is no
      name, or under a parent that holds a message, is not in the mapping or was met before. */
  ghost predicate SearchEnds(src: Source, walk: seq<string>, r: Option<Target>)
    requires Walk(src, walk)
  {
    var fields := src.mapping[walk[|walk| - 1]].fields;
    if Vacant(fields, "parent") then r == Some(Root)
    else if !fields["parent"].Str? || !IsName(fields["parent"].text) then r == None
    else
      var p := fields["parent"].text;
      r == Some(Under(p)) && (HoldsMessage(src, p) || p !in src.mapping || p in walk[1..])
  }

  /** On every mapping of objects, cyclic and dangling ones included, the search walks up and ends
      in one of these ways. */
  lemma SearchWalks(src: Source, n: string) returns (walk: seq<string>)
    requires AllObjects(src.mapping) && n in src.mapping
    ensures Walk(src, walk) && walk[0] == n && SearchEnds(src, walk, Nearest(src, ParentLink(src, n), {}))
  {
    walk := WalksOn(src, [n], {});
  }

  lemma {:induction false} WalksOn(src: Source, walk: seq<string>, visited: set<string>) returns (longer: seq<string>)
    requires Walk(src, walk) && forall p :: p in visited <==> p in walk[1..]
    ensures Walk(src, longer) && longer[0] == walk[0]
    ensures SearchEnds(src, longer, Nearest(src, ParentLink(src, walk[|walk| - 1]), visited))
    decreases |src.mapping.Keys - visited|
  {
    hide Identifier, IsName, Walk, Nearest;
    LastInMapping(src, walk);
    longer := walk;
    var last := walk[|walk| - 1];
    var link := ParentLink(src, last);
    SearchStep(src, link, visited);
    if link.Str? && IsName(link.text) {
      var p := link.text;
      if !(p in visited || HoldsMessage(src, p) || p !in src.mapping) {
        WalkExtends(src, walk, p);
        assert (walk + [p])[1..] == walk[1..] + [p];
        assert src.mapping.Keys - (visited + {p}) == (src.mapping.Keys - visited) - {p};
        longer := WalksOn(src, walk + [p], visited + {p});
      }
    }
  }

  lemma LastInMapping(src: Source, walk: seq<string>)
    requires Walk(src, walk)
    ensures AllObjects(src.mapping) && walk != [] && walk[|walk| - 1] in src.mapping
  {
  }

  lemma WalkExtends(src: Source, walk: seq<string>, p: string)
    requires Walk(src, walk) && p in src.mapping && p !in walk[1..] && IsName(p) && !HoldsMessage(src, p)
    requires LeadsTo(src, walk[|walk| - 1], p)
    ensures Walk(src, walk + [p])
  {
    hide IsName, HoldsMessage, LeadsTo;
    var more := walk + [p];
    assert forall i :: 0 <= i < |walk| ==> more[i] == walk[i];
    forall i | 0 < i < |walk| ensures walk[i] != p { assert walk[i] == walk[1..][i - 1]; }
    assert more[|more| - 1 - 1] == walk[|walk| - 1] && more[|more| - 1] == p;
  }

  /** One round of the search. */
  lemma SearchStep(src: Source, link: Json, visited: set<string>)
    requires AllObjects(src.mapping)
    ensures
      var r := Nearest(src, link, visited);
      if link == Null then r == Some(Root)
      else if !link.Str? || !IsName(link.text) then r == None
      else
        var p := link.text;
        if p in visited || HoldsMessage(src, p) || p !in src.mapping then r == Some(Under(p))
        else r == Nearest(src, ParentLink(src, p), visited + {p})
  {
    hide Identifier, IsName;
    IdentifierOf(link);
  }

  // ----- one node -----------------------------------------------------------------------------

  /** The node has a message, of whatever kind. */
  predicate HasMessage(src: Source, n: string)
    requires n in src.mapping && src.mapping[n].Obj?
  {
    !Vacant(src.mapping[n].fields, "message")
  }

  ghost predicate SupportedNode(src: Source, n: string)
    requires n in src.mapping && src.mapping[n].Obj?
  {
    && HasMessage(src, n) && Nearest(src, ParentLink(src, n), {}).Some?
    && IsSupported(src.mapping[n].fields["message"], n, src.validTime)
  }

  ghost predicate UnsupportedNode(src: Source, n: string)
    requires n in src.mapping && src.mapping[n].Obj?
  {
    && HasMessage(src, n) && Nearest(src, ParentLink(src, n), {}).Some?
    && IsUnsupported(src.mapping[n].fields["message"], n, src.validTime)
  }

  /** The branch that is taken, by the raw fields. */
  lemma BranchIff(src: Source, n: string)
    requires n in src.mapping && src.mapping[n].Obj?
    ensures
      var b := BranchOf(src, n);
      && (b.Messageless? <==> !HasMessage(src, n))
      && (b.Mapped? && b.view.supported <==> SupportedNode(src, n))
      && (b.Mapped? && !b.view.supported <==> UnsupportedNode(src, n))
      && (b.Rejected? <==> HasMessage(src, n) && !SupportedNode(src, n) && !UnsupportedNode(src, n))
  {
    hide Nearest, ReadMessage, IsSupported, IsUnsupported;
    if HasMessage(src, n) {
      ReadMessageIff(src.mapping[n].fields["message"], src.mapping[n].fields, n, src.validTime);
    }
  }

  lemma NodeEmits(src: Source, n: string, id: SourceId)
    requires n in src.mapping && src.mapping[n].Obj?
    ensures
      var b := BranchOf(src, n);
      (exists o :: o in NodeObjects(src, n) && o.id == id) <==>
        || (id == Message(n) && b.Mapped? && b.view.supported)
        || (id == Unsupported(n) && b.Mapped? && !b.view.supported)
        || (id == Malformed(n) && b.Rejected?)
        || (id == Attachment(n) && b.Mapped? && b.view.attachments != 0)
        || (id == UnknownInMessage(n) && b.Mapped? && b.view.unknown != 0)
        || (id == UnknownInNode(n) && b.Messageless? && b.unknown != 0)
  {
    hide BranchOf;
    var objects := NodeObjects(src, n);
    forall i | 0 <= i < |objects| ensures objects[i] in objects {}
    match BranchOf(src, n)
    case Mapped(view, target) =>
      assert objects[0] in objects;
      if view.attachments != 0 { assert objects[1].id == Attachment(n); }
      if view.unknown != 0 { assert objects[|objects| - 1].id == UnknownInMessage(n); }
    case _ =>
  }

  // ----- whole conversations -------------------------------------------------------------------

  /** A conversation is mapped exactly if its title and current node are readable or left out, its time
      parses, and its mapping is an object of objects. */
  lemma MappedIff(conversation: Fields, native: string, validTime: Json -> bool)
    ensures MapResult(conversation, native, validTime).Some? <==>
      && (Vacant(conversation, "title") || TextField(conversation, "title", 4096))
      && (Vacant(conversation, "current_node")
          || (conversation["current_node"].Str? && IsName(conversation["current_node"].text)))
      && validTime(if "create_time" in conversation then conversation["create_time"] else Null)
      && ObjectField(conversation, "mapping")
      && forall n :: n in conversation["mapping"].fields ==> conversation["mapping"].fields[n].Obj?
  {
    hide HeaderObjects, HeaderCounts, NodeObjects, Flatten, Sorted, SumOver, Identifier, IsName;
    IdentifierOf(Get(conversation, "current_node"));
  }

  /** Which identities a mapped conversation emits for a node: a message exactly for a supported
      node, an unsupported message exactly for an unsupported one, a malformed one exactly for
      any other node with a message. */
  lemma EmittedIff(conversation: Fields, native: string, validTime: Json -> bool, n: string)
    requires MapResult(conversation, native, validTime).Some? && n in SourceOf(conversation, native, validTime).mapping
    ensures AllObjects(SourceOf(conversation, native, validTime).mapping)
    ensures
      var src := SourceOf(conversation, native, validTime);
      var objects := MapResult(conversation, native, validTime).value.objects;
      && (IsEmitted(objects, Message(n)) <==> SupportedNode(src, n))
      && (IsEmitted(objects, Unsupported(n)) <==> UnsupportedNode(src, n))
      && (IsEmitted(objects, Malformed(n)) <==>
            HasMessage(src, n) && !SupportedNode(src, n) && !UnsupportedNode(src, n))
      && (IsEmitted(objects, UnknownInNode(n)) <==> !HasMessage(src, n) && !(src.mapping[n].fields.Keys <= NODE_KEYS))
  {
    hide HeaderObjects, HeaderCounts, NodeObjects, BranchOf, MapResult, Get, SupportedNode, UnsupportedNode, HasMessage;
    hide Unknown;
    MapResultValid(conversation, native, validTime);
    var src := SourceOf(conversation, native, validTime);
    BranchIff(src, n);
    MessagelessUnknown(src, n);
    NodeIdEmitted(conversation, native, validTime, n, Message(n));
    NodeIdEmitted(conversation, native, validTime, n, Unsupported(n));
    NodeIdEmitted(conversation, native, validTime, n, Malformed(n));
    NodeIdEmitted(conversation, native, validTime, n, UnknownInNode(n));
    NodeEmits(src, n, Message(n));
    NodeEmits(src, n, Unsupported(n));
    NodeEmits(src, n, Malformed(n));
    NodeEmits(src, n, UnknownInNode(n));
  }

  lemma MessagelessUnknown(src: Source, n: string)
    requires n in src.mapping && src.mapping[n].Obj?
    ensures BranchOf(src, n).Messageless? ==>
      (BranchOf(src, n).unknown != 0 <==> !(src.mapping[n].fields.Keys <= NODE_KEYS))
  {
    hide Nearest, ReadMessage;
    UnknownZero(src.mapping[n].fields, NODE_KEYS);
  }

  /** What concerns a node is emitted by that node. */
  lemma NodeIdEmitted(conversation: Fields, native: string, validTime: Json -> bool, n: string, id: SourceId)
    requires MapResult(conversation, native, validTime).Some? && Owner(id) == Some(n)
    requires n in SourceOf(conversation, native, validTime).mapping
    ensures AllObjects(SourceOf(conversation, native, validTime).mapping)
    ensures IsEmitted(MapResult(conversation, native, validTime).value.objects, id) <==>
      exists o :: o in NodeObjects(SourceOf(conversation, native, validTime), n) && o.id == id
  {
    hide HeaderObjects, HeaderCounts, NodeObjects, MapResult, Get;
    MapResultValid(conversation, native, validTime);
    HeaderDistinct(conversation);
    var src := SourceOf(conversation, native, validTime);
    var objects := MapResult(conversation, native, validTime).value.objects;
    forall o | o in objects && o.id == id ensures o in NodeObjects(src, n) {
      ObjectMembers(conversation, native, validTime, o);
      if o !in HeaderObjects(conversation) {
        var m :| m in src.mapping && o in NodeObjects(src, m);
        NodeObjectsOwned(src, m);
      }
    }
    forall o | o in NodeObjects(src, n) ensures o in objects { ObjectMembers(conversation, native, validTime, o); }
  }

  /** The conversation itself is emitted with no parent, and an object for unknown fields of its own
      exactly if it has some. */
  lemma HeaderEmitted(conversation: Fields, native: string, validTime: Json -> bool)
    requires MapResult(conversation, native, validTime).Some?
    ensures
      var objects := MapResult(conversation, native, validTime).value.objects;
      && objects != [] && objects[0] == Emitted(Conversation, [])
      && (IsEmitted(objects, UnknownInConversation) <==> !(conversation.Keys <= CONVERSATION_KEYS))
  {
    hide HeaderCounts, NodeObjects, Flatten, Sorted, SumOver, Get, Unknown;
    MapResultValid(conversation, native, validTime);
    UnknownZero(conversation, CONVERSATION_KEYS);
    var src := SourceOf(conversation, native, validTime);
    var objects := MapResult(conversation, native, validTime).value.objects;
    assert objects[0] == HeaderObjects(conversation)[0];
    forall o | o in objects && o.id == UnknownInConversation ensures o in HeaderObjects(conversation) {
      ObjectMembers(conversation, native, validTime, o);
      if o !in HeaderObjects(conversation) {
        var n :| n in src.mapping && o in NodeObjects(src, n);
        NodeObjectsOwned(src, n);
      }
    }
    if !(conversation.Keys <= CONVERSATION_KEYS) {
      assert objects[1] == HeaderObjects(conversation)[1];
    }
  }

  // ----- the inventory ------------------------------------------------------------------------------

  /** The number of fields with other names than the known ones, if the field holds an object. */
  function StrangeFields(m: Fields, key: string, known: set<string>): nat
  {
    if ObjectField(m, key) then |set k | k in m[key].fields && k !in known| else 0
  }

  /** What the inventory counts of one node, by its raw fields. */
  lemma InventoryMeans(raw: Json)
    ensures
      var c := InventoryNode(raw);
      && c.nodes == 0 && c.selected == 0 && c.supported == 0 && c.unsupported == 0
      && (!raw.Obj? ==> c == ZERO.(malformed := 1))
      && (raw.Obj? ==>
            var m, own := raw.fields, |set k | k in raw.fields && k !in NODE_KEYS|;
            && (Vacant(m, "message") ==> c == ZERO.(unknown := own))
            && (!Vacant(m, "message") && !ObjectField(m, "message") ==> c == ZERO.(malformed := 1, unknown := own))
            && (ObjectField(m, "message") ==>
                  var message := m["message"].fields;
                  && c.messages == 1
                  && c.malformed == (if ObjectField(message, "author") then 0 else 1)
                                    + (if ObjectField(message, "content") then 0 else 1)
                  && c.unknown == own + StrangeFields(m, "message", MESSAGE_KEYS)
                                  + StrangeFields(message, "author", AUTHOR_KEYS)
                                  + StrangeFields(message, "content", CONTENT_KEYS)
                  && c.attachments == (if ObjectField(message, "content")
                                       then AttachmentReferences(message["content"]) else 0)
                                      + (if "metadata" in message
                                         then AttachmentReferences(message["metadata"]) else 0)))
  {
    hide AttachmentReferences;
    NoReferences();
    if raw.Obj? {
      StrangeSet(raw.fields, NODE_KEYS);
      var message := Get(raw.fields, "message");
      if message.Obj? {
        StrangeSet(message.fields, MESSAGE_KEYS);
        var author, content := Get(message.fields, "author"), Get(message.fields, "content");
        if author.Obj? { StrangeSet(author.fields, AUTHOR_KEYS); }
        if content.Obj? { StrangeSet(content.fields, CONTENT_KEYS); }
      }
    }
  }

  lemma NoReferences()
    ensures AttachmentReferences(Null) == 0
  {
  }

  lemma StrangeSet(m: Fields, known: set<string>)
    ensures Unknown(m, known) == |set k | k in m && k !in known|
  {
    assert m.Keys - known == set k | k in m && k !in known;
  }

  // ----- counts ---------------------------------------------------------------------------------

  lemma {:induction false} SumCounts(
    f: string -> Counts, keys: set<string>, supported: set<string>, messages: set<string>)
    requires forall k :: k in keys ==>
      && f(k).supported == (if k in supported then 1 else 0)
      && f(k).messages == (if k in messages then 1 else 0)
    ensures SumOver(f, keys).supported == |keys * supported| && SumOver(f, keys).messages == |keys * messages|
  {
    hide Least;
    if keys == {} {
      assert keys * supported == {} && keys * messages == {};
    } else {
      var l := Least(keys);
      SumCounts(f, keys - {l}, supported, messages);
      CountOneMore(keys, l, supported);
      CountOneMore(keys, l, messages);
    }
  }

  /** The counts of a mapped conversation are the numbers of its nodes with a message, and of the
      supported ones among them. */
  lemma CountedKinds(conversation: Fields, native: string, validTime: Json -> bool)
    requires MapResult(conversation, native, validTime).Some?
    ensures AllObjects(SourceOf(conversation, native, validTime).mapping)
    ensures
      var src := SourceOf(conversation, native, validTime);
      var counts := MapResult(conversation, native, validTime).value.counts;
      && counts.nodes == |src.mapping|
      && counts.messages == |set n | n in src.mapping && HasMessage(src, n)|
      && counts.supported == |set n | n in src.mapping && SupportedNode(src, n)|
      && counts.unknown
         == |set k | k in conversation && k !in CONVERSATION_KEYS| + SumOver(NodeCounter(src), src.mapping.Keys).unknown
  {
    hide HeaderObjects, BranchOf, NodeCounts, SupportedNode, HasMessage, Flatten, Sorted, Get, Unknown, SumOver;
    var src := SourceOf(conversation, native, validTime);
    StrangeSet(conversation, CONVERSATION_KEYS);
    var supported := set n | n in src.mapping && SupportedNode(src, n);
    var messages := set n | n in src.mapping && HasMessage(src, n);
    var f := NodeCounter(src);
    forall k | k in src.mapping.Keys
      ensures f(k).nodes == 0 && f(k).supported == (if k in supported then 1 else 0)
      ensures f(k).messages == (if k in messages then 1 else 0)
    {
      NodeKindCounts(src, k);
    }
    SumCounts(f, src.mapping.Keys, supported, messages);
    NoNodesInSum(f, src.mapping.Keys);
    assert src.mapping.Keys * supported == supported && src.mapping.Keys * messages == messages;
  }

  lemma {:induction false} NoNodesInSum(f: string -> Counts, keys: set<string>)
    requires forall k :: k in keys ==> f(k).nodes == 0
    ensures SumOver(f, keys).nodes == 0
  {
    hide Least;
    if keys != {} { NoNodesInSum(f, keys - {Least(keys)}); }
  }

  lemma NodeKindCounts(src: Source, n: string)
    requires n in src.mapping && src.mapping[n].Obj?
    ensures NodeCounts(src, n).nodes == 0
    ensures NodeCounts(src, n).supported == (if SupportedNode(src, n) then 1 else 0)
    ensures NodeCounts(src, n).messages == (if HasMessage(src, n) then 1 else 0)
  {
    hide BranchOf, SupportedNode, HasMessage, UnsupportedNode;
    BranchIff(src, n);
  }

  // ----- attachment references -------------------------------------------------------------------

  /** The keys of all objects inside a value, with repetitions. */
  function KeysInside(v: Json): seq<string>
    decreases v, 1, 0
  {
    match v
    case Obj(m) => SortedProperties(m.Keys); Sorted(m.Keys) + KeysInFields(v, Sorted(m.Keys))
    case Arr(xs) => KeysInItems(xs)
    case _ => []
  }

  function KeysInFields(o: Json, keys: seq<string>): seq<string>
    requires o.Obj? && forall k :: k in keys ==> k in o.fields
    decreases o, 0, |keys|
  {
    if keys == [] then [] else KeysInside(o.fields[keys[0]]) + KeysInFields(o, keys[1..])
  }

  function KeysInItems(xs: seq<Json>): seq<string>
    decreases xs, 0, 0
  {
    if xs == [] then [] else KeysInside(xs[0]) + KeysInItems(xs[1..])
  }

  predicate PointsToFile(key: string)
  {
    key == "asset_pointer" || key == "file_id" || key == "attachment_id" || key == "image_asset_pointer"
  }

  function Pointers(keys: seq<string>): nat
  {
    if keys == [] then 0 else (if PointsToFile(keys[0]) then 1 else 0) + Pointers(keys[1..])
  }

  lemma {:induction false} PointersAdd(a: seq<string>, b: seq<string>)
    ensures Pointers(a + b) == Pointers(a) + Pointers(b)
  {
    if a == [] {
      assert a + b == b;
    } else {
      PointersAdd(a[1..], b);
      assert (a + b)[1..] == a[1..] + b;
    }
  }

  lemma {:induction false} PointersOfSet(keys: seq<string>, all: set<string>)
    requires Distinct(keys) && forall k :: k in keys <==> k in all
    ensures Pointers(keys) == |all * ATTACHMENT_KEYS|
  {
    if keys == [] {
      assert all == {};
    } else {
      var k := keys[0];
      assert keys == [k] + keys[1..];
      PointersOfSet(keys[1..], all - {k});
      CountOneMore(all, k, ATTACHMENT_KEYS);
    }
  }

  /** The references are the keys, anywhere inside, that point to a file. */
  lemma {:induction false} ReferencesCounted(v: Json)
    ensures AttachmentReferences(v) == Pointers(KeysInside(v))
    decreases v, 1, 0
  {
    hide Sorted, Pointers;
    match v
    case Obj(m) =>
      SortedProperties(m.Keys);
      var keys := Sorted(m.Keys);
      FieldReferencesCounted(v, keys);
      PointersOfSet(keys, m.Keys);
      PointersAdd(keys, KeysInFields(v, keys));
    case Arr(xs) => ItemReferencesCounted(xs);
    case _ => NoPointers();
  }

  lemma NoPointers()
    ensures Pointers([]) == 0
  {
  }

  lemma {:induction false} FieldReferencesCounted(o: Json, keys: seq<string>)
    requires o.Obj? && forall k :: k in keys ==> k in o.fields
    ensures FieldReferences(o, keys) == Pointers(KeysInFields(o, keys))
    decreases o, 0, |keys|
  {
    hide Pointers;
    NoPointers();
    if keys != [] {
      ReferencesCounted(o.fields[keys[0]]);
      FieldReferencesCounted(o, keys[1..]);
      PointersAdd(KeysInside(o.fields[keys[0]]), KeysInFields(o, keys[1..]));
    }
  }

  lemma {:induction false} ItemReferencesCounted(xs: seq<Json>)
    ensures ItemReferences(xs) == Pointers(KeysInItems(xs))
    decreases xs, 0, 0
  {
    hide Pointers;
    NoPointers();
    if xs != [] {
      ReferencesCounted(xs[0]);
      ItemReferencesCounted(xs[1..]);
      PointersAdd(KeysInside(xs[0]), KeysInItems(xs[1..]));
    }
  }
}
