/** Mapping of one exported conversation (src/doll/chatgpt_export_import.py): the node
    graph is contracted onto its message nodes, and two independent passes count it. */
module ConversationMapping {
  import opened Outcomes
  import opened Json
  import opened Texts

  type Fields = map<string, Json>

  datatype Counts = Counts(
    nodes: nat, messages: nat, selected: nat, supported: nat, unsupported: nat,
    attachments: nat, malformed: nat, unknown: nat)
  {
    function Add(other: Counts): Counts
    {
      Counts(nodes + other.nodes, messages + other.messages, selected + other.selected,
             supported + other.supported, unsupported + other.unsupported,
             attachments + other.attachments, malformed + other.malformed,
             unknown + other.unknown)
    }
  }

  const ZERO := Counts(0, 0, 0, 0, 0, 0, 0, 0)

  lemma AddSwap(a: Counts, b: Counts, c: Counts)
    ensures a.Add(b.Add(c)) == b.Add(a.Add(c))
    ensures a.Add(b.Add(c)) == a.Add(b).Add(c)
    ensures a.Add(b) == b.Add(a)
  {
  }

  /** Counts added up over a set of nodes, whatever the order. */
  function SumOver(count: string -> Counts, keys: set<string>): Counts
  {
    if keys == {} then ZERO
    else
      var k := Least(keys);
      count(k).Add(SumOver(count, keys - {k}))
  }

  lemma {:induction false} SumExtract(count: string -> Counts, keys: set<string>, k: string)
    requires k in keys
    ensures SumOver(count, keys) == count(k).Add(SumOver(count, keys - {k}))
  {
    hide Least;
    var l := Least(keys);
    if l != k {
      SumExtract(count, keys - {l}, k);
      SumExtract(count, keys - {k}, l);
      assert keys - {l} - {k} == keys - {k} - {l};
      AddSwap(count(l), count(k), SumOver(count, keys - {k} - {l}));
    }
  }

  /** Counts added up in a loop over a list of nodes. */
  function SumList(count: string -> Counts, keys: seq<string>): Counts
  {
    if keys == [] then ZERO
    else SumList(count, keys[..|keys| - 1]).Add(count(keys[|keys| - 1]))
  }

  lemma {:induction false} SumListIsSumOver(count: string -> Counts, keys: seq<string>, all: set<string>)
    requires Distinct(keys) && forall k :: k in keys <==> k in all
    ensures SumList(count, keys) == SumOver(count, all)
  {
    if keys == [] {
      assert all == {};
    } else {
      var front, last := keys[..|keys| - 1], keys[|keys| - 1];
      assert keys == front + [last];
      SumListIsSumOver(count, front, all - {last});
      SumExtract(count, all, last);
      AddSwap(SumOver(count, all - {last}), count(last), ZERO);
    }
  }

  const CONVERSATION_KEYS := {
    "id", "conversation_id", "title", "create_time", "update_time", "mapping", "current_node",
    "conversation_template_id", "gizmo_id", "is_archived", "is_starred", "safe_urls",
    "blocked_urls", "default_model_slug", "conversation_origin", "voice", "async_status",
    "disabled_tool_ids", "is_do_not_remember", "project_id", "sugar_item_id",
    "sugar_item_visible", "context_scopes", "moderation_results", "plugin_ids" }
  const NODE_KEYS := {"id", "message", "parent", "children"}
  const MESSAGE_KEYS := {
    "id", "author", "create_time", "update_time", "content", "status", "end_turn", "weight",
    "metadata", "recipient", "channel" }
  const AUTHOR_KEYS := {"role", "name", "metadata"}
  const CONTENT_KEYS := {
    "content_type", "parts", "text", "result", "language", "response_format_name" }
  const ATTACHMENT_KEYS := {"asset_pointer", "file_id", "attachment_id", "image_asset_pointer"}
  const ROLES := {"user", "assistant", "system", "tool"}
  const MAX_TEXT_LENGTH := 1_048_576

  function Unknown(fields: Fields, known: set<string>): nat
  {
    |fields.Keys - known|
  }

  // ----- field readers: `None` stands for a raised import error ---------------

  function BoundedText(v: Json, maximum: nat): Option<string>
  {
    if v.Str? && v.text != [] && |v.text| <= maximum then Some(v.text) else None
  }

  predicate OptionalText(v: Json, maximum: nat)
  {
    v == Null || BoundedText(v, maximum).Some?
  }

  /** A text of 1 to 256 characters, none of them a control character. */
  function Identifier(v: Json): Option<string>
  {
    if BoundedText(v, 256).Some?
       && forall i :: 0 <= i < |v.text| ==> !(v.text[i] as int <= 0x1F || v.text[i] as int == 0x7F)
    then Some(v.text)
    else None
  }

  predicate OptionalIdentifier(v: Json)
  {
    v == Null || Identifier(v).Some?
  }

  /** References to attachments anywhere inside a value. */
  function AttachmentReferences(v: Json): nat
    decreases v, 1, 0
  {
    match v
    case Obj(m) => SortedProperties(m.Keys); |m.Keys * ATTACHMENT_KEYS| + FieldReferences(v, Sorted(m.Keys))
    case Arr(xs) => ItemReferences(xs)
    case _ => 0
  }

  function FieldReferences(o: Json, keys: seq<string>): nat
    requires o.Obj? && forall k :: k in keys ==> k in o.fields
    decreases o, 0, |keys|
  {
    if keys == [] then 0
    else AttachmentReferences(o.fields[keys[0]]) + FieldReferences(o, keys[1..])
  }

  function ItemReferences(xs: seq<Json>): nat
    decreases xs, 0, 0
  {
    if xs == [] then 0 else AttachmentReferences(xs[0]) + ItemReferences(xs[1..])
  }

  // ----- one message -----------------------------------------------------------

  /** What `_map_message` learns about a message it does not reject. */
  datatype MessageView = MessageView(supported: bool, attachments: nat, unknown: nat)

  predicate AllTexts(parts: seq<Json>)
  {
    forall p :: p in parts ==> p.Str?
  }

  /** `len("\n".join(parts))`. */
  function JoinedLength(parts: seq<Json>): nat
    requires AllTexts(parts)
  {
    if parts == [] then 0
    else if |parts| == 1 then |parts[0].text|
    else JoinedLength(parts[..|parts| - 1]) + 1 + |parts[|parts| - 1].text|
  }

  /** The message's `metadata.model_slug`, or null when metadata is not an object. */
  function ModelSlug(metadata: Json): Json
  {
    if metadata.Obj? then Get(metadata.fields, "model_slug") else Null
  }

  /** Reads one message object; `validTime` says which `create_time` values parse. */
  function ReadMessage(message: Json, node: Fields, nodeId: string, validTime: Json -> bool): Option<MessageView>
  {
    if !message.Obj? || Identifier(Str(nodeId)).None? then None
    else
      var m := message.fields;
      var author, content := Get(m, "author"), Get(m, "content");
      if !OptionalIdentifier(Get(m, "id")) || !author.Obj? || !content.Obj? then None
      else
        var role := BoundedText(Get(author.fields, "role"), 64);
        var kind := BoundedText(Get(content.fields, "content_type"), 128);
        if role.None? || kind.None? || !validTime(Get(m, "create_time")) then None
        else
          var unknown := Unknown(node, NODE_KEYS) + Unknown(m, MESSAGE_KEYS)
            + Unknown(author.fields, AUTHOR_KEYS) + Unknown(content.fields, CONTENT_KEYS);
          var attachments := AttachmentReferences(content) + AttachmentReferences(Get(m, "metadata"));
          if role.value !in ROLES || kind.value != "text" then
            Some(MessageView(false, attachments, unknown))
          else
            var parts := Get(content.fields, "parts");
            if !parts.Arr? then None
            else if !AllTexts(parts.items) then Some(MessageView(false, attachments, unknown))
            else if JoinedLength(parts.items) > MAX_TEXT_LENGTH
              || !OptionalText(Get(author.fields, "name"), 256)
              || !OptionalText(Get(m, "status"), 128)
              || !OptionalText(ModelSlug(Get(m, "metadata")), 256)
            then None
            else Some(MessageView(true, attachments, unknown))
  }

  // ----- the nearest message above a node ---------------------------------------

  datatype Source = Source(native: string, mapping: Fields, validTime: Json -> bool)

  predicate IsMessageNode(src: Source, n: string)
  {
    n in src.mapping && src.mapping[n].Obj? && Get(src.mapping[n].fields, "message").Obj?
  }

  /** Where a message hangs: under the conversation itself or under another node. */
  datatype Target = Root | Under(node: string)

  /** Follow parent links from `current`; `None` stands for a raised import error. */
  function Nearest(src: Source, current: Json, visited: set<string>): Option<Target>
    decreases |src.mapping.Keys - visited|
  {
    if current == Null then Some(Root)
    else
      var parent := Identifier(current);
      if parent.None? then None
      else
        var p := parent.value;
        if p in visited || IsMessageNode(src, p) || Get(src.mapping, p) == Null then Some(Under(p))
        else if !src.mapping[p].Obj? then None
        else
          assert src.mapping.Keys - (visited + {p}) == (src.mapping.Keys - visited) - {p};
          Nearest(src, Get(src.mapping[p].fields, "parent"), visited + {p})
  }

  /** The pointer-chasing loop, on any mapping: cyclic and dangling ones included. */
  method NearestMessageParent(src: Source, node: Fields) returns (r: Option<Target>)
    ensures r == Nearest(src, Get(node, "parent"), {})
  {
    var current := Get(node, "parent");
    var visited: set<string> := {};
    while current != Null
      invariant Nearest(src, current, visited) == Nearest(src, Get(node, "parent"), {})
      decreases |src.mapping.Keys - visited|, if current == Null then 0 else 1
    {
      var parent := Identifier(current);
      if parent.None? { return None; }
      var p := parent.value;
      if p in visited { return Some(Under(p)); }
      ghost var before := visited;
      visited := visited + {p};
      if IsMessageNode(src, p) { return Some(Under(p)); }
      if Get(src.mapping, p) == Null { return Some(Under(p)); }
      if !src.mapping[p].Obj? { return None; }
      assert src.mapping.Keys - visited == (src.mapping.Keys - before) - {p};
      current := Get(src.mapping[p].fields, "parent");
    }
    return Some(Root);
  }

  // ----- emitted objects -----------------------------------------------------------

  /** The identities a mapped conversation hands to the importer. */
  datatype SourceId =
    | Conversation
    | Message(node: string)
    | Unsupported(node: string)
    | Attachment(node: string)
    | Malformed(node: string)
    | UnknownInConversation
    | UnknownInNode(node: string)
    | UnknownInMessage(node: string)

  datatype Emitted = Emitted(id: SourceId, parents: seq<SourceId>)

  function TargetId(t: Target): SourceId
  {
    match t
    case Root => Conversation
    case Under(n) => Message(n)
  }

  function MessageObjects(view: MessageView, n: string, target: Target): seq<Emitted>
  {
    var anchor := if view.supported then Message(n) else Conversation;
    [Emitted(if view.supported then Message(n) else Unsupported(n), [TargetId(target)])]
    + (if view.attachments != 0 then [Emitted(Attachment(n), [anchor])] else [])
    + (if view.unknown != 0 then [Emitted(UnknownInMessage(n), [anchor])] else [])
  }

  function MessageCounts(view: MessageView): Counts
  {
    Counts(0, 1, 1, if view.supported then 1 else 0, if view.supported then 0 else 1,
           view.attachments, 0, view.unknown)
  }

  const MALFORMED_COUNTS := Counts(0, 1, 1, 0, 1, 0, 1, 0)

  /** The branch that `_map_conversation` takes for one node. */
  datatype Branch =
    | Messageless(unknown: nat)
    | Mapped(view: MessageView, target: Target)
    | Rejected

  function BranchOf(src: Source, n: string): Branch
    requires n in src.mapping && src.mapping[n].Obj?
  {
    var node := src.mapping[n].fields;
    var message := Get(node, "message");
    if message == Null then Messageless(Unknown(node, NODE_KEYS))
    else
      var target := Nearest(src, Get(node, "parent"), {});
      var view := ReadMessage(message, node, n, src.validTime);
      if target.None? || view.None? then Rejected else Mapped(view.value, target.value)
  }

  function NodeObjects(src: Source, n: string): seq<Emitted>
    requires n in src.mapping && src.mapping[n].Obj?
  {
    match BranchOf(src, n)
    case Messageless(u) => if u != 0 then [Emitted(UnknownInNode(n), [Conversation])] else []
    case Mapped(view, target) => MessageObjects(view, n, target)
    case Rejected => [Emitted(Malformed(n), [Conversation])]
  }

  function NodeCounts(src: Source, n: string): Counts
    requires n in src.mapping && src.mapping[n].Obj?
  {
    match BranchOf(src, n)
    case Messageless(u) => ZERO.(malformed := if u != 0 then 1 else 0, unknown := u)
    case Mapped(view, _) => MessageCounts(view)
    case Rejected => MALFORMED_COUNTS
  }

  /** Every value of the mapping is an object; otherwise the whole call raises. */
  predicate AllObjects(mapping: Fields)
  {
    forall n :: n in mapping ==> mapping[n].Obj?
  }

  function NodeEmitter(src: Source): string -> seq<Emitted>
  {
    (n: string) => if n in src.mapping && src.mapping[n].Obj? then NodeObjects(src, n) else []
  }

  /** The objects of a list of nodes, in that order. */
  function Flatten(emit: string -> seq<Emitted>, keys: seq<string>): seq<Emitted>
  {
    if keys == [] then []
    else Flatten(emit, keys[..|keys| - 1]) + emit(keys[|keys| - 1])
  }

  function NodeCounter(src: Source): string -> Counts
  {
    (n: string) => if n in src.mapping && src.mapping[n].Obj? then NodeCounts(src, n) else ZERO
  }

  // ----- the mapping pass -----------------------------------------------------------

  /** The conversation's own fields that must be readable before any node is. */
  predicate HeaderValid(conversation: Fields, validTime: Json -> bool)
  {
    && OptionalText(Get(conversation, "title"), 4096)
    && validTime(Get(conversation, "create_time"))
    && Get(conversation, "mapping").Obj?
    && OptionalIdentifier(Get(conversation, "current_node"))
  }

  function HeaderObjects(conversation: Fields): seq<Emitted>
  {
    [Emitted(Conversation, [])]
    + (if Unknown(conversation, CONVERSATION_KEYS) != 0
       then [Emitted(UnknownInConversation, [Conversation])] else [])
  }

  function HeaderCounts(conversation: Fields): Counts
    requires Get(conversation, "mapping").Obj?
  {
    ZERO.(nodes := |Get(conversation, "mapping").fields|,
          unknown := Unknown(conversation, CONVERSATION_KEYS))
  }

  datatype MappedConversation = MappedConversation(objects: seq<Emitted>, counts: Counts)

  function SourceOf(conversation: Fields, native: string, validTime: Json -> bool): Source
    requires Get(conversation, "mapping").Obj?
  {
    Source(native, Get(conversation, "mapping").fields, validTime)
  }

  /** What mapping a conversation yields; `None` stands for a raised import error. */
  function MapResult(conversation: Fields, native: string, validTime: Json -> bool): Option<MappedConversation>
  {
    if !HeaderValid(conversation, validTime) then None
    else
      var src := SourceOf(conversation, native, validTime);
      if !AllObjects(src.mapping) then None
      else
        Some(MappedConversation(
               HeaderObjects(conversation) + Flatten(NodeEmitter(src), Sorted(src.mapping.Keys)),
               HeaderCounts(conversation).Add(SumOver(NodeCounter(src), src.mapping.Keys))))
  }

  /** One iteration of the mapping loop. */
  method MapNode(src: Source, n: string) returns (emitted: seq<Emitted>, item: Counts)
    requires n in src.mapping && src.mapping[n].Obj?
    ensures emitted == NodeEmitter(src)(n) && item == NodeCounter(src)(n)
  {
    var node := src.mapping[n].fields;
    var message := Get(node, "message");
    if message == Null {
      var unknown := Unknown(node, NODE_KEYS);
      item := ZERO.(malformed := if unknown == 0 then 0 else 1, unknown := unknown);
      emitted := if unknown != 0 then [Emitted(UnknownInNode(n), [Conversation])] else [];
      return;
    }
    var parent := NearestMessageParent(src, node);
    if parent.Some? {
      var view := ReadMessage(message, node, n, src.validTime);
      if view.Some? {
        return MessageObjects(view.value, n, parent.value), MessageCounts(view.value);
      }
    }
    return [Emitted(Malformed(n), [Conversation])], MALFORMED_COUNTS;
  }

  /** The loop over the sorted node identifiers; `None` when a node is not an object. */
  method MapNodes(src: Source, keys: seq<string>) returns (r: Option<MappedConversation>)
    requires forall k :: k in keys ==> k in src.mapping
    ensures r.Some? <==> forall k :: k in keys ==> src.mapping[k].Obj?
    ensures r.Some? ==> r.value == MappedConversation(Flatten(NodeEmitter(src), keys), SumList(NodeCounter(src), keys))
  {
    hide NodeObjects, NodeCounts;
    var objects: seq<Emitted> := [];
    var counts := ZERO;
    for i := 0 to |keys|
      invariant forall j :: 0 <= j < i ==> src.mapping[keys[j]].Obj?
      invariant objects == Flatten(NodeEmitter(src), keys[..i])
      invariant counts == SumList(NodeCounter(src), keys[..i])
    {
      if !src.mapping[keys[i]].Obj? { return None; }
      var emitted, item := MapNode(src, keys[i]);
      assert keys[..i + 1][..i] == keys[..i];
      objects := objects + emitted;
      counts := counts.Add(item);
    }
    assert keys[..|keys|] == keys;
    return Some(MappedConversation(objects, counts));
  }

  method MapConversation(conversation: Fields, native: string, validTime: Json -> bool)
    returns (r: Option<MappedConversation>)
    ensures r == MapResult(conversation, native, validTime)
  {
    hide HeaderObjects, HeaderCounts, NodeObjects, NodeCounts;
    if !HeaderValid(conversation, validTime) { return None; }
    var src := SourceOf(conversation, native, validTime);
    var keys := Sorted(src.mapping.Keys);
    SortedProperties(src.mapping.Keys);
    var body := MapNodes(src, keys);
    if body.None? { return None; }
    SumListIsSumOver(NodeCounter(src), keys, src.mapping.Keys);
    return Some(MappedConversation(HeaderObjects(conversation) + body.value.objects,
                                   HeaderCounts(conversation).Add(body.value.counts)));
  }

  // ----- the inventory pass ------------------------------------------------------------

  /** What the inventory pass adds for one value of the mapping. */
  function InventoryNode(raw: Json): Counts
  {
    if !raw.Obj? then ZERO.(malformed := 1)
    else
      var unknown := Unknown(raw.fields, NODE_KEYS);
      var message := Get(raw.fields, "message");
      if message == Null then ZERO.(unknown := unknown)
      else if !message.Obj? then ZERO.(malformed := 1, unknown := unknown)
      else
        InventoryMessage(message.fields).Add(ZERO.(unknown := unknown))
  }

  function InventoryMessage(m: Fields): Counts
  {
    var author, content := Get(m, "author"), Get(m, "content");
    ZERO.(messages := 1,
          attachments := (if content.Obj? then AttachmentReferences(content) else 0)
            + AttachmentReferences(Get(m, "metadata")),
          malformed := (if author.Obj? then 0 else 1) + (if content.Obj? then 0 else 1),
          unknown := Unknown(m, MESSAGE_KEYS)
            + (if author.Obj? then Unknown(author.fields, AUTHOR_KEYS) else 0)
            + (if content.Obj? then Unknown(content.fields, CONTENT_KEYS) else 0))
  }

  function InventoryCounter(mapping: Fields): string -> Counts
  {
    (n: string) => if n in mapping then InventoryNode(mapping[n]) else ZERO
  }

  /** The inventory of a conversation; `None` when its mapping is not an object. */
  function InventoryResult(conversation: Fields): Option<Counts>
  {
    if !Get(conversation, "mapping").Obj? then None
    else
      var mapping := Get(conversation, "mapping").fields;
      Some(HeaderCounts(conversation).Add(SumOver(InventoryCounter(mapping), mapping.Keys)))
  }

  /** The counting loop over `mapping.values()`; `order` is whatever order the
      dictionary yields its keys in, and does not matter. */
  method InventoryConversation(conversation: Fields, order: seq<string>) returns (r: Option<Counts>)
    requires Get(conversation, "mapping").Obj? ==>
      && (forall k :: k in order <==> k in Get(conversation, "mapping").fields.Keys)
      && Distinct(order)
    ensures r == InventoryResult(conversation)
  {
    hide InventoryNode, HeaderCounts, Get;
    if !Get(conversation, "mapping").Obj? { return None; }
    var mapping := Get(conversation, "mapping").fields;
    var counts := HeaderCounts(conversation);
    for i := 0 to |order|
      invariant counts == HeaderCounts(conversation).Add(SumList(InventoryCounter(mapping), order[..i]))
    {
      assert order[..i + 1][..i] == order[..i];
      counts := counts.Add(InventoryCounter(mapping)(order[i]));
    }
    assert order[..|order|] == order;
    SumListIsSumOver(InventoryCounter(mapping), order, mapping.Keys);
    return Some(counts);
  }
}
