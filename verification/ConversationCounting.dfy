/** The mapping pass and the inventory pass count the same conversation. */
module ConversationCounting {
  import opened Json
  import opened Texts
  import opened ConversationMapping

  // ----- termwise facts add up ---------------------------------------------------

  predicate MessagesSplit(c: Counts)
  {
    c.messages == c.selected && c.messages == c.supported + c.unsupported
  }

  lemma SplitsAdd(a: Counts, b: Counts)
    requires MessagesSplit(a) && MessagesSplit(b)
    ensures MessagesSplit(a.Add(b))
  {
  }

  lemma {:induction false} SumsSplit(f: string -> Counts, keys: set<string>)
    requires forall k :: k in keys ==> MessagesSplit(f(k))
    ensures MessagesSplit(SumOver(f, keys))
  {
    hide Least;
    if keys != {} {
      var l := Least(keys);
      SumsSplit(f, keys - {l});
      SplitsAdd(f(l), SumOver(f, keys - {l}));
    }
  }

  /** One count against another over the same nodes: the total difference is the number of nodes
      where the first is one ahead less the number where the second is. */
  lemma {:induction false} MalformedBalance(
    f: string -> Counts, g: string -> Counts, keys: set<string>, ahead: set<string>, behind: set<string>)
    requires forall k :: k in keys ==>
      f(k).malformed + (if k in behind then 1 else 0) == g(k).malformed + (if k in ahead then 1 else 0)
    ensures SumOver(f, keys).malformed + |keys * behind| == SumOver(g, keys).malformed + |keys * ahead|
  {
    hide Least;
    if keys == {} {
      assert keys * behind == {} && keys * ahead == {};
    } else {
      var l := Least(keys);
      MalformedBalance(f, g, keys - {l}, ahead, behind);
      CountOneMore(keys, l, ahead);
      CountOneMore(keys, l, behind);
    }
  }

  lemma CountOneMore(keys: set<string>, l: string, some: set<string>)
    requires l in keys
    ensures |keys * some| == |(keys - {l}) * some| + (if l in some then 1 else 0)
  {
    var rest := (keys - {l}) * some;
    assert keys * some == if l in some then rest + {l} else rest;
  }

  predicate Within(a: Counts, b: Counts)
  {
    a.nodes == b.nodes && a.attachments <= b.attachments && a.unknown <= b.unknown
  }

  lemma {:induction false} SumsWithin(f: string -> Counts, g: string -> Counts, keys: set<string>)
    requires forall k :: k in keys ==> Within(f(k), g(k))
    ensures Within(SumOver(f, keys), SumOver(g, keys))
    ensures SumOver(f, keys).attachments == SumOver(g, keys).attachments <==>
      forall k :: k in keys ==> f(k).attachments == g(k).attachments
    ensures SumOver(f, keys).unknown == SumOver(g, keys).unknown <==>
      forall k :: k in keys ==> f(k).unknown == g(k).unknown
  {
    hide Least;
    if keys != {} {
      var l := Least(keys);
      SumsWithin(f, g, keys - {l});
      assert forall k :: k in keys <==> k == l || k in keys - {l};
    }
  }

  lemma {:induction false} MessageSums(f: string -> Counts, g: string -> Counts, keys: set<string>)
    requires forall k :: k in keys ==> f(k).messages >= g(k).messages
    ensures SumOver(f, keys).messages >= SumOver(g, keys).messages
    ensures SumOver(f, keys).messages == SumOver(g, keys).messages <==>
      forall k :: k in keys ==> f(k).messages == g(k).messages
  {
    hide Least;
    if keys != {} {
      var l := Least(keys);
      MessageSums(f, g, keys - {l});
      assert forall k :: k in keys <==> k == l || k in keys - {l};
    }
  }

  // ----- one node ------------------------------------------------------------------

  /** The mapping pass alone calls the node malformed: it has unknown fields and no message, or
      its message has author and content and is rejected for another reason. */
  predicate MappingAhead(src: Source, n: string)
    requires n in src.mapping && src.mapping[n].Obj?
  {
    var node := src.mapping[n].fields;
    var message := Get(node, "message");
    || (message == Null && !(node.Keys <= NODE_KEYS))
    || (message.Obj? && BranchOf(src, n) == Rejected
        && Get(message.fields, "author").Obj? && Get(message.fields, "content").Obj?)
  }

  /** The inventory pass counts the node twice: its message has neither author nor content. */
  predicate InventoryAhead(src: Source, n: string)
    requires n in src.mapping && src.mapping[n].Obj?
  {
    var message := Get(src.mapping[n].fields, "message");
    message.Obj? && !Get(message.fields, "author").Obj? && !Get(message.fields, "content").Obj?
  }

  lemma ReadMessageCounts(message: Json, node: Fields, nodeId: string, validTime: Json -> bool)
    requires ReadMessage(message, node, nodeId, validTime).Some?
    ensures message.Obj?
    ensures
      var view := ReadMessage(message, node, nodeId, validTime).value;
      var inventory := InventoryMessage(message.fields);
      && inventory == ZERO.(messages := 1, attachments := view.attachments,
                            unknown := inventory.unknown)
      && view.unknown == Unknown(node, NODE_KEYS) + inventory.unknown
  {
    hide Identifier, BoundedText, OptionalText, OptionalIdentifier, AttachmentReferences, Unknown, AllTexts;
    hide JoinedLength, ModelSlug;
  }

  lemma NodeWithin(src: Source, n: string)
    requires n in src.mapping && src.mapping[n].Obj?
    ensures
      var mapped, inventory := NodeCounts(src, n), InventoryNode(src.mapping[n]);
      && Within(mapped, inventory)
      && (mapped.attachments == inventory.attachments <==>
            BranchOf(src, n) != Rejected || inventory.attachments == 0)
      && (mapped.unknown == inventory.unknown <==> BranchOf(src, n) != Rejected || inventory.unknown == 0)
  {
    hide Get, Nearest, ReadMessage, Unknown, AttachmentReferences;
    var node := src.mapping[n].fields;
    var message := Get(node, "message");
    if message != Null && BranchOf(src, n) != Rejected {
      hide InventoryMessage;
      ReadMessageCounts(message, node, n, src.validTime);
    }
  }

  lemma NodeMalformed(src: Source, n: string)
    requires n in src.mapping && src.mapping[n].Obj?
    ensures NodeCounts(src, n).malformed + (if InventoryAhead(src, n) then 1 else 0)
      == InventoryNode(src.mapping[n]).malformed + (if MappingAhead(src, n) then 1 else 0)
  {
    hide Get, Nearest, ReadMessage, Unknown, AttachmentReferences;
    var node := src.mapping[n].fields;
    var message := Get(node, "message");
    UnknownZero(node, NODE_KEYS);
    if message != Null { ReadNeedsParts(message, node, n, src.validTime); }
  }

  /** A message without author or content is rejected. */
  lemma ReadNeedsParts(message: Json, node: Fields, nodeId: string, validTime: Json -> bool)
    ensures ReadMessage(message, node, nodeId, validTime).Some? ==>
      message.Obj? && Get(message.fields, "author").Obj? && Get(message.fields, "content").Obj?
  {
    hide Identifier, BoundedText, OptionalText, OptionalIdentifier, AttachmentReferences, Unknown, AllTexts;
    hide JoinedLength, ModelSlug;
  }

  lemma NodeSplit(src: Source, n: string)
    requires n in src.mapping && src.mapping[n].Obj?
    ensures MessagesSplit(NodeCounts(src, n))
  {
    hide BranchOf;
  }

  lemma HeaderCountsNoMessages(conversation: Fields)
    requires Get(conversation, "mapping").Obj?
    ensures HeaderCounts(conversation).messages == 0 && MessagesSplit(HeaderCounts(conversation))
    ensures HeaderCounts(conversation).malformed == 0
  {
    hide Get, Unknown;
  }

  // ----- whole conversations ---------------------------------------------------------

  /** In every mapped conversation, rejected nodes included, the messages are the
      selected messages, and each is either supported or not. */
  lemma MessageTotals(conversation: Fields, native: string, validTime: Json -> bool)
    requires MapResult(conversation, native, validTime).Some?
    ensures MessagesSplit(MapResult(conversation, native, validTime).value.counts)
  {
    hide HeaderObjects, HeaderCounts, NodeCounts, Flatten, Sorted, SumOver, Get;
    HeaderCountsNoMessages(conversation);
    var src := SourceOf(conversation, native, validTime);
    forall k | k in src.mapping.Keys ensures MessagesSplit(NodeCounter(src)(k)) {
      NodeSplit(src, k);
    }
    SumsSplit(NodeCounter(src), src.mapping.Keys);
  }

  /** Over all mapped conversations the two passes count the same nodes, and the mapping pass never
      counts more attachment references or unknown fields. They agree on either exactly when
      the inventory finds none of it in a node that the mapping pass rejects. */
  lemma PassesAgreeIff(conversation: Fields, native: string, validTime: Json -> bool)
    requires MapResult(conversation, native, validTime).Some?
    ensures InventoryResult(conversation).Some?
    ensures
      var src := SourceOf(conversation, native, validTime);
      var mapped := MapResult(conversation, native, validTime).value.counts;
      var inventory := InventoryResult(conversation).value;
      && Within(mapped, inventory)
      && (mapped.attachments == inventory.attachments <==>
            forall n :: n in src.mapping && BranchOf(src, n) == Rejected ==>
              InventoryNode(src.mapping[n]).attachments == 0)
      && (mapped.unknown == inventory.unknown <==>
            forall n :: n in src.mapping && BranchOf(src, n) == Rejected ==>
              InventoryNode(src.mapping[n]).unknown == 0)
  {
    hide HeaderObjects, HeaderCounts, BranchOf, NodeCounts, InventoryNode, Flatten, Sorted, SumOver, Get;
    var src := SourceOf(conversation, native, validTime);
    var f, g := NodeCounter(src), InventoryCounter(src.mapping);
    forall k | k in src.mapping
      ensures Within(f(k), g(k))
      ensures f(k).attachments == g(k).attachments <==>
        BranchOf(src, k) != Rejected || InventoryNode(src.mapping[k]).attachments == 0
      ensures f(k).unknown == g(k).unknown <==>
        BranchOf(src, k) != Rejected || InventoryNode(src.mapping[k]).unknown == 0
    {
      NodeWithin(src, k);
    }
    SumsWithin(f, g, src.mapping.Keys);
  }

  /** Over all mapped conversations the malformed counts differ by the number of nodes that only the
      mapping pass calls malformed less the number that the inventory counts twice; they agree
      exactly when there are as many of the one as of the other. */
  lemma MalformedAgreesIff(conversation: Fields, native: string, validTime: Json -> bool)
    requires MapResult(conversation, native, validTime).Some?
    ensures
      var src := SourceOf(conversation, native, validTime);
      var mapped := MapResult(conversation, native, validTime).value.counts.malformed;
      var inventory := InventoryResult(conversation).value.malformed;
      var once := set n | n in src.mapping && MappingAhead(src, n);
      var twice := set n | n in src.mapping && InventoryAhead(src, n);
      mapped + |twice| == inventory + |once| && (mapped == inventory <==> |once| == |twice|)
  {
    hide HeaderObjects, HeaderCounts, NodeCounter, InventoryCounter, Flatten, Sorted, SumOver, Get;
    hide MappingAhead, InventoryAhead;
    HeaderCountsNoMessages(conversation);
    MappingBalance(SourceOf(conversation, native, validTime));
  }

  lemma MappingBalance(src: Source)
    requires AllObjects(src.mapping)
    ensures SumOver(NodeCounter(src), src.mapping.Keys).malformed
        + |set n | n in src.mapping && InventoryAhead(src, n)|
      == SumOver(InventoryCounter(src.mapping), src.mapping.Keys).malformed
        + |set n | n in src.mapping && MappingAhead(src, n)|
  {
    hide NodeCounts, InventoryNode, SumOver, MappingAhead, InventoryAhead;
    var f, g := NodeCounter(src), InventoryCounter(src.mapping);
    var ahead := set n | n in src.mapping && MappingAhead(src, n);
    var behind := set n | n in src.mapping && InventoryAhead(src, n);
    forall k | k in src.mapping
      ensures f(k).malformed + (if k in behind then 1 else 0) == g(k).malformed + (if k in ahead then 1 else 0)
    {
      NodeMalformed(src, k);
    }
    MalformedBalance(f, g, src.mapping.Keys, ahead, behind);
    assert src.mapping.Keys * ahead == ahead && src.mapping.Keys * behind == behind;
  }

  lemma UnknownZero(fields: Fields, known: set<string>)
    ensures Unknown(fields, known) == 0 <==> fields.Keys <= known
  {
    if fields.Keys <= known {
      assert fields.Keys - known == {};
    } else {
      var k :| k in fields.Keys && k !in known;
      assert k in fields.Keys - known;
    }
  }

  lemma NodeMessages(src: Source, n: string)
    requires n in src.mapping && src.mapping[n].Obj?
    ensures
      var message := Get(src.mapping[n].fields, "message");
      && NodeCounts(src, n).messages == (if message == Null then 0 else 1)
      && InventoryNode(src.mapping[n]).messages == (if message.Obj? then 1 else 0)
  {
    hide Get, Nearest, ReadMessage, Unknown;
  }

  /** Over all mapped conversations the message counts agree exactly when every message
      that is present is an object. */
  lemma MessageCountsAgreeIff(conversation: Fields, native: string, validTime: Json -> bool)
    requires MapResult(conversation, native, validTime).Some?
    ensures
      var mapping := Get(conversation, "mapping").fields;
      MapResult(conversation, native, validTime).value.counts.messages
        == InventoryResult(conversation).value.messages
      <==> forall n :: n in mapping ==>
             Get(mapping[n].fields, "message") == Null || Get(mapping[n].fields, "message").Obj?
  {
    hide HeaderObjects, HeaderCounts, NodeCounts, InventoryNode, Get, Flatten, Sorted, SumOver;
    HeaderCountsNoMessages(conversation);
    var src := SourceOf(conversation, native, validTime);
    var f, g := NodeCounter(src), InventoryCounter(src.mapping);
    forall k | k in src.mapping
      ensures f(k).messages >= g(k).messages
      ensures f(k).messages == g(k).messages <==>
        Get(src.mapping[k].fields, "message") == Null || Get(src.mapping[k].fields, "message").Obj?
    {
      NodeMessages(src, k);
    }
    MessageSums(f, g, src.mapping.Keys);
  }

  /** A conversation with a single node. */
  function OneNode(node: Fields): Fields
  {
    map["mapping" := Obj(map["n" := Obj(node)])]
  }

  lemma OneNodeMaps(node: Fields, native: string, validTime: Json -> bool)
    requires validTime(Null)
    ensures MapResult(OneNode(node), native, validTime).Some?
    ensures Get(OneNode(node), "mapping").Obj? && Get(OneNode(node), "mapping").fields == map["n" := Obj(node)]
  {
    hide HeaderObjects, HeaderCounts, Flatten, Sorted, SumOver, BoundedText, Identifier;
    assert "title" != "mapping" && "create_time" != "mapping" && "current_node" != "mapping";
  }

  /** A messageless node with one unknown field is malformed for the mapping pass only, and a message
      without author and content is malformed twice for the inventory. */
  lemma MalformedCountsDiffer(native: string, validTime: Json -> bool)
    requires validTime(Null)
    ensures
      var extra, bare := OneNode(map["extra" := Null]), OneNode(map["message" := Obj(map[])]);
      && MapResult(extra, native, validTime).Some? && InventoryResult(extra).Some?
      && MapResult(extra, native, validTime).value.counts.malformed == InventoryResult(extra).value.malformed + 1
      && MapResult(bare, native, validTime).Some? && InventoryResult(bare).Some?
      && MapResult(bare, native, validTime).value.counts.malformed + 1 == InventoryResult(bare).value.malformed
  {
    hide MapResult, InventoryResult, Nearest, ReadMessage;
    ExtraField(native, validTime);
    BareMessage(native, validTime);
  }

  lemma ExtraField(native: string, validTime: Json -> bool)
    requires validTime(Null)
    ensures
      var conversation := OneNode(map["extra" := Null]);
      && MapResult(conversation, native, validTime).Some? && InventoryResult(conversation).Some?
      && MapResult(conversation, native, validTime).value.counts.malformed
         == InventoryResult(conversation).value.malformed + 1
  {
    hide MapResult, InventoryResult, Nearest, ReadMessage;
    var node: Fields := map["extra" := Null];
    var conversation := OneNode(node);
    OneNodeMaps(node, native, validTime);
    var src := SourceOf(conversation, native, validTime);
    assert Get(node, "message") == Null && src.mapping["n"].fields == node;
    assert "extra" in node.Keys && "extra" !in NODE_KEYS;
    PassesAgreeIff(conversation, native, validTime);
    MalformedAgreesIff(conversation, native, validTime);
    assert (set n | n in src.mapping && MappingAhead(src, n)) == {"n"};
    assert (set n | n in src.mapping && InventoryAhead(src, n)) == {};
  }

  lemma BareMessage(native: string, validTime: Json -> bool)
    requires validTime(Null)
    ensures
      var conversation := OneNode(map["message" := Obj(map[])]);
      && MapResult(conversation, native, validTime).Some? && InventoryResult(conversation).Some?
      && MapResult(conversation, native, validTime).value.counts.malformed + 1
         == InventoryResult(conversation).value.malformed
  {
    hide MapResult, InventoryResult, Nearest, ReadMessage;
    var node: Fields := map["message" := Obj(map[])];
    var conversation := OneNode(node);
    OneNodeMaps(node, native, validTime);
    var src := SourceOf(conversation, native, validTime);
    assert Get(node, "message") == Obj(map[]) && src.mapping["n"].fields == node;
    PassesAgreeIff(conversation, native, validTime);
    MalformedAgreesIff(conversation, native, validTime);
    assert (set n | n in src.mapping && MappingAhead(src, n)) == {};
    assert (set n | n in src.mapping && InventoryAhead(src, n)) == {"n"};
  }

  /** A message that is not an object: counted by one pass only. */
  lemma MessageCountsDiffer(native: string, validTime: Json -> bool)
    requires validTime(Null)
    ensures
      var conversation := OneNode(map["message" := Int(1)]);
      && MapResult(conversation, native, validTime).Some? && InventoryResult(conversation).Some?
      && MapResult(conversation, native, validTime).value.counts.messages
         != InventoryResult(conversation).value.messages
  {
    hide MapResult, HeaderCounts, SumOver;
    var node: Fields := map["message" := Int(1)];
    var conversation := OneNode(node);
    OneNodeMaps(node, native, validTime);
    assert Get(conversation, "mapping").fields["n"].fields == node;
    MessageCountsAgreeIff(conversation, native, validTime);
  }
}
