/** What the contraction of a conversation's node graph keeps: identities stay distinct,
    parents point at emitted objects, and ancestry between messages is unchanged. */
module ConversationAncestry {
  import opened Outcomes
  import opened Json
  import opened Texts
  import opened ConversationMapping

  // ----- the source graph ---------------------------------------------------------

  function ParentLink(src: Source, n: string): Json
    requires n in src.mapping && src.mapping[n].Obj?
  {
    Get(src.mapping[n].fields, "parent")
  }

  /** The node `k` parent links above `n`, if the links lead that far. */
  ghost function Above(src: Source, n: string, k: nat): Option<string>
  {
    if k == 0 then Some(n)
    else
      var below := Above(src, n, k - 1);
      if below.Some? && below.value in src.mapping && src.mapping[below.value].Obj?
      then Identifier(ParentLink(src, below.value))
      else None
  }

  /** Every node is an object whose parent is null or another node of the mapping. */
  ghost predicate Closed(src: Source)
  {
    && AllObjects(src.mapping)
    && forall n :: n in src.mapping ==>
         ParentLink(src, n) == Null ||
         (Identifier(ParentLink(src, n)).Some? && Identifier(ParentLink(src, n)).value in src.mapping)
  }

  /** No node is above itself. */
  ghost predicate Acyclic(src: Source)
  {
    forall n: string, k: nat :: n in src.mapping && k > 0 ==> Above(src, n, k) != Some(n)
  }

  ghost predicate ProperAncestor(src: Source, a: string, d: string)
  {
    exists k: nat :: k > 0 && Above(src, d, k) == Some(a)
  }

  /** Node `k` links above `n` is a message. */
  ghost predicate MessageAt(src: Source, n: string, k: nat)
  {
    Above(src, n, k).Some? && IsMessageNode(src, Above(src, n, k).value)
  }

  lemma {:induction false} AboveAdds(src: Source, n: string, i: nat, m: string, j: nat)
    requires Above(src, n, i) == Some(m)
    ensures Above(src, n, i + j) == Above(src, m, j)
  {
    if j > 0 {
      AboveAdds(src, n, i, m, j - 1);
      assert i + j - 1 == i + (j - 1);
    }
  }

  lemma {:induction false} AboveStaysNone(src: Source, n: string, i: nat, j: nat)
    requires i <= j && Above(src, n, i) == None
    ensures Above(src, n, j) == None
  {
    if i < j {
      AboveStaysNone(src, n, i, j - 1);
    }
  }

  lemma {:induction false} AboveInMapping(src: Source, n: string, k: nat)
    requires Closed(src) && n in src.mapping && Above(src, n, k).Some?
    ensures Above(src, n, k).value in src.mapping
  {
    hide Identifier;
    if k > 0 {
      AboveInMapping(src, n, k - 1);
      var m := Above(src, n, k - 1).value;
      assert ParentLink(src, m) != Null by { NullIsNoIdentifier(); }
    }
  }

  lemma NullIsNoIdentifier()
    ensures Identifier(Null) == None
  {
  }

  // ----- the search finds the nearest message -----------------------------------------

  /** Step `j` above `n` is where the search for a message stops. */
  ghost predicate StopsAt(src: Source, n: string, t: Target, j: nat)
  {
    && j > 0
    && (forall i :: 0 < i < j ==> !MessageAt(src, n, i))
    && match t
       case Root => Above(src, n, j) == None
       case Under(p) => Above(src, n, j) == Some(p) && IsMessageNode(src, p)
  }

  /** One round of the search, at a node of the mapping that was not visited yet. */
  lemma NearestUnfolds(src: Source, link: Json, visited: set<string>)
    requires Identifier(link).Some? && Identifier(link).value !in visited
    requires Identifier(link).value in src.mapping && src.mapping[Identifier(link).value].Obj?
    ensures
      var p := Identifier(link).value;
      && Nearest(src, link, visited) ==
           (if IsMessageNode(src, p) then Some(Under(p))
            else Nearest(src, ParentLink(src, p), visited + {p}))
      && |src.mapping.Keys - (visited + {p})| < |src.mapping.Keys - visited|
  {
    hide Identifier, IsMessageNode;
    NullIsNoIdentifier();
    var p := Identifier(link).value;
    assert src.mapping.Keys - (visited + {p}) == (src.mapping.Keys - visited) - {p};
  }

  ghost predicate Passed(src: Source, n: string, k: nat, visited: set<string>)
  {
    forall p :: p in visited ==> exists i: nat :: 0 < i <= k && Above(src, n, i) == Some(p)
  }

  lemma NotPassedTwice(src: Source, n: string, k: nat, p: string, visited: set<string>)
    requires Acyclic(src) && Passed(src, n, k, visited)
    requires Above(src, n, k + 1) == Some(p) && p in src.mapping
    ensures p !in visited && Passed(src, n, k + 1, visited + {p})
  {
    hide Above;
    if p in visited {
      var i: nat :| 0 < i <= k && Above(src, n, i) == Some(p);
      AboveAdds(src, n, i, p, k + 1 - i);
      assert false;
    }
  }

  lemma {:induction false} NearestFrom(src: Source, n: string, k: nat, m: string, visited: set<string>) returns (j: nat)
    requires Closed(src) && Acyclic(src) && n in src.mapping
    requires Above(src, n, k) == Some(m) && m in src.mapping
    requires Passed(src, n, k, visited)
    requires forall i :: 0 < i <= k ==> !MessageAt(src, n, i)
    ensures Nearest(src, ParentLink(src, m), visited).Some?
    ensures StopsAt(src, n, Nearest(src, ParentLink(src, m), visited).value, j)
    decreases |src.mapping.Keys - visited|
  {
    hide Identifier, Get, IsMessageNode, Passed, Acyclic, ParentLink;
    NullIsNoIdentifier();
    var link := ParentLink(src, m);
    assert Above(src, n, k + 1) == Identifier(link);
    if link == Null {
      return k + 1;
    }
    hide Nearest;
    var p := Identifier(link).value;
    AboveInMapping(src, n, k + 1);
    NotPassedTwice(src, n, k, p, visited);
    NearestUnfolds(src, link, visited);
    if IsMessageNode(src, p) {
      return k + 1;
    }
    assert !MessageAt(src, n, k + 1);
    j := NearestFrom(src, n, k + 1, p, visited + {p});
  }

  /** On a closed acyclic mapping the search from a node stops at the nearest message
      above it, or at the root when there is none. */
  lemma NearestStops(src: Source, n: string) returns (j: nat)
    requires Closed(src) && Acyclic(src) && n in src.mapping
    ensures Nearest(src, ParentLink(src, n), {}).Some?
    ensures StopsAt(src, n, Nearest(src, ParentLink(src, n), {}).value, j)
  {
    j := NearestFrom(src, n, 0, n, {});
  }

  // ----- emitted identities --------------------------------------------------------------

  lemma {:induction false} FlattenMembers(emit: string -> seq<Emitted>, keys: seq<string>, o: Emitted)
    ensures o in Flatten(emit, keys) <==> exists k :: k in keys && o in emit(k)
  {
    if keys != [] {
      var front, last := keys[..|keys| - 1], keys[|keys| - 1];
      FlattenMembers(emit, front, o);
      assert keys == front + [last];
    }
  }

  /** The node that an identity names, if it names one. */
  function Owner(id: SourceId): Option<string>
  {
    match id
    case Conversation => None
    case UnknownInConversation => None
    case Message(n) => Some(n)
    case Unsupported(n) => Some(n)
    case Attachment(n) => Some(n)
    case Malformed(n) => Some(n)
    case UnknownInNode(n) => Some(n)
    case UnknownInMessage(n) => Some(n)
  }

  ghost predicate DistinctIds(objects: seq<Emitted>)
  {
    forall i, j :: 0 <= i < j < |objects| ==> objects[i].id != objects[j].id
  }

  ghost predicate OwnedBy(objects: seq<Emitted>, n: string)
  {
    forall o :: o in objects ==> Owner(o.id) == Some(n)
  }

  lemma NodeObjectsOwned(src: Source, n: string)
    requires n in src.mapping && src.mapping[n].Obj?
    ensures DistinctIds(NodeObjects(src, n)) && OwnedBy(NodeObjects(src, n), n)
  {
    hide BranchOf;
  }

  lemma ConcatDistinct(a: seq<Emitted>, b: seq<Emitted>, n: string)
    requires DistinctIds(a) && DistinctIds(b) && OwnedBy(b, n)
    requires forall o :: o in a ==> Owner(o.id) != Some(n)
    ensures DistinctIds(a + b)
  {
    var c := a + b;
    forall i, j | 0 <= i < j < |c| ensures c[i].id != c[j].id {
      if i < |a| <= j {
        assert c[i] in a && c[j] == b[j - |a|] && b[j - |a|] in b;
      } else if |a| <= i {
        assert c[i] == b[i - |a|] && c[j] == b[j - |a|];
      }
    }
  }

  lemma {:induction false} FlattenDistinct(emit: string -> seq<Emitted>, header: seq<Emitted>, keys: seq<string>)
    requires DistinctIds(header) && forall o :: o in header ==> Owner(o.id) == None
    requires Distinct(keys)
    requires forall k :: k in keys ==> DistinctIds(emit(k)) && OwnedBy(emit(k), k)
    ensures DistinctIds(header + Flatten(emit, keys))
    ensures forall o :: o in header + Flatten(emit, keys) ==> Owner(o.id).None? || Owner(o.id).value in keys
  {
    if keys == [] {
      assert header + Flatten(emit, keys) == header;
    } else {
      var front, last := keys[..|keys| - 1], keys[|keys| - 1];
      assert keys == front + [last];
      FlattenDistinct(emit, header, front);
      var before := header + Flatten(emit, front);
      assert header + Flatten(emit, keys) == before + emit(last);
      assert last !in front;
      ConcatDistinct(before, emit(last), last);
    }
  }

  lemma HeaderDistinct(conversation: Fields)
    ensures DistinctIds(HeaderObjects(conversation))
    ensures forall o :: o in HeaderObjects(conversation) ==> Owner(o.id) == None
    ensures Emitted(Conversation, []) in HeaderObjects(conversation)
    ensures forall o :: o in HeaderObjects(conversation) ==>
      o == Emitted(Conversation, []) || o == Emitted(UnknownInConversation, [Conversation])
  {
    hide Unknown;
    assert HeaderObjects(conversation)[0] == Emitted(Conversation, []);
  }

  /** The identities that one mapped conversation emits are pairwise distinct, on every
      mapping, rejected nodes included. */
  lemma EmittedIdsDistinct(conversation: Fields, native: string, validTime: Json -> bool)
    requires MapResult(conversation, native, validTime).Some?
    ensures DistinctIds(MapResult(conversation, native, validTime).value.objects)
  {
    hide HeaderObjects, HeaderCounts, NodeObjects, Flatten, Sorted, SumOver, Get;
    var src := SourceOf(conversation, native, validTime);
    SortedProperties(src.mapping.Keys);
    HeaderDistinct(conversation);
    forall k | k in src.mapping.Keys
      ensures DistinctIds(NodeEmitter(src)(k)) && OwnedBy(NodeEmitter(src)(k), k)
    {
      NodeObjectsOwned(src, k);
    }
    FlattenDistinct(NodeEmitter(src), HeaderObjects(conversation), Sorted(src.mapping.Keys));
  }

  /** The text of an identity inside conversation `native`. */
  function Render(native: string, id: SourceId): string
  {
    match id
    case Conversation => "conversation:" + native
    case Message(n) => "message:" + (native + (":" + n))
    case Unsupported(n) => "unsupported:" + (native + (":" + n))
    case Attachment(n) => "attachment-reference:" + (native + (":" + n))
    case Malformed(n) => "malformed:" + (native + (":" + n))
    case UnknownInConversation => "unknown-fields:" + (native + ":conversation")
    case UnknownInNode(n) => "unknown-fields:" + (native + (":" + (n + ":node")))
    case UnknownInMessage(n) => "unknown-fields:" + (native + (":" + (n + ":message")))
  }

  /** The text that follows the kind's prefix and the conversation. */
  function Suffix(id: SourceId): string
  {
    match id
    case Conversation => ""
    case Message(n) => ":" + n
    case Unsupported(n) => ":" + n
    case Attachment(n) => ":" + n
    case Malformed(n) => ":" + n
    case UnknownInConversation => ":conversation"
    case UnknownInNode(n) => ":" + (n + ":node")
    case UnknownInMessage(n) => ":" + (n + ":message")
  }

  function Prefix(id: SourceId): string
  {
    match id
    case Conversation => "conversation:"
    case Message(n) => "message:"
    case Unsupported(n) => "unsupported:"
    case Attachment(n) => "attachment-reference:"
    case Malformed(n) => "malformed:"
    case _ => "unknown-fields:"
  }

  lemma RenderParts(native: string, id: SourceId)
    ensures Render(native, id) == Prefix(id) + (native + Suffix(id))
  {
    assert native + "" == native;
  }

  /** The third character of an identity's text already tells the prefixes apart. */
  lemma PrefixFromText(native: string, id: SourceId)
    ensures |Render(native, id)| > 2
    ensures Render(native, id)[..3] == Prefix(id)[..3]
  {
    RenderParts(native, id);
    var p := Prefix(id);
    assert |p| > 2;
    assert (p + (native + Suffix(id)))[..3] == p[..3];
  }

  lemma SamePrefix(a: SourceId, b: SourceId)
    requires Prefix(a)[..3] == Prefix(b)[..3]
    ensures Prefix(a) == Prefix(b)
  {
    assert Prefix(a)[..3][0] == Prefix(a)[0] && Prefix(b)[..3][0] == Prefix(b)[0];
    assert Prefix(a)[..3][1] == Prefix(a)[1] && Prefix(b)[..3][1] == Prefix(b)[1];
    assert Prefix(a)[..3][2] == Prefix(a)[2] && Prefix(b)[..3][2] == Prefix(b)[2];
  }

  lemma SuffixEnds(id: SourceId)
    requires Prefix(id) == "unknown-fields:"
    ensures |Suffix(id)| > 1
    ensures
      var s := Suffix(id);
      var ends := (s[|s| - 2], s[|s| - 1]);
      && (id.UnknownInConversation? <==> ends == ('o', 'n'))
      && (id.UnknownInNode? <==> ends == ('d', 'e'))
      && (id.UnknownInMessage? <==> ends == ('g', 'e'))
  {
    assert Prefix(id)[2] == 'k';
    var s := Suffix(id);
    if id.UnknownInNode? {
      assert s[|s| - 2] == ":node"[3] && s[|s| - 1] == ":node"[4];
    } else if id.UnknownInMessage? {
      assert s[|s| - 2] == ":message"[6] && s[|s| - 1] == ":message"[7];
    }
  }

  lemma SuffixInjective(a: SourceId, b: SourceId)
    requires Prefix(a) == Prefix(b) && Suffix(a) == Suffix(b)
    ensures a == b
  {
    var s, t := Suffix(a), Suffix(b);
    var p, q := Prefix(a), Prefix(b);
    assert p[0] == q[0] && p[1] == q[1] && p[2] == q[2];
    if p[0] == 'u' && p[2] == 'k' {
      SuffixEnds(a);
      SuffixEnds(b);
      if a.UnknownInNode? {
        assert a.node == s[1..|s| - 5] && b.node == t[1..|t| - 5];
      } else if a.UnknownInMessage? {
        assert a.node == s[1..|s| - 8] && b.node == t[1..|t| - 8];
      }
    } else if !a.Conversation? {
      assert a.node == s[1..] && b.node == t[1..];
    }
  }

  /** Distinct identities have distinct texts. */
  lemma RenderInjective(native: string, a: SourceId, b: SourceId)
    requires Render(native, a) == Render(native, b)
    ensures a == b
  {
    hide Render, Prefix, Suffix;
    RenderParts(native, a);
    RenderParts(native, b);
    PrefixFromText(native, a);
    PrefixFromText(native, b);
    SamePrefix(a, b);
    Cancel(Prefix(a), native + Suffix(a), Prefix(b), native + Suffix(b));
    Cancel(native, Suffix(a), native, Suffix(b));
    SuffixInjective(a, b);
  }

  // ----- links between emitted objects ---------------------------------------------------

  ghost predicate IsEmitted(objects: seq<Emitted>, id: SourceId)
  {
    exists o :: o in objects && o.id == id
  }

  ghost predicate Linked(objects: seq<Emitted>, child: SourceId, parent: SourceId)
  {
    exists o :: o in objects && o.id == child && parent in o.parents
  }

  /** `ancestor` is reached from `child` by following `k` emitted parents. */
  ghost predicate Chain(objects: seq<Emitted>, child: SourceId, ancestor: SourceId, k: nat)
    decreases k
  {
    k > 0 &&
    if k == 1 then Linked(objects, child, ancestor)
    else exists middle :: Linked(objects, child, middle) && Chain(objects, middle, ancestor, k - 1)
  }

  ghost predicate InEmittedChain(objects: seq<Emitted>, ancestor: SourceId, child: SourceId)
  {
    exists k: nat :: Chain(objects, child, ancestor, k)
  }

  /** The node maps to a message object of its own. */
  predicate SupportedMessage(src: Source, n: string)
    requires AllObjects(src.mapping)
  {
    n in src.mapping && BranchOf(src, n).Mapped? && BranchOf(src, n).view.supported
  }

  /** Every message node is supported, and no node is rejected. */
  ghost predicate AllSupported(src: Source)
    requires AllObjects(src.mapping)
  {
    forall n :: n in src.mapping ==> BranchOf(src, n).Messageless? || SupportedMessage(src, n)
  }

  lemma MappedMeansMessage(src: Source, n: string)
    requires AllObjects(src.mapping) && n in src.mapping && BranchOf(src, n).Mapped?
    ensures IsMessageNode(src, n)
    ensures Nearest(src, ParentLink(src, n), {}) == Some(BranchOf(src, n).target)
  {
    hide Nearest, Identifier, BoundedText, OptionalText, OptionalIdentifier, AttachmentReferences, Unknown;
    hide AllTexts, JoinedLength, ModelSlug;
  }

  lemma MessageIsMapped(src: Source, n: string)
    requires AllObjects(src.mapping) && AllSupported(src) && IsMessageNode(src, n)
    ensures SupportedMessage(src, n)
  {
    hide Nearest, ReadMessage;
  }

  /** All that one node contributes to the emitted objects. */
  lemma NodeContribution(src: Source, n: string, o: Emitted)
    requires AllObjects(src.mapping) && n in src.mapping && o in NodeObjects(src, n)
    ensures Owner(o.id) == Some(n)
    ensures o.id.Message? ==>
      SupportedMessage(src, n) && o.parents == [TargetId(BranchOf(src, n).target)]
    ensures o.parents == [Conversation] || (SupportedMessage(src, n) && o.parents == [Message(n)]) ||
      (BranchOf(src, n).Mapped? && o.parents == [TargetId(BranchOf(src, n).target)])
  {
    hide BranchOf, TargetId;
  }

  lemma MessageContribution(src: Source, n: string)
    requires AllObjects(src.mapping) && n in src.mapping && BranchOf(src, n).Mapped?
    ensures
      var id := if SupportedMessage(src, n) then Message(n) else Unsupported(n);
      Emitted(id, [TargetId(BranchOf(src, n).target)]) in NodeObjects(src, n)
  {
    hide BranchOf, TargetId;
    var id := if SupportedMessage(src, n) then Message(n) else Unsupported(n);
    assert NodeObjects(src, n)[0] == Emitted(id, [TargetId(BranchOf(src, n).target)]);
  }

  /** Membership in a mapped conversation's objects. */
  lemma ObjectMembers(conversation: Fields, native: string, validTime: Json -> bool, o: Emitted)
    requires MapResult(conversation, native, validTime).Some?
    ensures
      var src := SourceOf(conversation, native, validTime);
      o in MapResult(conversation, native, validTime).value.objects <==>
        o in HeaderObjects(conversation) || exists n :: n in src.mapping && o in NodeObjects(src, n)
  {
    hide HeaderObjects, HeaderCounts, NodeObjects, Flatten, Sorted, SumOver, Get;
    var src := SourceOf(conversation, native, validTime);
    SortedProperties(src.mapping.Keys);
    FlattenMembers(NodeEmitter(src), Sorted(src.mapping.Keys), o);
    forall n ensures n in src.mapping && o in NodeEmitter(src)(n) <==> n in src.mapping && o in NodeObjects(src, n) {
    }
  }

  /** A supported message links to where its search stopped, and to nothing else; the
      conversation links to nothing. */
  lemma MessageLinks(conversation: Fields, native: string, validTime: Json -> bool, n: string, q: SourceId)
    requires MapResult(conversation, native, validTime).Some?
    ensures
      var src := SourceOf(conversation, native, validTime);
      var objects := MapResult(conversation, native, validTime).value.objects;
      && (Linked(objects, Message(n), q) <==>
           SupportedMessage(src, n) && q == TargetId(BranchOf(src, n).target))
      && !Linked(objects, Conversation, q)
  {
    hide HeaderObjects, HeaderCounts, NodeObjects, BranchOf, MapResult, Get, TargetId;
    MapResultValid(conversation, native, validTime);
    var src := SourceOf(conversation, native, validTime);
    var objects := MapResult(conversation, native, validTime).value.objects;
    HeaderDistinct(conversation);
    forall o | o in objects && (o.id == Message(n) || o.id == Conversation) && q in o.parents
      ensures o.id == Message(n) && SupportedMessage(src, n) && q == TargetId(BranchOf(src, n).target)
    {
      ObjectMembers(conversation, native, validTime, o);
      if o !in HeaderObjects(conversation) {
        var m :| m in src.mapping && o in NodeObjects(src, m);
        NodeContribution(src, m, o);
      }
    }
    if SupportedMessage(src, n) && q == TargetId(BranchOf(src, n).target) {
      MessageContribution(src, n);
      ObjectMembers(conversation, native, validTime, Emitted(Message(n), [q]));
    }
  }

  lemma MapResultValid(conversation: Fields, native: string, validTime: Json -> bool)
    requires MapResult(conversation, native, validTime).Some?
    ensures Get(conversation, "mapping").Obj?
    ensures AllObjects(SourceOf(conversation, native, validTime).mapping)
  {
  }

  lemma ConversationEmitted(conversation: Fields, native: string, validTime: Json -> bool)
    requires MapResult(conversation, native, validTime).Some?
    ensures IsEmitted(MapResult(conversation, native, validTime).value.objects, Conversation)
  {
    hide HeaderObjects, HeaderCounts, NodeObjects, MapResult, Get;
    MapResultValid(conversation, native, validTime);
    HeaderDistinct(conversation);
    ObjectMembers(conversation, native, validTime, Emitted(Conversation, []));
  }

  lemma MessageEmittedIff(conversation: Fields, native: string, validTime: Json -> bool, n: string)
    requires MapResult(conversation, native, validTime).Some?
    ensures AllObjects(SourceOf(conversation, native, validTime).mapping)
    ensures IsEmitted(MapResult(conversation, native, validTime).value.objects, Message(n)) <==>
      SupportedMessage(SourceOf(conversation, native, validTime), n)
  {
    hide HeaderObjects, HeaderCounts, NodeObjects, BranchOf, MapResult, Get;
    MapResultValid(conversation, native, validTime);
    var src := SourceOf(conversation, native, validTime);
    var objects := MapResult(conversation, native, validTime).value.objects;
    HeaderDistinct(conversation);
    forall o | o in objects && o.id == Message(n) ensures SupportedMessage(src, n) {
      ObjectMembers(conversation, native, validTime, o);
      if o !in HeaderObjects(conversation) {
        var m :| m in src.mapping && o in NodeObjects(src, m);
        NodeContribution(src, m, o);
      }
    }
    if SupportedMessage(src, n) {
      MessageContribution(src, n);
      ObjectMembers(conversation, native, validTime, Emitted(Message(n), [TargetId(BranchOf(src, n).target)]));
    }
  }

  /** Every emitted parent is itself emitted exactly when no message hangs under a node
      that is missing from the mapping, is rejected, or holds an unsupported message. */
  lemma ParentsEmittedIff(conversation: Fields, native: string, validTime: Json -> bool)
    requires MapResult(conversation, native, validTime).Some?
    ensures AllObjects(SourceOf(conversation, native, validTime).mapping)
    ensures
      var src := SourceOf(conversation, native, validTime);
      var objects := MapResult(conversation, native, validTime).value.objects;
      (forall o, q :: o in objects && q in o.parents ==> IsEmitted(objects, q)) <==>
      (forall n :: n in src.mapping && BranchOf(src, n).Mapped? && BranchOf(src, n).target.Under? ==>
         SupportedMessage(src, BranchOf(src, n).target.node))
  {
    hide HeaderObjects, HeaderCounts, NodeObjects, BranchOf, MapResult, Get, IsEmitted;
    MapResultValid(conversation, native, validTime);
    var src := SourceOf(conversation, native, validTime);
    var objects := MapResult(conversation, native, validTime).value.objects;
    ConversationEmitted(conversation, native, validTime);
    HeaderDistinct(conversation);
    if forall n :: n in src.mapping && BranchOf(src, n).Mapped? && BranchOf(src, n).target.Under? ==>
         SupportedMessage(src, BranchOf(src, n).target.node) {
      forall o, q | o in objects && q in o.parents ensures IsEmitted(objects, q) {
        ObjectMembers(conversation, native, validTime, o);
        if o !in HeaderObjects(conversation) {
          var m :| m in src.mapping && o in NodeObjects(src, m);
          NodeContribution(src, m, o);
        }
        if q.Message? { MessageEmittedIff(conversation, native, validTime, q.node); }
      }
    }
    if forall o, q :: o in objects && q in o.parents ==> IsEmitted(objects, q) {
      forall n | n in src.mapping && BranchOf(src, n).Mapped? && BranchOf(src, n).target.Under?
        ensures SupportedMessage(src, BranchOf(src, n).target.node)
      {
        var p := BranchOf(src, n).target.node;
        var o := Emitted(if SupportedMessage(src, n) then Message(n) else Unsupported(n), [Message(p)]);
        MessageContribution(src, n);
        ObjectMembers(conversation, native, validTime, o);
        assert Message(p) in o.parents;
        MessageEmittedIff(conversation, native, validTime, p);
      }
    }
  }

  // ----- ancestry is preserved ---------------------------------------------------------------

  /** A conversation whose graph is closed and acyclic and whose messages are supported. */
  ghost predicate Sound(conversation: Fields, native: string, validTime: Json -> bool)
  {
    && MapResult(conversation, native, validTime).Some?
    && Closed(SourceOf(conversation, native, validTime))
    && Acyclic(SourceOf(conversation, native, validTime))
    && AllSupported(SourceOf(conversation, native, validTime))
  }

  lemma {:induction false} AncestorToChain(conversation: Fields, native: string, validTime: Json -> bool, a: string,
      d: string, k: nat)
    returns (j: nat)
    requires Sound(conversation, native, validTime)
    requires
      var src := SourceOf(conversation, native, validTime);
      && IsMessageNode(src, a) && IsMessageNode(src, d)
      && k > 0 && Above(src, d, k) == Some(a)
    ensures Chain(MapResult(conversation, native, validTime).value.objects, Message(d), Message(a), j)
    decreases k
  {
    hide MapResult, BranchOf, Nearest, IsMessageNode, Get, Closed, Acyclic, AllSupported, ParentLink, Above;
    MapResultValid(conversation, native, validTime);
    var src := SourceOf(conversation, native, validTime);
    var objects := MapResult(conversation, native, validTime).value.objects;
    MessageNodeInMapping(src, d);
    var steps := NearestStops(src, d);
    MessageIsMapped(src, d);
    MappedMeansMessage(src, d);
    var target := BranchOf(src, d).target;
    assert MessageAt(src, d, k);
    assert steps <= k && target.Under? by {
      if target.Root? && steps <= k { AboveStaysNone(src, d, steps, k); }
    }
    MessageLinks(conversation, native, validTime, d, Message(target.node));
    if steps == k {
      return 1;
    }
    AboveAdds(src, d, steps, target.node, k - steps);
    var rest := AncestorToChain(conversation, native, validTime, a, target.node, k - steps);
    assert Chain(objects, Message(d), Message(a), rest + 1);
    return rest + 1;
  }

  lemma MessageNodeInMapping(src: Source, n: string)
    requires IsMessageNode(src, n)
    ensures n in src.mapping
  {
  }

  lemma {:induction false} ChainToAncestor(conversation: Fields, native: string, validTime: Json -> bool, a: string,
      d: string, j: nat)
    returns (k: nat)
    requires Sound(conversation, native, validTime)
    requires IsMessageNode(SourceOf(conversation, native, validTime), d)
    requires Chain(MapResult(conversation, native, validTime).value.objects, Message(d), Message(a), j)
    ensures k > 0 && Above(SourceOf(conversation, native, validTime), d, k) == Some(a)
    decreases j
  {
    hide MapResult, BranchOf, Nearest, IsMessageNode, Get, Closed, Acyclic, AllSupported, ParentLink, Above, Linked;
    MapResultValid(conversation, native, validTime);
    var src := SourceOf(conversation, native, validTime);
    var objects := MapResult(conversation, native, validTime).value.objects;
    MessageNodeInMapping(src, d);
    k := NearestStops(src, d);
    MessageIsMapped(src, d);
    MappedMeansMessage(src, d);
    var target := BranchOf(src, d).target;
    if j == 1 {
      MessageLinks(conversation, native, validTime, d, Message(a));
      return;
    }
    var middle :| Linked(objects, Message(d), middle) && Chain(objects, middle, Message(a), j - 1);
    MessageLinks(conversation, native, validTime, d, middle);
    assert target.Under? by {
      if target.Root? { ConversationHasNoChain(conversation, native, validTime, Message(a), j - 1); }
    }
    var rest := ChainToAncestor(conversation, native, validTime, a, target.node, j - 1);
    AboveAdds(src, d, k, target.node, rest);
    k := k + rest;
  }

  lemma ConversationHasNoChain(conversation: Fields, native: string, validTime: Json -> bool, a: SourceId, j: nat)
    requires MapResult(conversation, native, validTime).Some?
    ensures !Chain(MapResult(conversation, native, validTime).value.objects, Conversation, a, j)
  {
    hide MapResult, Linked;
    var objects := MapResult(conversation, native, validTime).value.objects;
    forall q ensures !Linked(objects, Conversation, q) {
      MessageLinks(conversation, native, validTime, "", q);
    }
  }

  /** One message is a proper ancestor of another in the exported graph exactly when it is
      in the other's chain of emitted parents. */
  lemma AncestryPreserved(conversation: Fields, native: string, validTime: Json -> bool, a: string, d: string)
    requires Sound(conversation, native, validTime)
    requires IsMessageNode(SourceOf(conversation, native, validTime), a)
    requires IsMessageNode(SourceOf(conversation, native, validTime), d)
    ensures ProperAncestor(SourceOf(conversation, native, validTime), a, d) <==>
      InEmittedChain(MapResult(conversation, native, validTime).value.objects, Message(a), Message(d))
  {
    hide MapResult, Chain, Above, IsMessageNode, Closed, Acyclic, AllSupported;
    MapResultValid(conversation, native, validTime);
    var src := SourceOf(conversation, native, validTime);
    var objects := MapResult(conversation, native, validTime).value.objects;
    if ProperAncestor(src, a, d) {
      var k: nat :| k > 0 && Above(src, d, k) == Some(a);
      var j := AncestorToChain(conversation, native, validTime, a, d, k);
    }
    if InEmittedChain(objects, Message(a), Message(d)) {
      var j: nat :| Chain(objects, Message(d), Message(a), j);
      var k := ChainToAncestor(conversation, native, validTime, a, d, j);
    }
  }

  /** In such a conversation every emitted parent is emitted. */
  lemma SoundParentsEmitted(conversation: Fields, native: string, validTime: Json -> bool)
    requires Sound(conversation, native, validTime)
    ensures
      var objects := MapResult(conversation, native, validTime).value.objects;
      forall o, q :: o in objects && q in o.parents ==> IsEmitted(objects, q)
  {
    hide MapResult, BranchOf, Nearest, IsMessageNode, Get, Closed, Acyclic, ParentLink;
    MapResultValid(conversation, native, validTime);
    var src := SourceOf(conversation, native, validTime);
    forall n | n in src.mapping && BranchOf(src, n).Mapped? && BranchOf(src, n).target.Under?
      ensures SupportedMessage(src, BranchOf(src, n).target.node)
    {
      MappedMeansMessage(src, n);
      var steps := NearestStops(src, n);
      MessageIsMapped(src, BranchOf(src, n).target.node);
    }
    ParentsEmittedIff(conversation, native, validTime);
  }
}
