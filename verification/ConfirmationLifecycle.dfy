/** The append-only life of one confirmation (src/doll/_confirmation_validation.py and
    src/doll/confirmation.py): how its events resolve, and what every run of the ledger
    keeps. */
module ConfirmationLifecycle {
  import opened Outcomes

  datatype Action = Issue | Consume | Revoke | OtherAction
  datatype Actor = User | Model | Runtime | Capability | System | Migration
  datatype Outcome = Success | DeniedOutcome | Failed | Cancelled | Partial

  /** What `info_from_issue` reads from well-formed issue metadata. */
  datatype Info = Info(confirmationId: string, requestFingerprint: string, denied: bool, expiresAt: string)

  /** One audit event. `issue` is the parsed issue metadata, absent when it is malformed;
      `fingerprint` is the metadata's request fingerprint, if any. */
  datatype Event = Event(
    action: Action, actor: Actor, outcome: Outcome, targetType: string, targetId: string,
    operationId: string, issue: Option<Info>, fingerprint: Option<string>)

  datatype Reason = Missing | Approved | DeniedReason | Expired | Consumed | Revoked | MismatchReason

  datatype Resolution = Resolution(reason: Reason, info: Option<Info>)

  /** The request that a confirmation is resolved for, and the clock. */
  datatype Query = Query(confirmationId: string, operationId: string, fingerprint: string, now: int)

  function Issues(events: seq<Event>): seq<Event>
  {
    if events == [] then []
    else if events[0].action == Issue then [events[0]] + Issues(events[1..])
    else Issues(events[1..])
  }

  function CountOf(events: seq<Event>, action: Action): nat
  {
    if events == [] then 0
    else (if events[0].action == action then 1 else 0) + CountOf(events[1..], action)
  }

  predicate HasAction(events: seq<Event>, action: Action)
  {
    exists i :: 0 <= i < |events| && events[i].action == action
  }

  predicate EventValid(e: Event, info: Info)
  {
    && e.targetType == "confirmation" && e.targetId == info.confirmationId
    && match e.action
       case Issue => true
       case Consume =>
         (e.actor == Capability || e.actor == System) && e.outcome == Success
         && e.fingerprint == Some(info.requestFingerprint)
       case Revoke => e.actor == User && e.outcome == Success
       case OtherAction => false
  }

  /** `_validate_lifecycle_events`. */
  predicate LifecycleValid(events: seq<Event>, info: Info)
  {
    && CountOf(events, Consume) <= 1 && CountOf(events, Revoke) <= 1
    && forall i :: 0 <= i < |events| ==> EventValid(events[i], info)
  }

  /** `resolution_from_events`; `None` stands for a raised corruption error, and so does a
      time that does not parse. */
  function Resolve(q: Query, events: seq<Event>, parseTime: string -> Option<int>): Option<Resolution>
  {
    if events == [] then Some(Resolution(Missing, None))
    else if |Issues(events)| != 1 then None
    else
      var issue := Issues(events)[0];
      if issue.actor != User || issue.targetId != q.confirmationId || issue.issue.None? then None
      else
        var info := issue.issue.value;
        if !LifecycleValid(events, info) then None
        else if issue.operationId != q.operationId || info.requestFingerprint != q.fingerprint
        then Some(Resolution(MismatchReason, Some(info)))
        else if HasAction(events, Revoke) then Some(Resolution(Revoked, Some(info)))
        else if HasAction(events, Consume) then Some(Resolution(Consumed, Some(info)))
        else if info.denied || issue.outcome == DeniedOutcome then Some(Resolution(DeniedReason, Some(info)))
        else if parseTime(info.expiresAt).None? then None
        else if q.now >= parseTime(info.expiresAt).value then Some(Resolution(Expired, Some(info)))
        else Some(Resolution(Approved, Some(info)))
  }

  predicate IsApproved(q: Query, events: seq<Event>, parseTime: string -> Option<int>)
  {
    var r := Resolve(q, events, parseTime);
    r.Some? && r.value.reason == Approved
  }

  // ----- what approval means --------------------------------------------------------------

  /** A single issue event that approves exactly this request and has not expired. */
  predicate ApprovingIssue(q: Query, e: Event, parseTime: string -> Option<int>)
  {
    && e.action == Issue && e.actor == User && e.outcome != DeniedOutcome
    && e.targetType == "confirmation" && e.targetId == q.confirmationId
    && e.operationId == q.operationId && e.issue.Some?
    && e.issue.value.confirmationId == q.confirmationId
    && e.issue.value.requestFingerprint == q.fingerprint && !e.issue.value.denied
    && parseTime(e.issue.value.expiresAt).Some? && q.now < parseTime(e.issue.value.expiresAt).value
  }

  lemma {:induction false} OnlyIssues(events: seq<Event>)
    requires forall i :: 0 <= i < |events| ==> events[i].action == Issue
    ensures Issues(events) == events
  {
    if events != [] {
      OnlyIssues(events[1..]);
      assert events == [events[0]] + events[1..];
    }
  }

  /** A confirmation is approved exactly while its history is one approving issue. */
  lemma ApprovedIff(q: Query, events: seq<Event>, parseTime: string -> Option<int>)
    ensures IsApproved(q, events, parseTime) <==> |events| == 1 && ApprovingIssue(q, events[0], parseTime)
  {
    if IsApproved(q, events, parseTime) {
      var info := Issues(events)[0].issue.value;
      forall i | 0 <= i < |events| ensures events[i].action == Issue {
        assert EventValid(events[i], info);
      }
      OnlyIssues(events);
    }
    if |events| == 1 {
      assert events == [events[0]] && events[1..] == [];
      assert Issues(events[1..]) == [] && CountOf(events[1..], Consume) == 0 && CountOf(events[1..], Revoke) == 0;
    }
  }

  /** Nothing that is appended and no later time turns a confirmation that was issued and is
      not approved into an approved one. */
  lemma NeverReapproved(q: Query, events: seq<Event>, more: seq<Event>, later: int, parseTime: string -> Option<int>)
    requires events != [] && !IsApproved(q, events, parseTime) && q.now <= later
    ensures !IsApproved(q.(now := later), events + more, parseTime)
  {
    ApprovedIff(q, events, parseTime);
    ApprovedIff(q.(now := later), events + more, parseTime);
    if |events + more| == 1 {
      assert (events + more)[0] == events[0];
    }
  }

  // ----- order does not matter -----------------------------------------------------------------

  lemma {:induction false} CountConcat(a: seq<Event>, b: seq<Event>, action: Action)
    ensures CountOf(a + b, action) == CountOf(a, action) + CountOf(b, action)
  {
    if a == [] {
      assert a + b == b;
    } else {
      assert (a + b)[1..] == a[1..] + b;
      CountConcat(a[1..], b, action);
    }
  }

  lemma {:induction false} IssuesConcat(a: seq<Event>, b: seq<Event>)
    ensures Issues(a + b) == Issues(a) + Issues(b)
  {
    if a == [] {
      assert a + b == b;
    } else {
      assert (a + b)[1..] == a[1..] + b;
      IssuesConcat(a[1..], b);
    }
  }

  lemma RemoveAt(s: seq<Event>, j: nat)
    requires j < |s|
    ensures
      var rest := s[..j] + s[j + 1..];
      && |rest| == |s| - 1
      && multiset(rest) == multiset(s) - multiset{s[j]}
      && forall a :: CountOf(s, a) == CountOf(rest, a) + (if s[j].action == a then 1 else 0)
  {
    var left, right := s[..j], s[j + 1..];
    assert s == left + ([s[j]] + right);
    forall a ensures CountOf(s, a) == CountOf(left + right, a) + (if s[j].action == a then 1 else 0) {
      CountConcat(left, [s[j]] + right, a);
      CountConcat([s[j]], right, a);
      CountConcat(left, right, a);
      assert [s[j]][1..] == [];
    }
  }

  lemma {:induction false} CountPermuted(s: seq<Event>, t: seq<Event>, action: Action)
    requires multiset(s) == multiset(t)
    ensures |s| == |t| && CountOf(s, action) == CountOf(t, action)
    decreases |s|
  {
    hide CountOf;
    assert |s| == |multiset(s)| && |t| == |multiset(t)|;
    if s == [] {
      assert s == t;
    } else {
      var j := SameEvents(s, t, 0);
      RemoveAt(s, 0);
      RemoveAt(t, j);
      var front, rest := s[..0] + s[0 + 1..], t[..j] + t[j + 1..];
      CountPermuted(front, rest, action);
    }
  }

  lemma {:induction false} IssueCount(events: seq<Event>)
    ensures |Issues(events)| == CountOf(events, Issue)
  {
    if events != [] {
      IssueCount(events[1..]);
    }
  }

  lemma {:induction false} IssuesAreEvents(events: seq<Event>, e: Event)
    ensures e in Issues(events) <==> e in events && e.action == Issue
  {
    if events != [] {
      IssuesAreEvents(events[1..], e);
      assert events == [events[0]] + events[1..];
    }
  }

  lemma SameEvents(s: seq<Event>, t: seq<Event>, i: nat) returns (j: nat)
    requires multiset(s) == multiset(t) && i < |s|
    ensures j < |t| && t[j] == s[i]
  {
    assert s[i] in multiset(t);
    j :| 0 <= j < |t| && t[j] == s[i];
  }

  lemma PermutedFacts(s: seq<Event>, t: seq<Event>, info: Info)
    requires multiset(s) == multiset(t)
    ensures LifecycleValid(s, info) ==> LifecycleValid(t, info)
    ensures HasAction(s, Revoke) ==> HasAction(t, Revoke)
    ensures HasAction(s, Consume) ==> HasAction(t, Consume)
  {
    hide CountOf;
    CountPermuted(s, t, Consume);
    CountPermuted(s, t, Revoke);
    if LifecycleValid(s, info) {
      forall j | 0 <= j < |t| ensures EventValid(t[j], info) {
        var i := SameEvents(t, s, j);
      }
    }
    if HasAction(s, Revoke) {
      var i :| 0 <= i < |s| && s[i].action == Revoke;
      var j := SameEvents(s, t, i);
    }
    if HasAction(s, Consume) {
      var i :| 0 <= i < |s| && s[i].action == Consume;
      var j := SameEvents(s, t, i);
    }
  }

  /** The outcome does not depend on the order of the events. */
  lemma ResolutionIsOrderFree(q: Query, s: seq<Event>, t: seq<Event>, parseTime: string -> Option<int>)
    requires multiset(s) == multiset(t)
    ensures Resolve(q, s, parseTime) == Resolve(q, t, parseTime)
  {
    hide Issues, CountOf, LifecycleValid, HasAction;
    CountPermuted(s, t, Issue);
    IssueCount(s);
    IssueCount(t);
    if s != [] && |Issues(s)| == 1 {
      var issue := Issues(s)[0];
      IssuesAreEvents(s, issue);
      assert issue in multiset(t);
      IssuesAreEvents(t, issue);
      assert Issues(t)[0] == issue;
      if issue.issue.Some? {
        PermutedFacts(s, t, issue.issue.value);
        PermutedFacts(t, s, issue.issue.value);
      }
    }
  }

  // ----- the ledger ---------------------------------------------------------------------------------

  /** The events of one confirmation, in the order they were appended. */
  function EventsOf(events: seq<Event>, id: string): seq<Event>
  {
    if events == [] then []
    else
      var front, last := EventsOf(events[..|events| - 1], id), events[|events| - 1];
      if last.targetType == "confirmation" && last.targetId == id then front + [last] else front
  }

  lemma EventsOfSnoc(events: seq<Event>, e: Event, id: string)
    ensures EventsOf(events + [e], id) ==
      if e.targetType == "confirmation" && e.targetId == id then EventsOf(events, id) + [e] else EventsOf(events, id)
  {
    assert (events + [e])[..|events|] == events;
  }

  predicate IssueOf(e: Event, id: string)
  {
    && e.action == Issue && e.actor == User && e.targetType == "confirmation" && e.targetId == id
    && e.issue.Some? && e.issue.value.confirmationId == id
  }

  /** The only histories a confirmation can have: nothing, an issue, and after the issue at
      most one consumption followed by at most one revocation. */
  ghost predicate HistoryValid(h: seq<Event>, id: string)
  {
    h == [] ||
    (IssueOf(h[0], id) && |h| <= 3 &&
     var info := h[0].issue.value;
     && (|h| > 1 ==> EventValid(h[1], info) && (h[1].action == Consume || h[1].action == Revoke))
     && (|h| > 2 ==> EventValid(h[2], info) && h[1].action == Consume && h[2].action == Revoke))
  }

  /** Every confirmation in the ledger has such a history. */
  ghost predicate LedgerValid(events: seq<Event>)
  {
    forall id :: HistoryValid(EventsOf(events, id), id)
  }

  // ----- what is asked of the ledger --------------------------------------------------------------

  datatype Request =
    | AskIssue(trusted: bool, info: Info, operationId: string)
    | AskConsume(query: Query, actor: Actor)
    | AskRevoke(trusted: bool, id: string, operationId: string)

  /** The confirmation that a request is about. */
  function Subject(request: Request): string
  {
    match request
    case AskIssue(_, info, _) => info.confirmationId
    case AskConsume(query, _) => query.confirmationId
    case AskRevoke(_, id, _) => id
  }

  /** The request is granted, given the history of its confirmation. */
  predicate Granted(h: seq<Event>, request: Request, parseTime: string -> Option<int>)
  {
    match request
    case AskIssue(trusted, _, _) => trusted && h == []
    case AskConsume(query, actor) => (actor == Capability || actor == System) && IsApproved(query, h, parseTime)
    case AskRevoke(trusted, _, _) => trusted && h != [] && !HasAction(h, Revoke)
  }

  /** The event that records a granted request. */
  function Entry(request: Request): Event
  {
    match request
    case AskIssue(_, info, operationId) =>
      Event(Issue, User, if info.denied then DeniedOutcome else Success, "confirmation", info.confirmationId,
            operationId, Some(info), Some(info.requestFingerprint))
    case AskConsume(query, actor) =>
      Event(Consume, actor, Success, "confirmation", query.confirmationId, query.operationId, None,
            Some(query.fingerprint))
    case AskRevoke(_, id, operationId) =>
      Event(Revoke, User, Success, "confirmation", id, operationId, None, None)
  }

  /** The ledger after a request: one more event if it is granted, and the same otherwise. */
  function After(events: seq<Event>, request: Request, parseTime: string -> Option<int>): seq<Event>
  {
    if Granted(EventsOf(events, Subject(request)), request, parseTime) then events + [Entry(request)] else events
  }

  /** A granted request extends the history of its own confirmation by its entry. */
  lemma AfterHistory(events: seq<Event>, request: Request, id: string, parseTime: string -> Option<int>)
    ensures
      var h := EventsOf(events, id);
      EventsOf(After(events, request, parseTime), id)
      == if id == Subject(request) && Granted(h, request, parseTime) then h + [Entry(request)] else h
  {
    hide EventsOf, Granted;
    EventsOfSnoc(events, Entry(request), id);
  }

  lemma AfterHistories(events: seq<Event>, request: Request, parseTime: string -> Option<int>)
    requires Granted(EventsOf(events, Subject(request)), request, parseTime)
    ensures
      var after, id := After(events, request, parseTime), Subject(request);
      && EventsOf(after, id) == EventsOf(events, id) + [Entry(request)]
      && (forall other :: other != id ==> EventsOf(after, other) == EventsOf(events, other))
  {
    hide EventsOf, Granted, After;
    forall id | id != Subject(request)
      ensures EventsOf(After(events, request, parseTime), id) == EventsOf(events, id)
    {
      AfterHistory(events, request, id, parseTime);
    }
    AfterHistory(events, request, Subject(request), parseTime);
  }

  lemma LastAction(h: seq<Event>, e: Event)
    ensures HasAction(h + [e], e.action)
  {
    assert (h + [e])[|h|] == e;
  }

  /** Every request keeps every history in order. */
  lemma GrantedKeeps(h: seq<Event>, request: Request, parseTime: string -> Option<int>)
    requires HistoryValid(h, Subject(request)) && Granted(h, request, parseTime)
    ensures HistoryValid(h + [Entry(request)], Subject(request))
  {
    hide Resolve, ApprovingIssue;
    match request
    case AskIssue(_, _, _) => assert h + [Entry(request)] == [Entry(request)];
    case AskConsume(query, _) =>
      ApprovedIff(query, h, parseTime);
      ApprovingMeans(query, h[0], parseTime);
      assert h + [Entry(request)] == [h[0], Entry(request)];
    case AskRevoke(_, _, _) =>
      assert |h| <= 2 && (|h| == 2 ==> h[1].action == Consume);
      assert (h + [Entry(request)])[|h|] == Entry(request);
  }

  lemma AfterKeeps(events: seq<Event>, request: Request, parseTime: string -> Option<int>)
    requires LedgerValid(events)
    ensures LedgerValid(After(events, request, parseTime))
  {
    hide EventsOf, Granted, HistoryValid, After;
    forall id ensures HistoryValid(EventsOf(After(events, request, parseTime), id), id) {
      AfterHistory(events, request, id, parseTime);
      if id == Subject(request) && Granted(EventsOf(events, id), request, parseTime) {
        GrantedKeeps(EventsOf(events, id), request, parseTime);
      }
    }
  }

  datatype LedgerError = Forbidden | Duplicate | Unavailable | UnknownConfirmation | Corrupt

  class ConfirmationLedger {
    var events: seq<Event>

    ghost predicate Valid()
      reads this
    {
      LedgerValid(events)
    }

    constructor ()
      ensures Valid() && events == []
    {
      events := [];
    }

    /** Append a user decision under a fresh confirmation identity. */
    method IssueDecision(trusted: bool, info: Info, operationId: string) returns (r: Result<(), LedgerError>)
      requires Valid()
      modifies this
      ensures Valid()
      ensures r.Ok? <==> trusted && EventsOf(old(events), info.confirmationId) == []
      ensures forall parseTime ::
        events == After(old(events), AskIssue(trusted, info, operationId), parseTime)
      ensures r.Ok? ==> exists e ::
        && IssueOf(e, info.confirmationId) && e.issue == Some(info) && e.operationId == operationId
        && (e.outcome == DeniedOutcome <==> info.denied)
        && events == old(events) + [e]
      ensures r.Err? ==> events == old(events)
    {
      hide EventsOf, LedgerValid;
      if !trusted { return Err(Forbidden); }
      if EventsOf(events, info.confirmationId) != [] { return Err(Duplicate); }
      AfterKeeps(events, AskIssue(trusted, info, operationId), _ => None);
      var e := Event(Issue, User, if info.denied then DeniedOutcome else Success, "confirmation",
                     info.confirmationId, operationId, Some(info), Some(info.requestFingerprint));
      events := events + [e];
      return Ok(());
    }

    /** Use a confirmation: only while it is approved for exactly this request, and then
        never again. */
    method ConsumeApproval(q: Query, actor: Actor, parseTime: string -> Option<int>)
      returns (r: Result<Info, LedgerError>)
      requires Valid()
      modifies this
      ensures Valid()
      ensures r.Ok? <==>
        && (actor == Capability || actor == System)
        && old(IsApproved(q, EventsOf(events, q.confirmationId), parseTime))
      ensures events == After(old(events), AskConsume(q, actor), parseTime)
      ensures r.Ok? ==>
        && |EventsOf(old(events), q.confirmationId)| == 1
        && ApprovingIssue(q, EventsOf(old(events), q.confirmationId)[0], parseTime)
        && (forall id :: id != q.confirmationId ==> EventsOf(events, id) == EventsOf(old(events), id))
        && (forall later :: !IsApproved(q.(now := later), EventsOf(events, q.confirmationId), parseTime))
      ensures r.Err? ==> events == old(events)
    {
      hide EventsOf, ApprovingIssue, Resolve, LedgerValid;
      if actor != Capability && actor != System { return Err(Forbidden); }
      var history := EventsOf(events, q.confirmationId);
      var resolution := Resolve(q, history, parseTime);
      if resolution.None? { return Err(Corrupt); }
      if resolution.value.reason != Approved || resolution.value.info.None? {
        ApprovedHasInfo(q, history, parseTime);
        return Err(Unavailable);
      }
      ApprovedIff(q, history, parseTime);
      AfterKeeps(events, AskConsume(q, actor), parseTime);
      AfterHistories(events, AskConsume(q, actor), parseTime);
      var e := Event(Consume, actor, Success, "confirmation", q.confirmationId, q.operationId,
                     None, Some(q.fingerprint));
      events := events + [e];
      forall later ensures !IsApproved(q.(now := later), history + [e], parseTime) {
        ApprovedIff(q.(now := later), history + [e], parseTime);
      }
      return Ok(resolution.value.info.value);
    }

    /** Withdraw a confirmation, consumed or not, once. */
    method RevokeConfirmation(trusted: bool, id: string, operationId: string) returns (r: Result<(), LedgerError>)
      requires Valid()
      modifies this
      ensures Valid()
      ensures r.Ok? <==> trusted && EventsOf(old(events), id) != [] && !HasAction(EventsOf(old(events), id), Revoke)
      ensures forall parseTime :: events == After(old(events), AskRevoke(trusted, id, operationId), parseTime)
      ensures r.Ok? ==>
        && HasAction(EventsOf(events, id), Revoke)
        && (forall other :: other != id ==> EventsOf(events, other) == EventsOf(old(events), other))
      ensures r.Err? ==> events == old(events)
    {
      hide EventsOf, LedgerValid, HasAction;
      if !trusted { return Err(Forbidden); }
      var history := EventsOf(events, id);
      if history == [] { return Err(UnknownConfirmation); }
      if HasAction(history, Revoke) { return Err(Unavailable); }
      AfterKeeps(events, AskRevoke(trusted, id, operationId), _ => None);
      AfterHistories(events, AskRevoke(trusted, id, operationId), _ => None);
      var e := Event(Revoke, User, Success, "confirmation", id, operationId, None, None);
      assert HasAction(history + [e], Revoke) by { LastAction(history, e); }
      events := events + [e];
      return Ok(());
    }
  }

  lemma ApprovedHasInfo(q: Query, events: seq<Event>, parseTime: string -> Option<int>)
    ensures IsApproved(q, events, parseTime) ==> Resolve(q, events, parseTime).value.info.Some?
  {
  }

  lemma ApprovingMeans(q: Query, e: Event, parseTime: string -> Option<int>)
    requires ApprovingIssue(q, e, parseTime)
    ensures IssueOf(e, q.confirmationId) && e.issue.value.requestFingerprint == q.fingerprint
  {
  }

  // ----- whole runs --------------------------------------------------------------------------------

  /** The ledger after a run of requests from the empty one. */
  function Ledger(requests: seq<Request>, parseTime: string -> Option<int>): seq<Event>
  {
    if requests == [] then []
    else After(Ledger(requests[..|requests| - 1], parseTime), requests[|requests| - 1], parseTime)
  }

  /** The request at position `k` of the run is granted. */
  predicate GrantedAt(requests: seq<Request>, k: nat, parseTime: string -> Option<int>)
    requires k < |requests|
  {
    Granted(EventsOf(Ledger(requests[..k], parseTime), Subject(requests[k])), requests[k], parseTime)
  }

  lemma {:induction false} LedgerKeeps(requests: seq<Request>, parseTime: string -> Option<int>)
    ensures LedgerValid(Ledger(requests, parseTime))
  {
    hide LedgerValid, After;
    if requests == [] {
      EmptyLedger();
    } else {
      LedgerKeeps(requests[..|requests| - 1], parseTime);
      AfterKeeps(Ledger(requests[..|requests| - 1], parseTime), requests[|requests| - 1], parseTime);
    }
  }

  lemma EmptyLedger()
    ensures LedgerValid([])
  {
  }

  lemma LedgerStep(requests: seq<Request>, k: nat, id: string, parseTime: string -> Option<int>)
    requires k < |requests|
    ensures
      var h := EventsOf(Ledger(requests[..k], parseTime), id);
      EventsOf(Ledger(requests[..k + 1], parseTime), id)
      == if id == Subject(requests[k]) && GrantedAt(requests, k, parseTime) then h + [Entry(requests[k])] else h
  {
    hide EventsOf, Granted, After;
    assert requests[..k + 1][..k] == requests[..k];
    AfterHistory(Ledger(requests[..k], parseTime), requests[k], id, parseTime);
  }

  /** Histories only grow. */
  lemma {:induction false} LedgerGrows(
    requests: seq<Request>, m: nat, n: nat, id: string, parseTime: string -> Option<int>)
    requires m <= n <= |requests|
    ensures EventsOf(Ledger(requests[..m], parseTime), id) <= EventsOf(Ledger(requests[..n], parseTime), id)
    decreases n
  {
    hide EventsOf, Granted, Ledger;
    if m < n {
      LedgerGrows(requests, m, n - 1, id, parseTime);
      LedgerStep(requests, n - 1, id, parseTime);
    }
  }

  /** Over every run of issuing, consuming and revoking from the empty ledger, no two requests to
      use the same confirmation are granted, and none after a granted revocation. */
  lemma ConsumedAtMostOnce(requests: seq<Request>, i: nat, j: nat, parseTime: string -> Option<int>)
    requires i < j < |requests| && Subject(requests[i]) == Subject(requests[j])
    requires requests[j].AskConsume? && (requests[i].AskConsume? || requests[i].AskRevoke?)
    ensures GrantedAt(requests, i, parseTime) ==> !GrantedAt(requests, j, parseTime)
  {
    hide EventsOf, Ledger, Resolve;
    var id := Subject(requests[j]);
    if GrantedAt(requests, i, parseTime) {
      LedgerStep(requests, i, id, parseTime);
      LedgerGrows(requests, i + 1, j, id, parseTime);
      if requests[i].AskConsume? {
        ApprovedIff(requests[i].query, EventsOf(Ledger(requests[..i], parseTime), id), parseTime);
      }
      ApprovedIff(requests[j].query, EventsOf(Ledger(requests[..j], parseTime), id), parseTime);
    }
  }

  /** After every run, the events of a confirmation hold at most one issue, one consumption and one
      revocation, and no consumption after a revocation. */
  lemma OneOfEach(requests: seq<Request>, id: string, parseTime: string -> Option<int>)
    ensures
      var h := EventsOf(Ledger(requests, parseTime), id);
      && CountOf(h, Issue) <= 1 && CountOf(h, Consume) <= 1 && CountOf(h, Revoke) <= 1
      && (forall i, j :: 0 <= i < j < |h| && h[i].action == Revoke ==> h[j].action != Consume)
  {
    hide CountOf, EventValid, EventsOf, Ledger;
    LedgerKeeps(requests, parseTime);
    var h := EventsOf(Ledger(requests, parseTime), id);
    assert HistoryValid(h, id);
    forall action ensures |h| <= 3 ==> CountOf(h, action) == Occurrences(h, action) { CountShort(h, action); }
  }

  /** Over every run, a use that is granted was preceded by the trusted issue of that confirmation, in
      its favour and for the same operation and fingerprint, which had not expired. */
  lemma UsedAfterIssue(requests: seq<Request>, j: nat, parseTime: string -> Option<int>) returns (i: nat)
    requires j < |requests| && requests[j].AskConsume? && GrantedAt(requests, j, parseTime)
    ensures i < j && requests[i].AskIssue? && requests[i].trusted && GrantedAt(requests, i, parseTime)
    ensures
      var q, info := requests[j].query, requests[i].info;
      && info.confirmationId == q.confirmationId && info.requestFingerprint == q.fingerprint && !info.denied
      && requests[i].operationId == q.operationId
      && parseTime(info.expiresAt).Some? && q.now < parseTime(info.expiresAt).value
  {
    hide EventsOf, Ledger, Resolve;
    var q := requests[j].query;
    ApprovedIff(q, EventsOf(Ledger(requests[..j], parseTime), q.confirmationId), parseTime);
    i := FirstEntry(requests, j, q.confirmationId, parseTime);
  }

  /** The first event of a history is the entry of a granted issue. */
  lemma {:induction false} FirstEntry(
    requests: seq<Request>, n: nat, id: string, parseTime: string -> Option<int>) returns (i: nat)
    requires n <= |requests| && EventsOf(Ledger(requests[..n], parseTime), id) != []
    ensures i < n && Subject(requests[i]) == id && requests[i].AskIssue? && GrantedAt(requests, i, parseTime)
    ensures EventsOf(Ledger(requests[..n], parseTime), id)[0] == Entry(requests[i])
    decreases n
  {
    hide EventsOf, Ledger, Granted, Entry;
    NoHistory(requests, id, parseTime);
    LedgerStep(requests, n - 1, id, parseTime);
    if EventsOf(Ledger(requests[..n - 1], parseTime), id) != [] {
      i := FirstEntry(requests, n - 1, id, parseTime);
    } else {
      i := n - 1;
      EmptyNotUsed(requests[i], parseTime);
    }
  }

  lemma NoHistory(requests: seq<Request>, id: string, parseTime: string -> Option<int>)
    ensures EventsOf(Ledger(requests[..0], parseTime), id) == []
  {
  }

  lemma EmptyNotUsed(request: Request, parseTime: string -> Option<int>)
    ensures Granted([], request, parseTime) ==> request.AskIssue?
  {
  }

  /** The number of entries with the given action, for a history of at most three. */
  function Occurrences(h: seq<Event>, action: Action): nat
  {
    (if |h| > 0 && h[0].action == action then 1 else 0)
    + (if |h| > 1 && h[1].action == action then 1 else 0)
    + (if |h| > 2 && h[2].action == action then 1 else 0)
  }

  lemma CountShort(h: seq<Event>, action: Action)
    requires |h| <= 3
    ensures CountOf(h, action) == Occurrences(h, action)
    decreases |h|
  {
    if h != [] { CountShort(h[1..], action); }
  }
}
