/** Why a confirmation does or does not approve a request (src/doll/_confirmation_validation.py):
    each outcome of its resolution, said of the events themselves. */
module ConfirmationReasons {
  import opened Outcomes
  import opened ConfirmationLifecycle

  /** The event at `i` is the only issue. */
  ghost predicate OnlyIssue(events: seq<Event>, i: nat)
  {
    i < |events| && events[i].action == Issue
    && forall j :: 0 <= j < |events| && j != i ==> events[j].action != Issue
  }

  predicate AtMostOne(events: seq<Event>, action: Action)
  {
    forall i, j :: 0 <= i < j < |events| ==> events[i].action != action || events[j].action != action
  }

  predicate Occurs(events: seq<Event>, action: Action)
  {
    exists e :: e in events && e.action == action
  }

  /** The event belongs to the confirmation and was made by who may make it, with success. */
  predicate Belongs(e: Event, info: Info)
  {
    && e.targetType == "confirmation" && e.targetId == info.confirmationId
    && (e.action == Issue || e.action == Consume || e.action == Revoke)
    && (e.action == Consume ==>
          (e.actor == Capability || e.actor == System) && e.outcome == Success
          && e.fingerprint.Some? && e.fingerprint.value == info.requestFingerprint)
    && (e.action == Revoke ==> e.actor == User && e.outcome == Success)
  }

  /** The events are a whole history: one issue, by a user and for this confirmation, and around it
      only events that belong, with at most one use and one revocation. */
  ghost predicate History(q: Query, events: seq<Event>, i: nat)
  {
    && OnlyIssue(events, i) && events[i].actor == User && events[i].targetId == q.confirmationId
    && events[i].issue.Some? && (forall e :: e in events ==> Belongs(e, events[i].issue.value))
    && AtMostOne(events, Consume) && AtMostOne(events, Revoke)
  }

  /** The confirmation was issued for this operation and this request. */
  predicate Fits(q: Query, issue: Event)
  {
    issue.operationId == q.operationId && issue.issue.Some? && issue.issue.value.requestFingerprint == q.fingerprint
  }

  predicate Refused(issue: Event)
  {
    issue.outcome == DeniedOutcome || (issue.issue.Some? && issue.issue.value.denied)
  }

  // ----- counting -------------------------------------------------------------------------------

  lemma {:induction false} CountZero(events: seq<Event>, action: Action)
    ensures CountOf(events, action) == 0 <==> !Occurs(events, action)
  {
    if events != [] {
      CountZero(events[1..], action);
      assert events == [events[0]] + events[1..];
    }
  }

  lemma {:induction false} CountAtMostOne(events: seq<Event>, action: Action)
    ensures CountOf(events, action) <= 1 <==> AtMostOne(events, action)
  {
    hide Occurs;
    if events != [] {
      var rest := events[1..];
      CountAtMostOne(rest, action);
      CountZero(rest, action);
      AtMostOneStep(events, action);
    }
  }

  lemma AtMostOneStep(events: seq<Event>, action: Action)
    requires events != []
    ensures AtMostOne(events, action) <==>
      AtMostOne(events[1..], action) && (events[0].action == action ==> !Occurs(events[1..], action))
  {
    var rest := events[1..];
    if AtMostOne(events, action) {
      forall i, j | 0 <= i < j < |rest| ensures rest[i].action != action || rest[j].action != action {
        assert rest[i] == events[i + 1] && rest[j] == events[j + 1];
      }
      if events[0].action == action {
        forall k | 0 <= k < |rest| ensures rest[k].action != action { assert rest[k] == events[k + 1]; }
      }
    } else {
      var i, j :| 0 <= i < j < |events| && events[i].action == action && events[j].action == action;
      assert rest[j - 1] == events[j] && rest[j - 1] in rest;
      if i > 0 { assert rest[i - 1] == events[i]; }
    }
  }

  lemma {:induction false} OneIssue(events: seq<Event>, i: nat)
    requires OnlyIssue(events, i)
    ensures Issues(events) == [events[i]]
    decreases |events|
  {
    var rest := events[1..];
    if i == 0 {
      NoIssues(rest);
    } else {
      forall j | 0 <= j < |rest| && j != i - 1 ensures rest[j].action != Issue { assert rest[j] == events[j + 1]; }
      OneIssue(rest, i - 1);
    }
  }

  lemma {:induction false} NoIssues(events: seq<Event>)
    requires forall j :: 0 <= j < |events| ==> events[j].action != Issue
    ensures Issues(events) == []
  {
    if events != [] { NoIssues(events[1..]); }
  }

  lemma {:induction false} IssueFound(events: seq<Event>) returns (i: nat)
    requires |Issues(events)| == 1
    ensures OnlyIssue(events, i)
    decreases |events|
  {
    var rest := events[1..];
    if events[0].action == Issue {
      i := 0;
      forall j | 0 < j < |events| ensures events[j].action != Issue {
        assert events[j] == rest[j - 1] && rest[j - 1] in rest;
        IssuesAreEvents(rest, events[j]);
      }
    } else {
      var k := IssueFound(rest);
      i := k + 1;
      forall j | 0 <= j < |events| && j != i ensures events[j].action != Issue {
        if j > 0 { assert events[j] == rest[j - 1]; }
      }
    }
  }

  lemma ValidIff(events: seq<Event>, info: Info)
    ensures LifecycleValid(events, info) <==>
      AtMostOne(events, Consume) && AtMostOne(events, Revoke) && forall e :: e in events ==> Belongs(e, info)
  {
    hide CountOf, AtMostOne;
    CountAtMostOne(events, Consume);
    CountAtMostOne(events, Revoke);
    forall e ensures EventValid(e, info) <==> Belongs(e, info) {}
    hide EventValid, Belongs;
    assert forall i :: 0 <= i < |events| ==> events[i] in events;
  }

  lemma OccursIff(events: seq<Event>, action: Action)
    ensures HasAction(events, action) <==> Occurs(events, action)
  {
    if HasAction(events, action) {
      var i :| 0 <= i < |events| && events[i].action == action;
      assert events[i] in events;
    }
  }

  // ----- the outcomes --------------------------------------------------------------------------------

  /** The outcome of a whole history. */
  function Outcome(q: Query, events: seq<Event>, issue: Event, parseTime: string -> Option<int>): Option<Reason>
    requires issue.issue.Some?
  {
    if !Fits(q, issue) then Some(MismatchReason)
    else if Occurs(events, Revoke) then Some(Revoked)
    else if Occurs(events, Consume) then Some(Consumed)
    else if Refused(issue) then Some(DeniedReason)
    else
      var expiry := parseTime(issue.issue.value.expiresAt);
      if expiry.None? then None else if q.now < expiry.value then Some(Approved) else Some(Expired)
  }

  /** A confirmation without events is missing; one whose events are not a whole history is corrupt;
      for a whole history a mismatch comes before a revocation, that before a use, that before
      a refusal, and only then expiry decides. */
  lemma ResolutionMeans(q: Query, events: seq<Event>, parseTime: string -> Option<int>)
    ensures events == [] ==> Resolve(q, events, parseTime) == Some(Resolution(Missing, None))
    ensures events != [] && !(exists i: nat :: History(q, events, i)) ==> Resolve(q, events, parseTime) == None
    ensures forall i: nat :: History(q, events, i) ==>
      var reason := Outcome(q, events, events[i], parseTime);
      Resolve(q, events, parseTime)
      == if reason.None? then None else Some(Resolution(reason.value, events[i].issue))
  {
    hide LifecycleValid, HasAction, Occurs, Issues, AtMostOne, Belongs;
    OccursIff(events, Revoke);
    OccursIff(events, Consume);
    forall i: nat | History(q, events, i)
      ensures Resolve(q, events, parseTime)
        == var reason := Outcome(q, events, events[i], parseTime);
           if reason.None? then None else Some(Resolution(reason.value, events[i].issue))
    {
      OneIssue(events, i);
      ValidIff(events, events[i].issue.value);
    }
    if events != [] && Resolve(q, events, parseTime).Some? {
      var i := IssueFound(events);
      OneIssue(events, i);
      ValidIff(events, events[i].issue.value);
      assert History(q, events, i);
    }
  }
}
