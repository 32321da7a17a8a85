/** The audit events that accompany creations (src/doll/artifact.py,
    src/doll/backup_manifest.py). */
module AuditTrail {

  datatype AuditEvent = AuditEvent(id: string, operation: string, action: string, target: string)

  /** How often the trail says that `action` was done to `target`. */
  function Creations(events: seq<AuditEvent>, action: string, target: string): nat
  {
    if events == [] then 0
    else
      var last := events[|events| - 1];
      Creations(events[..|events| - 1], action, target)
      + (if last.action == action && last.target == target then 1 else 0)
  }

  lemma CreationsSnoc(events: seq<AuditEvent>, e: AuditEvent, action: string, target: string)
    ensures Creations(events + [e], action, target)
      == Creations(events, action, target) + (if e.action == action && e.target == target then 1 else 0)
  {
    assert (events + [e])[..|events|] == events;
  }
}
