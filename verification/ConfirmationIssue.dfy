/** Issuing a confirmation for one exact request (src/doll/confirmation.py), and for which
    requests its approval can be used. */
module ConfirmationIssue {
  import opened Outcomes
  import opened Json
  import opened Capabilities
  import opened Preflight
  import opened ConfirmationBinding
  import opened ConfirmationFingerprint
  import Ledger = ConfirmationLifecycle

  const MAX_CONFIRMATION_TTL_SECONDS := 600
  const MAX_CONFIRMATION_ID_LENGTH := 200

  /** What the user is shown. */
  datatype Preview = Preview(
    effectSummary: string, irreversible: bool, recovery: Option<string>, credentialClass: Option<string>,
    account: Option<string>)

  /** The hash, the secret scan, the check of the preview's texts, and the printed form of
      times. */
  datatype Service = Service(
    registryFingerprint: string, sha256: Bytes -> string, clean: string -> bool, showable: Preview -> bool,
    formatTime: int -> string)

  /** A user's decision on a request, made at `now` under a generated identity. */
  datatype Decision = Decision(
    request: Request, preview: Preview, denied: bool, ttl: int, now: int, id: string)

  /** What the confirmation binds, and the operation it is for; `None` stands for a raised
      error. The checks come in the order of the program. */
  function BoundFor(service: Service, registry: Registry, env: Environment, d: Decision): Option<Bound>
  {
    var binding := HighRiskBinding(d.request, registry, env);
    if binding.None? then None
    else if !service.showable(d.preview) then None
    else if ValidateOptionalToken(d.preview.credentialClass, MAX_CREDENTIAL_CLASS_LENGTH).None? then None
    else if !(1 <= d.ttl <= MAX_CONFIRMATION_TTL_SECONDS) then None
    else Bind(binding.value.envelope, service.registryFingerprint, binding.value.destination,
              d.preview.credentialClass, service.clean)
  }

  /** A decision binds something exactly for a request that passes the Tier 3 binding check, with a
      preview that may be shown and a lifetime of one to 600 seconds; and then it binds the
      request with the registry in use, the agreed destination and the shown credential class. */
  lemma BoundForIff(service: Service, registry: Registry, env: Environment, d: Decision, b: Bound)
    ensures BoundFor(service, registry, env, d) == Some(b) <==>
      && service.showable(d.preview) && 1 <= d.ttl <= 600
      && HighRiskBinding(d.request, registry, env).Some?
      && var binding := HighRiskBinding(d.request, registry, env).value;
      Bind(binding.envelope, service.registryFingerprint, binding.destination, d.preview.credentialClass,
           service.clean) == Some(b)
  {
    hide HighRiskBinding, ValidateEnvelope, SecretFree, IsFingerprint, CanonicalValue;
  }

  function InfoFor(service: Service, registry: Registry, env: Environment, d: Decision): Option<Ledger.Info>
  {
    var bound := BoundFor(service, registry, env, d);
    var id := ValidateToken(d.id, MAX_CONFIRMATION_ID_LENGTH);
    if bound.None? || id.None? then None
    else
      Some(Ledger.Info(id.value, Fingerprint(bound.value, service.sha256), d.denied,
                       service.formatTime(d.now + d.ttl)))
  }

  /** Append a decision: only by a trusted user action, for a request that passes the Tier 3
      binding check, with a showable preview, a lifetime within the limit and a fresh
      identity. */
  method Issue(
    ledger: Ledger.ConfirmationLedger, service: Service, registry: Registry, env: Environment, d: Decision,
    trusted: bool) returns (r: Option<Ledger.Info>)
    requires ledger.Valid()
    modifies ledger
    ensures ledger.Valid()
    ensures
      var info := InfoFor(service, registry, env, d);
      r.Some? <==> trusted && info.Some? && Ledger.EventsOf(old(ledger.events), info.value.confirmationId) == []
    ensures r.Some? ==> r == InfoFor(service, registry, env, d) && exists e ::
      && Ledger.IssueOf(e, r.value.confirmationId) && e.issue == r
      && e.operationId == BoundFor(service, registry, env, d).value.operationId
      && (e.outcome == Ledger.DeniedOutcome <==> d.denied)
      && ledger.events == old(ledger.events) + [e]
    ensures r.None? ==> ledger.events == old(ledger.events)
  {
    hide BoundFor, Fingerprint;
    if !trusted { return None; }
    var bound := BoundFor(service, registry, env, d);
    var info := InfoFor(service, registry, env, d);
    if info.None? { return None; }
    var issued := ledger.IssueDecision(trusted, info.value, bound.value.operationId);
    if issued.Err? { return None; }
    r := info;
  }

  /** The question whether a confirmation approves a request now. */
  function QueryFor(service: Service, id: string, b: Bound, now: int): Ledger.Query
  {
    Ledger.Query(id, b.operationId, Fingerprint(b, service.sha256), now)
  }

  /** An approval is exact: a confirmation that approves a request was decided in its favour, has
      not expired, and was issued for a request with the same bound fields, unless the hash
      collides. The other request may come with any registry fingerprint, destination and
      credential class. */
  lemma ApprovalIsExact(
    service: Service, registry: Registry, env: Environment, d: Decision, history: seq<Ledger.Event>,
    request: Request, fingerprint: string, destination: Option<string>, credential: Option<string>, now: int,
    parseTime: string -> Option<int>)
    requires InfoFor(service, registry, env, d).Some?
    requires parseTime(service.formatTime(d.now + d.ttl)) == Some(d.now + d.ttl)
    requires |history| > 0 && history[0].issue == InfoFor(service, registry, env, d)
    requires Bind(request, fingerprint, destination, credential, service.clean).Some?
    ensures
      var b := BoundFor(service, registry, env, d).value;
      var b' := Bind(request, fingerprint, destination, credential, service.clean).value;
      var q := QueryFor(service, InfoFor(service, registry, env, d).value.confirmationId, b', now);
      Ledger.IsApproved(q, history, parseTime) ==>
        && |history| == 1 && !d.denied && now < d.now + d.ttl
        && (b == b' || Collide(b, b', service.sha256))
  {
    hide Bind, BoundFor, Fingerprint, Collide, Ledger.Resolve, ValidateToken;
    var b := BoundFor(service, registry, env, d).value;
    var b' := Bind(request, fingerprint, destination, credential, service.clean).value;
    var info := InfoFor(service, registry, env, d).value;
    assert info.requestFingerprint == Fingerprint(b, service.sha256);
    Ledger.ApprovedIff(QueryFor(service, info.confirmationId, b', now), history, parseTime);
    SameBoundOrCollision(service, registry, env, d, request, fingerprint, destination, credential);
  }

  lemma SameBoundOrCollision(
    service: Service, registry: Registry, env: Environment, d: Decision,
    request: Request, fingerprint: string, destination: Option<string>, credential: Option<string>)
    requires BoundFor(service, registry, env, d).Some?
    requires Bind(request, fingerprint, destination, credential, service.clean).Some?
    ensures
      var b := BoundFor(service, registry, env, d).value;
      var b' := Bind(request, fingerprint, destination, credential, service.clean).value;
      Fingerprint(b, service.sha256) == Fingerprint(b', service.sha256) ==> b == b' || Collide(b, b', service.sha256)
  {
    hide Bind, Fingerprint, Collide, HighRiskBinding, ValidateEnvelope, ValidateOptionalToken, Encode, Payload, BoundOf;
    var binding := HighRiskBinding(d.request, registry, env).value;
    FingerprintUnambiguous(
      binding.envelope, service.registryFingerprint, binding.destination, d.preview.credentialClass,
      request, fingerprint, destination, credential, service.clean, service.sha256);
  }
}
