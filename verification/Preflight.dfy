/** The ordered checks that decide a capability request (src/doll/capabilities.py). */
module Preflight {
  import opened Outcomes
  import opened Json
  import opened Texts
  import opened Capabilities

  // ----- the request envelope ----------------------------------------------------------

  predicate JsonValueValid(v: Json, depth: nat)
    decreases v
  {
    depth <= 8 &&
    match v
    case Obj(m) => forall k :: k in m ==> k != "" && !HasControl(k) && JsonValueValid(m[k], depth + 1)
    case Arr(xs) => forall i :: 0 <= i < |xs| ==> JsonValueValid(xs[i], depth + 1)
    case Str(s) => |s| <= MAX_ARGUMENT_TEXT_LENGTH && !HasControl(s)
    case _ => true
  }

  /** A mapping of the request is bounded, plain JSON. */
  predicate MappingValid(m: map<string, Json>, maximumBytes: nat)
  {
    && (forall k :: k in m ==>
          k != "" && |k| <= MAX_ARGUMENT_NAME_LENGTH && !HasControl(k) && JsonValueValid(m[k], 0))
    && |Encode(Obj(m))| <= maximumBytes
  }

  function ValidateText(value: string, maximum: nat): Option<string>
  {
    var s := Strip(value);
    if s != "" && |s| <= maximum && !HasControl(s) then Some(s) else None
  }

  function ValidateOptionalToken(value: Option<string>, maximum: nat): Option<Option<string>>
  {
    if value.None? then Some(None)
    else
      var token := ValidateToken(value.value, maximum);
      if token.None? then None else Some(token)
  }

  function ValidateOptionalText(value: Option<string>, maximum: nat): Option<Option<string>>
  {
    if value.None? then Some(None)
    else
      var text := ValidateText(value.value, maximum);
      if text.None? then None else Some(text)
  }

  /** The request with its fields checked and trimmed; `None` stands for a raised
      validation error. */
  function ValidateEnvelope(q: Request): Option<Request>
  {
    var id := ValidateToken(q.capabilityId, MAX_CAPABILITY_ID_LENGTH);
    var version := ValidateVersion(q.version);
    var operation := ValidateToken(q.operationId, MAX_ID_LENGTH);
    var session := ValidateOptionalToken(q.sessionId, MAX_ID_LENGTH);
    var cancellation := ValidateOptionalToken(q.cancellationId, MAX_ID_LENGTH);
    var identifier := ValidateText(q.target.identifier, MAX_TARGET_IDENTIFIER_LENGTH);
    var destination := ValidateOptionalText(q.destination, MAX_TARGET_IDENTIFIER_LENGTH);
    if id.None? || version.None? || operation.None? || session.None? || cancellation.None?
       || identifier.None? || destination.None?
       || !MappingValid(q.arguments, MAX_ARGUMENT_JSON_BYTES)
       || !(0 <= q.riskTier <= 3)
       || !MappingValid(q.scope, MAX_PERMISSION_SCOPE_BYTES)
       || q.limits.maxInputChars < 1 || q.limits.maxOutputBytes < 1 || q.limits.maxItems < 1
       || !(1 <= q.timeoutSeconds <= MAX_TIMEOUT_SECONDS)
    then None
    else
      Some(q.(capabilityId := id.value, version := version.value, operationId := operation.value,
              target := Target(q.target.kind, identifier.value), destination := destination.value,
              sessionId := session.value, cancellationId := cancellation.value))
  }

  // ----- the individual checks ---------------------------------------------------------------

  predicate TextMatches(v: Json, maximum: Option<int>)
  {
    v.Str? && Strip(v.text) != "" && maximum.Some? && |v.text| <= maximum.value && !HasControl(v.text)
  }

  predicate ArgumentMatches(a: Argument, v: Json)
  {
    match a.kind
    case TextArgument => TextMatches(v, a.maximumLength)
    case IntegerArgument =>
      v.Int? && (a.minimumInteger.Some? ==> a.minimumInteger.value <= v.number)
      && (a.maximumInteger.Some? ==> v.number <= a.maximumInteger.value)
    case BooleanArgument => v.Bool?
    case StringListArgument =>
      v.Arr? && a.maximumItems.Some? && |v.items| <= a.maximumItems.value && a.maximumLength.Some?
      && forall i :: 0 <= i < |v.items| ==> TextMatches(v.items[i], a.maximumLength)
  }

  predicate ArgumentsMatch(d: Definition, arguments: map<string, Json>)
  {
    && (forall k :: k in arguments ==> HasField(d.arguments, k))
    && (forall i :: 0 <= i < |d.arguments| ==>
          if d.arguments[i].name in arguments
          then ArgumentMatches(d.arguments[i], arguments[d.arguments[i].name])
          else !d.arguments[i].required)
  }

  predicate SafeRelativeArtifact(s: string)
  {
    s != "" && s[0] != '/' && '\\' !in s && !HasControl(s) && !HasDrive(s) && PlainParts(s)
  }

  predicate TargetMatches(contract: TargetContract, target: Target, env: Environment)
  {
    && target.kind == contract.kind && |target.identifier| <= contract.maximumIdentifierLength
    && match contract.kind
       case ProvidedData => IsToken(target.identifier)
       case StateRecord => IsToken(target.identifier)
       case ManagedArtifact => SafeRelativeArtifact(target.identifier)
       case Url => env.normalizeUrl(target.identifier).Some?
  }

  datatype Destination = Mismatch | Agreed(destination: Option<string>)

  /** The destination on which target, declared destination and argument agree. */
  function DestinationFor(d: Definition, q: Request, env: Environment): Destination
  {
    if d.network == NoNetwork then (if q.destination.None? then Agreed(None) else Mismatch)
    else if q.destination.None? then Mismatch
    else
      var target := env.normalizeUrl(q.target.identifier);
      var destination := env.normalizeUrl(q.destination.value);
      var url := Get(q.arguments, "url");
      var argument := if url.Str? then env.normalizeUrl(url.text) else None;
      if target.None? || destination.None? || argument.None?
         || target != destination || destination != argument
      then Mismatch
      else Agreed(destination)
  }

  predicate BindingsMatch(d: Definition, q: Request, destination: Option<string>, scope: map<string, Json>,
      env: Environment)
  {
    match d.binding
    case Unbound => scope == map["kind" := Str("none")]
    case RecordIdentity =>
      var record := Get(q.arguments, "record_id");
      record.Str? && q.target.identifier == record.text
      && scope == map["kind" := Str("record"), "record_id" := record]
    case ProjectArtifact =>
      var project, name := Get(q.arguments, "project_id"), Get(q.arguments, "name");
      project.Str? && IsToken(project.text) && name.Str? && IsToken(name.text)
      && q.target.identifier == project.text + "/" + name.text
      && scope == map["kind" := Str("project"), "project_id" := project]
    case DestinationHost =>
      destination.Some? &&
      var host, scopeHost := env.hostOf(destination.value), Get(scope, "host");
      host.Some? && scopeHost.Str? && env.normalizeHost(scopeHost.text) == host
      && scope == map["kind" := Str("destination"), "host" := scopeHost]
  }

  /** Characters and list items that a value uses. */
  datatype Usage = Usage(characters: nat, items: nat)

  function AddUsage(a: Usage, b: Usage): Usage { Usage(a.characters + b.characters, a.items + b.items) }

  function InputUsage(v: Json): Usage
    decreases v, 1, 0
  {
    match v
    case Obj(m) => SortedProperties(m.Keys); FieldUsage(v, Sorted(m.Keys))
    case Arr(xs) => AddUsage(Usage(0, |xs|), ItemUsage(xs))
    case Str(s) => Usage(|s|, 0)
    case Null => Usage(0, 0)
    case Bool(b) => Usage(if b then 4 else 5, 0)
    case Int(n) => Usage(|IntText(n)|, 0)
    case Float(r) => Usage(|r|, 0)
  }

  function FieldUsage(o: Json, keys: seq<string>): Usage
    requires o.Obj? && forall k :: k in keys ==> k in o.fields
    decreases o, 0, |keys|
  {
    if keys == [] then Usage(0, 0)
    else AddUsage(AddUsage(Usage(|keys[0]|, 0), InputUsage(o.fields[keys[0]])), FieldUsage(o, keys[1..]))
  }

  function ItemUsage(xs: seq<Json>): Usage
    decreases xs, 0, 0
  {
    if xs == [] then Usage(0, 0) else AddUsage(InputUsage(xs[0]), ItemUsage(xs[1..]))
  }

  /** What the keys from position `i` on use. */
  function FieldsFrom(o: Json, keys: seq<string>, i: nat): Usage
    requires o.Obj? && (forall k :: k in keys ==> k in o.fields) && i <= |keys|
  {
    FieldUsage(o, keys[i..])
  }

  lemma FieldUsageStep(o: Json, keys: seq<string>, i: nat)
    requires o.Obj? && (forall k :: k in keys ==> k in o.fields) && i < |keys|
    ensures keys[i] in o.fields
    ensures FieldsFrom(o, keys, i)
      == AddUsage(AddUsage(Usage(|keys[i]|, 0), InputUsage(o.fields[keys[i]])), FieldsFrom(o, keys, i + 1))
  {
    hide InputUsage;
    assert keys[i..][0] in keys && keys[i..][1..] == keys[i + 1..];
  }

  lemma ObjectUsage(o: Json)
    requires o.Obj?
    ensures
      var keys := Sorted(o.fields.Keys);
      && (forall k :: k in keys ==> k in o.fields)
      && InputUsage(o) == FieldsFrom(o, keys, 0) && FieldsFrom(o, keys, |keys|) == Usage(0, 0)
  {
    hide Sorted;
    SortedProperties(o.fields.Keys);
    var keys := Sorted(o.fields.Keys);
    assert keys[0..] == keys && keys[|keys|..] == [];
  }

  lemma ItemUsageStep(xs: seq<Json>, i: nat)
    requires i < |xs|
    ensures ItemUsage(xs[i..]) == AddUsage(InputUsage(xs[i]), ItemUsage(xs[i + 1..]))
  {
    hide InputUsage;
    assert xs[i..][1..] == xs[i + 1..];
  }

  /** Characters of keys and leaves, items of lists, counted by nested loops. */
  method MeasureInput(v: Json) returns (usage: Usage)
    ensures usage == InputUsage(v)
    decreases v, 1
  {
    match v {
      case Obj(m) => usage := MeasureFields(v);
      case Arr(xs) =>
        var items := MeasureItems(xs);
        usage := AddUsage(Usage(0, |xs|), items);
      case _ => usage := InputUsage(v);
    }
  }

  method MeasureFields(v: Json) returns (usage: Usage)
    requires v.Obj?
    ensures usage == InputUsage(v)
    decreases v, 0
  {
    hide InputUsage, FieldsFrom, Sorted;
    ObjectUsage(v);
    var keys := Sorted(v.fields.Keys);
    usage := Usage(0, 0);
    for i := 0 to |keys|
      invariant AddUsage(usage, FieldsFrom(v, keys, i)) == InputUsage(v)
    {
      FieldUsageStep(v, keys, i);
      var nested := MeasureInput(v.fields[keys[i]]);
      usage := Usage(usage.characters + |keys[i]| + nested.characters, usage.items + nested.items);
    }
  }

  method MeasureItems(xs: seq<Json>) returns (usage: Usage)
    ensures usage == ItemUsage(xs)
    decreases xs, 0
  {
    hide InputUsage, ItemUsage;
    usage := Usage(0, 0);
    assert xs[0..] == xs;
    for i := 0 to |xs|
      invariant AddUsage(usage, ItemUsage(xs[i..])) == ItemUsage(xs)
    {
      ItemUsageStep(xs, i);
      var nested := MeasureInput(xs[i]);
      usage := AddUsage(usage, nested);
    }
    assert xs[|xs|..] == [];
    NoItemUsage();
  }

  lemma NoItemUsage()
    ensures ItemUsage([]) == Usage(0, 0)
  {
  }

  predicate LimitsCoverRequest(q: Request)
  {
    var usage := InputUsage(Obj(q.arguments));
    && usage.characters + |q.target.identifier| + (if q.destination.Some? then |q.destination.value| else 0)
         <= q.limits.maxInputChars
    && (if usage.items < 1 then 1 else usage.items) <= q.limits.maxItems
  }

  predicate ResourceLimitsMatch(c: ResourceContract, l: ResourceLimits)
  {
    && 0 < l.maxInputChars <= c.maxInputChars
    && 0 < l.maxOutputBytes <= c.maxOutputBytes
    && 0 < l.maxItems <= c.maxItems
  }

  predicate TimeoutMatches(c: ResourceContract, seconds: int) { 0 < seconds <= c.maxTimeoutSeconds }

  predicate CancellationMatches(d: Definition, cancellationId: Option<string>)
  {
    d.cancellationRequired <==> cancellationId.Some?
  }

  /** The scope as the resolver sees it, when its kind is a token. */
  function PermissionScope(scope: map<string, Json>): Option<map<string, Json>>
  {
    if Get(scope, "kind").Str? && IsToken(Get(scope, "kind").text) then Some(scope) else None
  }

  predicate NetworkAllowed(policy: NetworkPolicy, destination: string, env: Environment)
  {
    policy.enabled && env.schemeOf(destination) in policy.allowedSchemes &&
    var host := env.hostOf(destination);
    host.Some? && !env.isPrivateHost(host.value) &&
    (|| policy.allowedHosts == {}
     || host.value in policy.allowedHosts
     || (policy.allowSubdomains && exists h :: h in policy.allowedHosts && EndsWith(host.value, "." + h)))
  }

  // ----- the decision ------------------------------------------------------------------------------

  datatype Reason =
    | Authorized | UnknownCapability | UnsupportedVersion | ArgumentSchemaMismatch | TargetMismatch
    | DestinationMismatch | BindingMismatch | SideEffectMismatch | RiskTierMismatch
    | ResourceLimitMismatch | TimeoutMismatch | CancellationMismatch | ReleaseExcluded
    | PermissionDenied | PermissionRequiresUserAction | NetworkDenied | ActorOriginMismatch
    | Tier3ConfirmationUnavailable

  datatype Decision = Decision(
    reason: Reason, capabilityId: string, version: string, operationId: string,
    riskTier: Option<RiskTier>, permissionMode: Option<PermissionMode>, destination: Option<string>)

  function Denied(q: Request, reason: Reason, tier: Option<RiskTier>, mode: Option<PermissionMode>): Decision
  {
    Decision(reason, q.capabilityId, q.version, q.operationId, tier, mode, None)
  }

  predicate HasVersions(registry: Registry, id: string)
  {
    exists k :: k in registry && k.0 == id
  }

  /** The checks before any permission is resolved: `None` means that all passed. */
  function FirstFailure(d: Definition, q: Request, env: Environment): Option<Reason>
  {
    if !ActorMatchesOrigin(q.actor, q.origin) || q.origin !in d.origins then Some(ActorOriginMismatch)
    else if !ArgumentsMatch(d, q.arguments) then Some(ArgumentSchemaMismatch)
    else if !TargetMatches(d.target, q.target, env) then Some(TargetMismatch)
    else if DestinationFor(d, q, env) == Mismatch then Some(DestinationMismatch)
    else if q.sideEffects != d.sideEffects then Some(SideEffectMismatch)
    else if q.riskTier != TierNumber(d.riskTier) then Some(RiskTierMismatch)
    else if !ResourceLimitsMatch(d.resources, q.limits) || !LimitsCoverRequest(q) then Some(ResourceLimitMismatch)
    else if !TimeoutMatches(d.resources, q.timeoutSeconds) then Some(TimeoutMismatch)
    else if !CancellationMatches(d, q.cancellationId) then Some(CancellationMismatch)
    else
      var scope := PermissionScope(q.scope);
      if scope.None? || Get(scope.value, "kind") != Str(d.scopeKind) then Some(PermissionDenied)
      else if !BindingsMatch(d, q, DestinationFor(d, q, env).destination, scope.value, env) then Some(BindingMismatch)
      else if !d.released then Some(ReleaseExcluded)
      else if d.riskTier == HighRisk then Some(Tier3ConfirmationUnavailable)
      else None
  }

  /** The outcome once the request itself is in order: permission, then network. */
  function Grant(d: Definition, q: Request, destination: Option<string>, env: Environment,
                 policy: NetworkPolicy, resolve: Resolver): Decision
    requires d.network == ExplicitUrl ==> destination.Some?
  {
    var tier := Some(d.riskTier);
    var permission := if d.scopeKind != "none" then resolve(d.capabilityId, q.scope) else Some(AllowOnce);
    var mode := if d.scopeKind != "none" then permission else None;
    if permission.None? then Denied(q, PermissionDenied, tier, None)
    else if permission.value == Ask then Denied(q, PermissionRequiresUserAction, tier, mode)
    else if permission.value == Deny then Denied(q, PermissionDenied, tier, mode)
    else if d.network == ExplicitUrl && !NetworkAllowed(policy, destination.value, env)
    then Denied(q, NetworkDenied, tier, mode)
    else Decision(Authorized, q.capabilityId, q.version, q.operationId, tier, mode, destination)
  }

  /** The decision on a request whose envelope is `q`. */
  function Decide(registry: Registry, q: Request, env: Environment, policy: NetworkPolicy, resolve: Resolver): Decision
  {
    if !HasVersions(registry, q.capabilityId) then Denied(q, UnknownCapability, None, None)
    else if (q.capabilityId, q.version) !in registry then Denied(q, UnsupportedVersion, None, None)
    else
      var d := registry[(q.capabilityId, q.version)];
      var failure := FirstFailure(d, q, env);
      if failure.Some? then Denied(q, failure.value, Some(d.riskTier), None)
      else
        PassedMeansAgreed(d, q, env);
        Grant(d, q, DestinationFor(d, q, env).destination, env, policy, resolve)
  }

  // ----- the service ---------------------------------------------------------------------------------

  datatype AuditEntry = AuditEntry(operationId: string, success: bool, reason: Reason, riskTier: Option<RiskTier>)

  datatype PreflightError = InvalidRequest | AuditFailed

  class PreflightService {
    const registry: Registry
    const env: Environment
    const policy: NetworkPolicy
    const resolve: Resolver
    var audit: seq<AuditEntry>

    constructor (registry: Registry, env: Environment, policy: NetworkPolicy, resolve: Resolver)
      ensures this.registry == registry && this.env == env && this.policy == policy && this.resolve == resolve
      ensures audit == []
    {
      this.registry, this.env, this.policy, this.resolve := registry, env, policy, resolve;
      audit := [];
    }

    /** Append the decision to the audit log, or raise. */
    method AuditDecision(decision: Decision, auditWorks: bool) returns (r: Result<Decision, PreflightError>)
      modifies this
      ensures auditWorks ==> r == Ok(decision) && audit == old(audit) + [EntryOf(decision)]
      ensures auditWorks ==>
        var entry := EntryOf(decision);
        && entry.operationId == decision.operationId && entry.riskTier == decision.riskTier
        && entry.reason == decision.reason && (entry.success <==> decision.reason == Authorized)
      ensures !auditWorks ==> r == Err(AuditFailed) && audit == old(audit)
    {
      if !auditWorks { return Err(AuditFailed); }
      audit := audit + [EntryOf(decision)];
      return Ok(decision);
    }

    /** A decision is returned only together with its audit entry. */
    method Preflight(request: Request, auditWorks: bool) returns (r: Result<Decision, PreflightError>)
      modifies this
      ensures ValidateEnvelope(request).None? ==> r == Err(InvalidRequest) && audit == old(audit)
      ensures r.Ok? ==>
        && ValidateEnvelope(request).Some?
        && r.value == Decide(registry, ValidateEnvelope(request).value, env, policy, resolve)
        && audit == old(audit) + [EntryOf(r.value)]
      ensures r.Err? ==> audit == old(audit)
      ensures r.Err? <==> ValidateEnvelope(request).None? || !auditWorks
    {
      hide ValidateEnvelope, FirstFailure, Grant, HasVersions;
      var envelope := ValidateEnvelope(request);
      if envelope.None? { return Err(InvalidRequest); }
      var q := envelope.value;
      if !HasVersions(registry, q.capabilityId) {
        r := AuditDecision(Denied(q, UnknownCapability, None, None), auditWorks);
        return;
      }
      if (q.capabilityId, q.version) !in registry {
        r := AuditDecision(Denied(q, UnsupportedVersion, None, None), auditWorks);
        return;
      }
      var d := registry[(q.capabilityId, q.version)];
      var failure := FirstFailure(d, q, env);
      if failure.Some? {
        r := AuditDecision(Denied(q, failure.value, Some(d.riskTier), None), auditWorks);
        return;
      }
      PassedMeansAgreed(d, q, env);
      r := AuditDecision(Grant(d, q, DestinationFor(d, q, env).destination, env, policy, resolve), auditWorks);
    }
  }

  function EntryOf(d: Decision): AuditEntry
  {
    AuditEntry(d.operationId, d.reason == Authorized, d.reason, d.riskTier)
  }

  lemma PassedMeansAgreed(d: Definition, q: Request, env: Environment)
    requires FirstFailure(d, q, env).None?
    ensures DestinationFor(d, q, env).Agreed?
    ensures d.network == ExplicitUrl ==> DestinationFor(d, q, env).destination.Some?
  {
    hide ArgumentsMatch, TargetMatches, BindingsMatch, LimitsCoverRequest, PermissionScope, ResourceLimitsMatch, Get;
  }
}
