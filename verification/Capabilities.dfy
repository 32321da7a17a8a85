/** Capability registry and authorization preflight (src/doll/capabilities.py). */
module Capabilities {
  import opened Outcomes
  import opened Json
  import opened Texts

  // ----- vocabulary -----------------------------------------------------------------

  datatype ArgumentKind = TextArgument | IntegerArgument | BooleanArgument | StringListArgument
  datatype TargetKind = ProvidedData | StateRecord | ManagedArtifact | Url
  datatype SideEffect = ReadState | CreateManagedArtifact | NetworkRead | ProcessExecution
  datatype NetworkMode = NoNetwork | ExplicitUrl
  datatype BindingMode = Unbound | RecordIdentity | ProjectArtifact | DestinationHost
  datatype RiskTier = PureComputation | BoundedRead | ScopedModification | HighRisk
  datatype Origin =
    | SystemPolicy | CurrentUserInstruction | DurableUserPolicy | UserManagementAction
    | ExternalContent | ImportedData | ToolResult | RuntimeOutput | ModelProposal | UnknownOrigin
  datatype Actor =
    | SystemActor | UserActor | Retriever | Extractor | Importer | ToolActor | RuntimeActor
    | ModelActor | UnknownActor

  function TierNumber(t: RiskTier): nat
  {
    match t
    case PureComputation => 0
    case BoundedRead => 1
    case ScopedModification => 2
    case HighRisk => 3
  }

  const ALLOWED_ORIGINS := {SystemPolicy, CurrentUserInstruction, UserManagementAction, ModelProposal}

  predicate ActorMatchesOrigin(actor: Actor, origin: Origin)
  {
    match origin
    case SystemPolicy => actor == SystemActor
    case CurrentUserInstruction => actor == UserActor
    case DurableUserPolicy => actor == UserActor
    case UserManagementAction => actor == UserActor
    case ExternalContent => actor == Retriever || actor == Extractor
    case ImportedData => actor == Importer
    case ToolResult => actor == ToolActor
    case RuntimeOutput => actor == RuntimeActor
    case ModelProposal => actor == ModelActor
    case UnknownOrigin => actor == UnknownActor
  }

  const MAX_CAPABILITY_DEFINITIONS := 256
  const MAX_ARGUMENT_FIELDS := 32
  const MAX_CAPABILITY_ID_LENGTH := 120
  const MAX_VERSION_LENGTH := 32
  const MAX_ID_LENGTH := 200
  const MAX_ARGUMENT_NAME_LENGTH := 80
  const MAX_ARGUMENT_TEXT_LENGTH := 16_000
  const MAX_ARGUMENT_JSON_BYTES := 32 * 1024
  const MAX_TARGET_IDENTIFIER_LENGTH := 2_048
  const MAX_PERMISSION_SCOPE_BYTES := 4_096
  const MAX_TIMEOUT_SECONDS := 3_600

  datatype Argument = Argument(
    name: string, kind: ArgumentKind, required: bool, maximumLength: Option<int>,
    minimumInteger: Option<int>, maximumInteger: Option<int>, maximumItems: Option<int>)
  datatype TargetContract = TargetContract(kind: TargetKind, maximumIdentifierLength: int)
  datatype ResourceContract = ResourceContract(
    maxInputChars: int, maxOutputBytes: int, maxItems: int, maxTimeoutSeconds: int)
  datatype Definition = Definition(
    capabilityId: string, version: string, riskTier: RiskTier, arguments: seq<Argument>,
    target: TargetContract, sideEffects: set<SideEffect>, scopeKind: string, network: NetworkMode,
    binding: BindingMode, origins: set<Origin>, released: bool, resources: ResourceContract,
    cancellationRequired: bool)

  datatype Target = Target(kind: TargetKind, identifier: string)
  datatype ResourceLimits = ResourceLimits(maxInputChars: int, maxOutputBytes: int, maxItems: int)
  datatype Request = Request(
    capabilityId: string, version: string, operationId: string, actor: Actor, origin: Origin,
    arguments: map<string, Json>, target: Target, destination: Option<string>,
    sideEffects: set<SideEffect>, riskTier: int, scope: map<string, Json>, limits: ResourceLimits,
    timeoutSeconds: int, sessionId: Option<string>, cancellationId: Option<string>)

  /** URL and host handling and the pattern of forbidden capability names. */
  datatype Environment = Environment(
    normalizeUrl: string -> Option<string>, normalizeHost: string -> Option<string>,
    schemeOf: string -> string, hostOf: string -> Option<string>, isPrivateHost: string -> bool,
    lower: string -> string, prohibitedId: string -> bool)

  datatype NetworkPolicy = NetworkPolicy(
    enabled: bool, allowedSchemes: set<string>, allowedHosts: set<string>, allowSubdomains: bool)

  datatype PermissionMode = AllowOnce | Scoped | Ask | Deny
  /** The permission resolver; `None` stands for a raised settings or state error. */
  type Resolver = (string, map<string, Json>) -> Option<PermissionMode>

  // ----- registry construction ------------------------------------------------------------

  function ValidateToken(value: string, maximum: nat): Option<string>
  {
    var s := Strip(value);
    if |s| <= maximum && IsToken(s) then Some(s) else None
  }

  /** One to three groups of digits separated by points. */
  predicate IsVersion(s: string)
  {
    && s != [] && IsDigit(s[0]) && IsDigit(s[|s| - 1])
    && (forall i :: 0 <= i < |s| ==> IsDigit(s[i]) || s[i] == '.')
    && (forall i :: 0 < i < |s| ==> IsDigit(s[i - 1]) || IsDigit(s[i]))
    && |set i: nat | i < |s| && s[i] == '.'| <= 2
  }

  function ValidateVersion(value: string): Option<string>
  {
    var s := Strip(value);
    if |s| <= MAX_VERSION_LENGTH && IsVersion(s) then Some(s) else None
  }

  const PROHIBITED_ARGUMENT_NAMES := {
    "argv", "command", "command_line", "executable", "permission", "permission_mode", "registry",
    "risk_tier", "shell" }

  predicate PositiveOptional(v: Option<int>) { v.Some? ==> v.value >= 1 }

  function ValidateArgument(a: Argument, env: Environment): Option<Argument>
  {
    var name := ValidateToken(a.name, MAX_ARGUMENT_NAME_LENGTH);
    if name.None? || env.lower(name.value) in PROHIBITED_ARGUMENT_NAMES
       || !PositiveOptional(a.maximumLength) || !PositiveOptional(a.maximumItems)
       || (a.minimumInteger.Some? && a.maximumInteger.Some? && a.minimumInteger.value > a.maximumInteger.value)
       || (a.kind == TextArgument && a.maximumLength.None?)
       || (a.kind == StringListArgument && (a.maximumLength.None? || a.maximumItems.None?))
    then None
    else Some(a.(name := name.value))
  }

  predicate ArgumentsDistinct(args: seq<Argument>)
  {
    forall i, j :: 0 <= i < j < |args| ==> args[i].name != args[j].name
  }

  predicate HasField(args: seq<Argument>, name: string)
  {
    exists i :: 0 <= i < |args| && args[i].name == name
  }

  predicate ArgumentsValid(args: seq<Argument>, env: Environment)
  {
    forall i :: 0 <= i < |args| ==> ValidateArgument(args[i], env).Some?
  }

  function ValidatedArguments(args: seq<Argument>, env: Environment): seq<Argument>
    requires ArgumentsValid(args, env)
  {
    seq(|args|, i requires 0 <= i < |args| => ValidateArgument(args[i], env).value)
  }

  predicate BindingContract(d: Definition, args: seq<Argument>, scopeKind: string)
  {
    match d.binding
    case Unbound => scopeKind == "none"
    case RecordIdentity => d.target.kind == StateRecord && HasField(args, "record_id") && scopeKind == "record"
    case ProjectArtifact =>
      d.target.kind == ManagedArtifact && HasField(args, "project_id") && HasField(args, "name")
      && scopeKind == "project"
    case DestinationHost =>
      d.target.kind == Url && HasField(args, "url") && scopeKind == "destination" && d.network == ExplicitUrl
  }

  predicate ResourcesValid(r: ResourceContract)
  {
    && 1 <= r.maxTimeoutSeconds <= MAX_TIMEOUT_SECONDS
    && r.maxInputChars >= 1 && r.maxOutputBytes >= 1 && r.maxItems >= 1
  }

  /** The reviewed form of a definition; `None` stands for a raised registry error. */
  function ValidateDefinition(d: Definition, env: Environment): Option<Definition>
  {
    var id := ValidateToken(d.capabilityId, MAX_CAPABILITY_ID_LENGTH);
    var version := ValidateVersion(d.version);
    var scopeKind := ValidateToken(d.scopeKind, 80);
    if id.None? || env.prohibitedId(env.lower(id.value)) || version.None? || scopeKind.None?
       || d.arguments == [] || |d.arguments| > MAX_ARGUMENT_FIELDS || !ArgumentsValid(d.arguments, env)
    then None
    else
      var args := ValidatedArguments(d.arguments, env);
      if !ArgumentsDistinct(args)
         || !(1 <= d.target.maximumIdentifierLength <= MAX_TARGET_IDENTIFIER_LENGTH)
         || (ProcessExecution in d.sideEffects && d.riskTier != HighRisk)
         || !BindingContract(d, args, scopeKind.value)
         || d.origins == {} || !(d.origins <= ALLOWED_ORIGINS)
         || (d.network == ExplicitUrl && (d.target.kind != Url || NetworkRead !in d.sideEffects))
         || (d.network == NoNetwork && NetworkRead in d.sideEffects)
         || !ResourcesValid(d.resources)
      then None
      else Some(d.(capabilityId := id.value, version := version.value, arguments := args,
                   scopeKind := scopeKind.value))
  }

  type Key = (string, string)
  type Registry = map<Key, Definition>

  function KeyOf(d: Definition): Key { (d.capabilityId, d.version) }

  /** Every definition is valid and no two have the same identity and version. */
  ghost predicate DefinitionsAccepted(definitions: seq<Definition>, env: Environment)
  {
    && (forall i :: 0 <= i < |definitions| ==> ValidateDefinition(definitions[i], env).Some?)
    && (forall i, j :: 0 <= i < j < |definitions| ==>
          KeyOf(ValidateDefinition(definitions[i], env).value) != KeyOf(ValidateDefinition(definitions[j], env).value))
  }

  /** The registry holds the reviewed definitions under their keys, and nothing else. */
  ghost predicate Registers(registry: Registry, definitions: seq<Definition>, env: Environment)
  {
    && (forall i :: 0 <= i < |definitions| ==>
          && ValidateDefinition(definitions[i], env).Some?
          && KeyOf(ValidateDefinition(definitions[i], env).value) in registry)
    && (forall k :: k in registry ==> Reviewed(registry[k], k, definitions, env))
  }

  ghost predicate Reviewed(safe: Definition, k: Key, definitions: seq<Definition>, env: Environment)
  {
    k == KeyOf(safe) && exists i :: 0 <= i < |definitions| && ValidateDefinition(definitions[i], env) == Some(safe)
  }

  /** Construction of the sealed registry. */
  method BuildRegistry(definitions: seq<Definition>, env: Environment) returns (r: Option<Registry>)
    ensures r.Some? <==> 0 < |definitions| <= MAX_CAPABILITY_DEFINITIONS && DefinitionsAccepted(definitions, env)
    ensures r.Some? ==> Registers(r.value, definitions, env)
  {
    hide ValidateDefinition;
    if |definitions| > MAX_CAPABILITY_DEFINITIONS { return None; }
    var registered: Registry := map[];
    for n := 0 to |definitions|
      invariant Registers(registered, definitions[..n], env) && DefinitionsAccepted(definitions[..n], env)
    {
      var safe := ValidateDefinition(definitions[n], env);
      if safe.None? { return None; }
      RegistersSnoc(registered, definitions, env, n);
      if KeyOf(safe.value) in registered { return None; }
      registered := registered[KeyOf(safe.value) := safe.value];
    }
    assert definitions[..|definitions|] == definitions;
    assert |definitions| > 0 ==> KeyOf(ValidateDefinition(definitions[0], env).value) in registered;
    if registered == map[] { return None; }
    return Some(registered);
  }

  lemma RegistersSnoc(registry: Registry, definitions: seq<Definition>, env: Environment, n: nat)
    requires n < |definitions| && ValidateDefinition(definitions[n], env).Some?
    requires Registers(registry, definitions[..n], env) && DefinitionsAccepted(definitions[..n], env)
    ensures
      var safe := ValidateDefinition(definitions[n], env).value;
      if KeyOf(safe) in registry then !DefinitionsAccepted(definitions, env)
      else (Registers(registry[KeyOf(safe) := safe], definitions[..n + 1], env)
            && DefinitionsAccepted(definitions[..n + 1], env))
  {
    hide ValidateDefinition;
    var safe := ValidateDefinition(definitions[n], env).value;
    var front, more := definitions[..n], definitions[..n + 1];
    assert more[n] == definitions[n] && forall i :: 0 <= i < n ==> more[i] == front[i] && front[i] == definitions[i];
    if KeyOf(safe) in registry {
      assert Reviewed(registry[KeyOf(safe)], KeyOf(safe), front, env);
      var i :| 0 <= i < n && ValidateDefinition(front[i], env) == Some(registry[KeyOf(safe)]);
      assert KeyOf(ValidateDefinition(definitions[i], env).value)
        == KeyOf(ValidateDefinition(definitions[n], env).value);
    } else {
      var now := registry[KeyOf(safe) := safe];
      forall k | k in now ensures Reviewed(now[k], k, more, env) {
        if k == KeyOf(safe) {
          assert ValidateDefinition(more[n], env) == Some(now[k]);
        } else {
          assert Reviewed(registry[k], k, front, env);
          var i :| 0 <= i < n && ValidateDefinition(front[i], env) == Some(registry[k]);
          assert ValidateDefinition(more[i], env) == Some(now[k]);
        }
      }
    }
  }
}
