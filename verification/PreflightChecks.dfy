/** What the checks of the preflight demand (src/doll/capabilities.py), said of the request and
    the definition themselves, and the decision that follows from them. */
module PreflightChecks {
  import opened Outcomes
  import opened Json
  import opened Texts
  import opened TextMeaning
  import opened Capabilities
  import opened Preflight

  // ----- texts ----------------------------------------------------------------------------

  predicate Printable(s: string)
  {
    forall i :: 0 <= i < |s| ==> s[i] as int >= 32
  }

  predicate Alphanumeric(c: char)
  {
    '0' <= c <= '9' || 'A' <= c <= 'Z' || 'a' <= c <= 'z'
  }

  /** A letter or digit, then letters, digits, points, underscores, colons and hyphens. */
  predicate Word(s: string)
  {
    && s != [] && Alphanumeric(s[0])
    && forall i :: 0 < i < |s| ==> Alphanumeric(s[i]) || s[i] == '.' || s[i] == '_' || s[i] == ':' || s[i] == '-'
  }

  lemma WordIff(s: string)
    ensures IsToken(s) <==> Word(s)
  {
  }

  /** A printable text within the limit that is not just white space. */
  predicate Says(v: Json, maximum: Option<int>)
  {
    v.Str? && maximum.Some? && |v.text| <= maximum.value && Printable(v.text) && !AllSpace(v.text)
  }

  lemma SaysIff(v: Json, maximum: Option<int>)
    ensures TextMatches(v, maximum) <==> Says(v, maximum)
  {
    hide Strip, AllSpace;
    if v.Str? { StripEmptyIff(v.text); }
  }

  // ----- who may ask, and with what -------------------------------------------------------------

  /** Who can be behind an instruction of which origin. */
  const SPEAKERS: set<(Origin, Actor)> := {
    (SystemPolicy, SystemActor), (CurrentUserInstruction, UserActor), (DurableUserPolicy, UserActor),
    (UserManagementAction, UserActor), (ExternalContent, Retriever), (ExternalContent, Extractor),
    (ImportedData, Importer), (ToolResult, ToolActor), (RuntimeOutput, RuntimeActor),
    (ModelProposal, ModelActor), (UnknownOrigin, UnknownActor) }

  predicate MayAsk(d: Definition, q: Request)
  {
    (q.origin, q.actor) in SPEAKERS && q.origin in d.origins
  }

  /** The number by which a request declares a risk tier. */
  const TIERS: set<(int, RiskTier)> :=
    {(0, PureComputation), (1, BoundedRead), (2, ScopedModification), (3, HighRisk)}

  lemma TiersIff(n: int, tier: RiskTier)
    ensures n == TierNumber(tier) <==> (n, tier) in TIERS
  {
  }

  lemma SpeakersIff(actor: Actor, origin: Origin)
    ensures ActorMatchesOrigin(actor, origin) <==> (origin, actor) in SPEAKERS
  {
  }

  predicate FitsArgument(a: Argument, v: Json)
  {
    && (a.kind == TextArgument ==> Says(v, a.maximumLength))
    && (a.kind == BooleanArgument ==> v.Bool?)
    && (a.kind == IntegerArgument ==>
          && v.Int?
          && !(a.minimumInteger.Some? && v.number < a.minimumInteger.value)
          && !(a.maximumInteger.Some? && v.number > a.maximumInteger.value))
    && (a.kind == StringListArgument ==>
          && v.Arr? && a.maximumLength.Some? && a.maximumItems.Some? && |v.items| <= a.maximumItems.value
          && forall x :: x in v.items ==> Says(x, a.maximumLength))
  }

  /** Every argument is declared, every required one is there, and each fits its declaration. */
  ghost predicate ArgumentsFit(d: Definition, arguments: map<string, Json>)
  {
    && (forall k :: k in arguments ==> exists a :: a in d.arguments && a.name == k)
    && (forall a :: a in d.arguments && a.required ==> a.name in arguments)
    && (forall a :: a in d.arguments && a.name in arguments ==> FitsArgument(a, arguments[a.name]))
  }

  lemma FitsArgumentIff(a: Argument, v: Json)
    ensures ArgumentMatches(a, v) <==> FitsArgument(a, v)
  {
    hide TextMatches, Says;
    SaysIff(v, a.maximumLength);
    if v.Arr? {
      forall i | 0 <= i < |v.items|
        ensures TextMatches(v.items[i], a.maximumLength) <==> Says(v.items[i], a.maximumLength)
      {
        SaysIff(v.items[i], a.maximumLength);
      }
    }
  }

  lemma ArgumentsFitIff(d: Definition, arguments: map<string, Json>)
    ensures ArgumentsMatch(d, arguments) <==> ArgumentsFit(d, arguments)
  {
    hide ArgumentMatches, FitsArgument;
    forall a, v ensures ArgumentMatches(a, v) <==> FitsArgument(a, v) { FitsArgumentIff(a, v); }
    forall k ensures HasField(d.arguments, k) <==> exists a :: a in d.arguments && a.name == k {}
    if ArgumentsMatch(d, arguments) {
      forall a | a in d.arguments
        ensures (a.required ==> a.name in arguments) && (a.name in arguments ==> FitsArgument(a, arguments[a.name]))
      {
        var i :| 0 <= i < |d.arguments| && d.arguments[i] == a;
      }
    }
    if ArgumentsFit(d, arguments) {
      forall i | 0 <= i < |d.arguments|
        ensures if d.arguments[i].name in arguments
          then ArgumentMatches(d.arguments[i], arguments[d.arguments[i].name]) else !d.arguments[i].required
      {
        assert d.arguments[i] in d.arguments;
      }
    }
  }

  // ----- target and destination --------------------------------------------------------------------

  /** A relative path in the managed tree: no part of it empty, `.` or `..`. */
  predicate RelativePath(s: string)
  {
    && s != "" && s[0] != '/' && Printable(s) && '\\' !in s
    && !(|s| >= 2 && s[1] == ':' && ('A' <= s[0] <= 'Z' || 'a' <= s[0] <= 'z'))
    && forall part :: part in Split(s) ==> part != "" && part != "." && part != ".."
  }

  predicate TargetFits(contract: TargetContract, target: Target, env: Environment)
  {
    && target.kind == contract.kind && |target.identifier| <= contract.maximumIdentifierLength
    && (target.kind == ProvidedData || target.kind == StateRecord ==> Word(target.identifier))
    && (target.kind == ManagedArtifact ==> RelativePath(target.identifier))
    && (target.kind == Url ==> env.normalizeUrl(target.identifier) != None)
  }

  lemma TargetFitsIff(contract: TargetContract, target: Target, env: Environment)
    ensures TargetMatches(contract, target, env) <==> TargetFits(contract, target, env)
  {
    hide Split, IsToken, Word;
    WordIff(target.identifier);
    var parts := Split(target.identifier);
    assert forall i :: 0 <= i < |parts| ==> parts[i] in parts;
  }

  /** One normalized URL is the target, the destination and the `url` argument. */
  predicate AgreedUrl(q: Request, url: string, env: Environment)
  {
    && env.normalizeUrl(q.target.identifier) == Some(url)
    && q.destination.Some? && env.normalizeUrl(q.destination.value) == Some(url)
    && "url" in q.arguments && q.arguments["url"].Str? && env.normalizeUrl(q.arguments["url"].text) == Some(url)
  }

  /** Without network there is no destination; with it, the three places agree on this one. */
  predicate AgreesOn(d: Definition, q: Request, env: Environment, destination: Option<string>)
  {
    && (d.network == NoNetwork ==> q.destination.None? && destination.None?)
    && (d.network == ExplicitUrl ==> destination.Some? && AgreedUrl(q, destination.value, env))
  }

  lemma AgreesIff(d: Definition, q: Request, env: Environment, destination: Option<string>)
    ensures DestinationFor(d, q, env) == Agreed(destination) <==> AgreesOn(d, q, env, destination)
  {
  }

  // ----- limits --------------------------------------------------------------------------------------

  /** The keys and the printed leaves of a value, null not among them. */
  function Words(v: Json): seq<string>
    decreases v, 1, 0
  {
    match v
    case Obj(m) => SortedProperties(m.Keys); WordsOfFields(v, Sorted(m.Keys))
    case Arr(xs) => WordsOfItems(xs)
    case Str(s) => [s]
    case Null => []
    case Bool(b) => [if b then "True" else "False"]
    case Int(n) => [IntText(n)]
    case Float(r) => [r]
  }

  function WordsOfFields(o: Json, keys: seq<string>): seq<string>
    requires o.Obj? && forall k :: k in keys ==> k in o.fields
    decreases o, 0, |keys|
  {
    if keys == [] then [] else [keys[0]] + Words(o.fields[keys[0]]) + WordsOfFields(o, keys[1..])
  }

  function WordsOfItems(xs: seq<Json>): seq<string>
    decreases xs, 0, 0
  {
    if xs == [] then [] else Words(xs[0]) + WordsOfItems(xs[1..])
  }

  /** The items of all lists inside a value. */
  function Items(v: Json): seq<Json>
    decreases v, 1, 0
  {
    match v
    case Obj(m) => SortedProperties(m.Keys); ItemsOfFields(v, Sorted(m.Keys))
    case Arr(xs) => xs + ItemsOfItems(xs)
    case _ => []
  }

  function ItemsOfFields(o: Json, keys: seq<string>): seq<Json>
    requires o.Obj? && forall k :: k in keys ==> k in o.fields
    decreases o, 0, |keys|
  {
    if keys == [] then [] else Items(o.fields[keys[0]]) + ItemsOfFields(o, keys[1..])
  }

  function ItemsOfItems(xs: seq<Json>): seq<Json>
    decreases xs, 0, 0
  {
    if xs == [] then [] else Items(xs[0]) + ItemsOfItems(xs[1..])
  }

  function TotalLength(texts: seq<string>): nat
  {
    if texts == [] then 0 else |texts[0]| + TotalLength(texts[1..])
  }

  lemma {:induction false} TotalLengthAdds(a: seq<string>, b: seq<string>)
    ensures TotalLength(a + b) == TotalLength(a) + TotalLength(b)
  {
    if a == [] {
      assert a + b == b;
    } else {
      TotalLengthAdds(a[1..], b);
      assert (a + b)[1..] == a[1..] + b;
    }
  }

  lemma OneLength(s: string)
    ensures TotalLength([s]) == |s| && TotalLength([]) == 0
  {
    assert [s][1..] == [];
  }

  /** The usage is the length of the words and the number of the items. */
  lemma {:induction false} UsageMeans(v: Json)
    ensures InputUsage(v) == Usage(TotalLength(Words(v)), |Items(v)|)
    decreases v, 1, 0
  {
    hide Sorted, TotalLength, IntText;
    match v
    case Obj(m) =>
      SortedProperties(m.Keys);
      FieldUsageMeans(v, Sorted(m.Keys));
    case Arr(xs) => ItemUsageMeans(xs);
    case Str(s) => OneLength(s);
    case Null => OneLength("");
    case Bool(b) => OneLength(if b then "True" else "False");
    case Int(n) => OneLength(IntText(n));
    case Float(r) => OneLength(r);
  }

  lemma {:induction false} FieldUsageMeans(o: Json, keys: seq<string>)
    requires o.Obj? && forall k :: k in keys ==> k in o.fields
    ensures FieldUsage(o, keys) == Usage(TotalLength(WordsOfFields(o, keys)), |ItemsOfFields(o, keys)|)
    decreases o, 0, |keys|
  {
    hide TotalLength;
    if keys == [] {
      OneLength("");
    } else {
      var k := keys[0];
      UsageMeans(o.fields[k]);
      FieldUsageMeans(o, keys[1..]);
      OneLength(k);
      TotalLengthAdds([k], Words(o.fields[k]));
      TotalLengthAdds([k] + Words(o.fields[k]), WordsOfFields(o, keys[1..]));
    }
  }

  lemma {:induction false} ItemUsageMeans(xs: seq<Json>)
    ensures ItemUsage(xs) == Usage(TotalLength(WordsOfItems(xs)), |ItemsOfItems(xs)|)
    decreases xs, 0, 0
  {
    hide TotalLength;
    if xs == [] {
      OneLength("");
    } else {
      UsageMeans(xs[0]);
      ItemUsageMeans(xs[1..]);
      TotalLengthAdds(Words(xs[0]), WordsOfItems(xs[1..]));
    }
  }

  /** The limits lie within the contract and cover what the request brings along. */
  predicate LimitsFit(c: ResourceContract, q: Request)
  {
    var l, input := q.limits, Obj(q.arguments);
    var places := [q.target.identifier] + (if q.destination.Some? then [q.destination.value] else []);
    && 1 <= l.maxInputChars <= c.maxInputChars && 1 <= l.maxOutputBytes <= c.maxOutputBytes
    && 1 <= l.maxItems <= c.maxItems
    && TotalLength(Words(input) + places) <= l.maxInputChars && |Items(input)| <= l.maxItems
  }

  lemma LimitsFitIff(c: ResourceContract, q: Request)
    ensures ResourceLimitsMatch(c, q.limits) && LimitsCoverRequest(q) <==> LimitsFit(c, q)
  {
    hide InputUsage, Words, Items, TotalLength;
    var input := Obj(q.arguments);
    UsageMeans(input);
    var last := if q.destination.Some? then [q.destination.value] else [];
    TotalLengthAdds(Words(input), [q.target.identifier] + last);
    TotalLengthAdds([q.target.identifier], last);
    OneLength(q.target.identifier);
    if q.destination.Some? { OneLength(q.destination.value); }
  }

  // ----- scope ---------------------------------------------------------------------------------------

  predicate ScopeFits(d: Definition, scope: map<string, Json>)
  {
    "kind" in scope && scope["kind"] == Str(d.scopeKind) && Word(d.scopeKind)
  }

  lemma ScopeFitsIff(d: Definition, scope: map<string, Json>)
    ensures (PermissionScope(scope).Some? && Get(PermissionScope(scope).value, "kind") == Str(d.scopeKind))
      <==> ScopeFits(d, scope)
    ensures PermissionScope(scope).Some? ==> PermissionScope(scope).value == scope
  {
    hide IsToken, Word;
    WordIff(d.scopeKind);
  }

  /** The scope names the very thing that target and arguments name, and nothing else. */
  ghost predicate Bound(d: Definition, q: Request, destination: Option<string>, env: Environment)
  {
    match d.binding
    case Unbound => q.scope == map["kind" := Str("none")]
    case RecordIdentity =>
      && "record_id" in q.arguments && q.arguments["record_id"] == Str(q.target.identifier)
      && q.scope == map["kind" := Str("record"), "record_id" := Str(q.target.identifier)]
    case ProjectArtifact => exists project, name :: BoundArtifact(q, project, name)
    case DestinationHost => exists host :: BoundHost(q, destination, host, env)
  }

  predicate BoundArtifact(q: Request, project: string, name: string)
  {
    && Word(project) && Word(name) && q.target.identifier == project + "/" + name
    && "project_id" in q.arguments && q.arguments["project_id"] == Str(project)
    && "name" in q.arguments && q.arguments["name"] == Str(name)
    && q.scope == map["kind" := Str("project"), "project_id" := Str(project)]
  }

  predicate BoundHost(q: Request, destination: Option<string>, host: string, env: Environment)
  {
    && q.scope == map["kind" := Str("destination"), "host" := Str(host)]
    && destination.Some? && env.hostOf(destination.value).Some?
    && env.normalizeHost(host) == env.hostOf(destination.value)
  }

  lemma BoundIff(d: Definition, q: Request, destination: Option<string>, env: Environment)
    ensures BindingsMatch(d, q, destination, q.scope, env) <==> Bound(d, q, destination, env)
  {
    hide IsToken, Word;
    match d.binding
    case ProjectArtifact => BoundArtifactIff(q, destination, d, env);
    case DestinationHost => BoundHostIff(q, destination, d, env);
    case _ =>
  }

  lemma BoundArtifactIff(q: Request, destination: Option<string>, d: Definition, env: Environment)
    requires d.binding == ProjectArtifact
    ensures BindingsMatch(d, q, destination, q.scope, env) <==> exists project, name :: BoundArtifact(q, project, name)
  {
    hide IsToken, Word;
    var project, name := Get(q.arguments, "project_id"), Get(q.arguments, "name");
    if project.Str? && name.Str? {
      WordIff(project.text);
      WordIff(name.text);
      if BindingsMatch(d, q, destination, q.scope, env) { assert BoundArtifact(q, project.text, name.text); }
    }
    if p, n :| BoundArtifact(q, p, n) { assert project == Str(p) && name == Str(n); }
  }

  lemma BoundHostIff(q: Request, destination: Option<string>, d: Definition, env: Environment)
    requires d.binding == DestinationHost
    ensures BindingsMatch(d, q, destination, q.scope, env) <==> exists host :: BoundHost(q, destination, host, env)
  {
    var scopeHost := Get(q.scope, "host");
    if BindingsMatch(d, q, destination, q.scope, env) { assert BoundHost(q, destination, scopeHost.text, env); }
    if host :| BoundHost(q, destination, host, env) { assert scopeHost == Str(host); }
  }

  // ----- permission and network -------------------------------------------------------------------------

  /** The host is listed, or lies below a listed one where that is allowed; an empty list allows
      every host. */
  ghost predicate HostListed(policy: NetworkPolicy, host: string)
  {
    || policy.allowedHosts == {}
    || host in policy.allowedHosts
    || (policy.allowSubdomains && exists h, front :: h in policy.allowedHosts && host == front + "." + h)
  }

  /** The policy is switched on and lists the scheme; the host is not a private one and is listed. */
  ghost predicate MayReach(policy: NetworkPolicy, url: string, env: Environment)
  {
    && policy.enabled && env.schemeOf(url) in policy.allowedSchemes
    && env.hostOf(url).Some? && !env.isPrivateHost(env.hostOf(url).value)
    && HostListed(policy, env.hostOf(url).value)
  }

  lemma MayReachIff(policy: NetworkPolicy, url: string, env: Environment)
    ensures NetworkAllowed(policy, url, env) <==> MayReach(policy, url, env)
  {
    hide EndsWith;
    if env.hostOf(url).Some? {
      var host := env.hostOf(url).value;
      if h :| h in policy.allowedHosts && EndsWith(host, "." + h) {
        EndsWithMeans(host, "." + h);
        var front :| host == front + ("." + h);
        assert host == front + "." + h;
      }
      if h, front :| h in policy.allowedHosts && host == front + "." + h {
        assert host == front + ("." + h);
        EndsWithMeans(host, "." + h);
      }
    }
  }

  // ----- the decision ------------------------------------------------------------------------------------

  /** The first check that fails, in the order in which they are made. */
  ghost function Verdict(
    d: Definition, q: Request, env: Environment, policy: NetworkPolicy, resolve: Resolver): Reason
  {
    if !MayAsk(d, q) then ActorOriginMismatch
    else if !ArgumentsFit(d, q.arguments) then ArgumentSchemaMismatch
    else if !TargetFits(d.target, q.target, env) then TargetMismatch
    else if !exists x :: AgreesOn(d, q, env, x) then DestinationMismatch
    else
      var destination :| AgreesOn(d, q, env, destination);
      if q.sideEffects != d.sideEffects then SideEffectMismatch
      else if (q.riskTier, d.riskTier) !in TIERS then RiskTierMismatch
      else if !LimitsFit(d.resources, q) then ResourceLimitMismatch
      else if !(1 <= q.timeoutSeconds <= d.resources.maxTimeoutSeconds) then TimeoutMismatch
      else if d.cancellationRequired != q.cancellationId.Some? then CancellationMismatch
      else if !ScopeFits(d, q.scope) then PermissionDenied
      else if !Bound(d, q, destination, env) then BindingMismatch
      else if !d.released then ReleaseExcluded
      else if d.riskTier == HighRisk then Tier3ConfirmationUnavailable
      else if d.scopeKind != "none" && resolve(d.capabilityId, q.scope) == Some(Ask) then PermissionRequiresUserAction
      else if d.scopeKind != "none" && resolve(d.capabilityId, q.scope) !in {Some(AllowOnce), Some(Scoped)}
      then PermissionDenied
      else if d.network == ExplicitUrl && !MayReach(policy, destination.value, env) then NetworkDenied
      else Authorized
  }

  /** On every registered capability the reason of the decision is that of the first check that
      fails, and `Authorized` if none does. */
  lemma DecisionMeans(registry: Registry, q: Request, env: Environment, policy: NetworkPolicy, resolve: Resolver)
    ensures
      var decision := Decide(registry, q, env, policy, resolve);
      if (q.capabilityId, q.version) in registry
      then decision.reason == Verdict(registry[(q.capabilityId, q.version)], q, env, policy, resolve)
      else if exists v :: (q.capabilityId, v) in registry then decision.reason == UnsupportedVersion
      else decision.reason == UnknownCapability
  {
    hide FirstFailure, Grant, Verdict, DestinationFor;
    if (q.capabilityId, q.version) in registry {
      assert HasVersions(registry, q.capabilityId);
      var d := registry[(q.capabilityId, q.version)];
      ChecksMean(d, q, env);
      if FirstFailure(d, q, env).None? {
        PassedMeansAgreed(d, q, env);
        GrantMeans(d, q, DestinationFor(d, q, env).destination, env, policy, resolve);
      }
      VerdictParts(d, q, env, policy, resolve);
    } else {
      if v :| (q.capabilityId, v) in registry { assert (q.capabilityId, v).0 == q.capabilityId; }
      if HasVersions(registry, q.capabilityId) {
        var k :| k in registry && k.0 == q.capabilityId;
        assert (q.capabilityId, k.1) == k;
      }
    }
  }

  /** The part of the verdict before permission and network. */
  ghost function FirstRefusal(d: Definition, q: Request, env: Environment): Option<Reason>
  {
    if !MayAsk(d, q) then Some(ActorOriginMismatch)
    else if !ArgumentsFit(d, q.arguments) then Some(ArgumentSchemaMismatch)
    else if !TargetFits(d.target, q.target, env) then Some(TargetMismatch)
    else if DestinationFor(d, q, env) == Mismatch then Some(DestinationMismatch)
    else if q.sideEffects != d.sideEffects then Some(SideEffectMismatch)
    else if (q.riskTier, d.riskTier) !in TIERS then Some(RiskTierMismatch)
    else if !LimitsFit(d.resources, q) then Some(ResourceLimitMismatch)
    else if !(1 <= q.timeoutSeconds <= d.resources.maxTimeoutSeconds) then Some(TimeoutMismatch)
    else if d.cancellationRequired != q.cancellationId.Some? then Some(CancellationMismatch)
    else if !ScopeFits(d, q.scope) then Some(PermissionDenied)
    else if !Bound(d, q, DestinationFor(d, q, env).destination, env) then Some(BindingMismatch)
    else if !d.released then Some(ReleaseExcluded)
    else if d.riskTier == HighRisk then Some(Tier3ConfirmationUnavailable)
    else None
  }

  lemma ChecksMean(d: Definition, q: Request, env: Environment)
    ensures FirstFailure(d, q, env) == FirstRefusal(d, q, env)
  {
    hide ArgumentsMatch, TargetMatches, DestinationFor, BindingsMatch, LimitsCoverRequest, ResourceLimitsMatch, Get;
    hide ArgumentsFit, TargetFits, LimitsFit, ScopeFits, Bound, ActorMatchesOrigin, PermissionScope, TierNumber;
    SpeakersIff(q.actor, q.origin);
    TiersIff(q.riskTier, d.riskTier);
    ArgumentsFitIff(d, q.arguments);
    TargetFitsIff(d.target, q.target, env);
    LimitsFitIff(d.resources, q);
    ScopeFitsIff(d, q.scope);
    if DestinationFor(d, q, env).Agreed? { BoundIff(d, q, DestinationFor(d, q, env).destination, env); }
  }

  lemma GrantMeans(
    d: Definition, q: Request, destination: Option<string>, env: Environment, policy: NetworkPolicy, resolve: Resolver)
    requires d.network == ExplicitUrl ==> destination.Some?
    ensures
      var permission := resolve(d.capabilityId, q.scope);
      Grant(d, q, destination, env, policy, resolve).reason ==
        if d.scopeKind != "none" && permission == Some(Ask) then PermissionRequiresUserAction
        else if d.scopeKind != "none" && permission !in {Some(AllowOnce), Some(Scoped)} then PermissionDenied
        else if d.network == ExplicitUrl && !MayReach(policy, destination.value, env) then NetworkDenied
        else Authorized
  {
    hide NetworkAllowed, MayReach;
    if d.network == ExplicitUrl { MayReachIff(policy, destination.value, env); }
  }

  lemma VerdictParts(d: Definition, q: Request, env: Environment, policy: NetworkPolicy, resolve: Resolver)
    ensures
      var refusal := FirstRefusal(d, q, env);
      && (refusal.Some? ==> Verdict(d, q, env, policy, resolve) == refusal.value)
      && (refusal.None? ==>
            var permission, agreed := resolve(d.capabilityId, q.scope), DestinationFor(d, q, env);
            && agreed.Agreed? && (d.network == ExplicitUrl ==> agreed.destination.Some?)
            && Verdict(d, q, env, policy, resolve) ==
                 if d.scopeKind != "none" && permission == Some(Ask) then PermissionRequiresUserAction
                 else if d.scopeKind != "none" && permission !in {Some(AllowOnce), Some(Scoped)} then PermissionDenied
                 else if d.network == ExplicitUrl && !MayReach(policy, agreed.destination.value, env) then NetworkDenied
                 else Authorized)
  {
    hide ArgumentsFit, TargetFits, LimitsFit, ScopeFits, Bound, MayAsk, MayReach, DestinationFor;
    forall x ensures DestinationFor(d, q, env) == Agreed(x) <==> AgreesOn(d, q, env, x) { AgreesIff(d, q, env, x); }
    if DestinationFor(d, q, env).Agreed? { assert AgreesOn(d, q, env, DestinationFor(d, q, env).destination); }
  }

  /** A decision names the request and the tier of its definition, carries the permission that was
      resolved, if it came to that, and the destination on which the request agrees exactly when
      it authorizes. */
  lemma DecidedFields(registry: Registry, q: Request, env: Environment, policy: NetworkPolicy, resolve: Resolver)
    ensures
      var decision := Decide(registry, q, env, policy, resolve);
      && decision.capabilityId == q.capabilityId && decision.version == q.version
      && decision.operationId == q.operationId
      && decision.riskTier == (if (q.capabilityId, q.version) in registry
                               then Some(registry[(q.capabilityId, q.version)].riskTier) else None)
      && decision.permissionMode == (if (q.capabilityId, q.version) in registry
                                     then ModeFor(registry[(q.capabilityId, q.version)], q, env, resolve) else None)
      && if decision.reason == Authorized
      then ((q.capabilityId, q.version) in registry
            && AgreesOn(registry[(q.capabilityId, q.version)], q, env, decision.destination))
      else decision.destination.None?
  {
    hide FirstFailure, NetworkAllowed, DestinationFor, AgreesOn;
    if (q.capabilityId, q.version) in registry {
      var d := registry[(q.capabilityId, q.version)];
      ChecksMean(d, q, env);
      RefusalDenies(d, q, env);
      if FirstFailure(d, q, env).None? {
        PassedMeansAgreed(d, q, env);
        AgreesIff(d, q, env, DestinationFor(d, q, env).destination);
      }
    }
  }

  /** The permission that is resolved: none before the request itself is in order, and none for a
      capability without a scope. */
  ghost function ModeFor(d: Definition, q: Request, env: Environment, resolve: Resolver): Option<PermissionMode>
  {
    if FirstRefusal(d, q, env).Some? || d.scopeKind == "none" then None else resolve(d.capabilityId, q.scope)
  }

  lemma RefusalDenies(d: Definition, q: Request, env: Environment)
    ensures FirstRefusal(d, q, env) != Some(Authorized)
  {
    hide ArgumentsFit, TargetFits, LimitsFit, ScopeFits, Bound, MayAsk, DestinationFor;
  }

  // ----- the envelope ---------------------------------------------------------------------------------------

  /** A value with everything inside it, each with its nesting depth. */
  function Inside(v: Json, depth: nat): seq<(nat, Json)>
    decreases v, 1, 0
  {
    [(depth, v)] +
    match v
    case Obj(m) => SortedProperties(m.Keys); InsideFields(v, Sorted(m.Keys), depth + 1)
    case Arr(xs) => InsideItems(xs, depth + 1)
    case _ => []
  }

  function InsideFields(o: Json, keys: seq<string>, depth: nat): seq<(nat, Json)>
    requires o.Obj? && forall k :: k in keys ==> k in o.fields
    decreases o, 0, |keys|
  {
    if keys == [] then [] else Inside(o.fields[keys[0]], depth) + InsideFields(o, keys[1..], depth)
  }

  function InsideItems(xs: seq<Json>, depth: nat): seq<(nat, Json)>
    decreases xs, 0, 0
  {
    if xs == [] then [] else Inside(xs[0], depth) + InsideItems(xs[1..], depth)
  }

  /** At most eight levels down, texts are printable and of bounded length, keys printable and not
      empty. */
  predicate Plain(at: (nat, Json))
  {
    && at.0 <= 8
    && (at.1.Str? ==> |at.1.text| <= 16_000 && Printable(at.1.text))
    && (at.1.Obj? ==> forall k :: k in at.1.fields ==> k != "" && Printable(k))
  }

  predicate AllPlain(values: seq<(nat, Json)>)
  {
    forall at :: at in values ==> Plain(at)
  }

  lemma {:induction false} PlainIff(v: Json, depth: nat)
    ensures JsonValueValid(v, depth) <==> AllPlain(Inside(v, depth))
    decreases v, 1, 0
  {
    hide Sorted, InsideFields, InsideItems;
    forall s: string ensures HasControl(s) <==> !Printable(s) {}
    hide HasControl, Printable;
    assert (depth, v) in Inside(v, depth);
    match v
    case Obj(m) =>
      SortedProperties(m.Keys);
      PlainFieldsIff(v, Sorted(m.Keys), depth + 1);
      assert Inside(v, depth) == [(depth, v)] + InsideFields(v, Sorted(m.Keys), depth + 1);
    case Arr(xs) =>
      PlainItemsIff(xs, depth + 1);
      assert Inside(v, depth) == [(depth, v)] + InsideItems(xs, depth + 1);
    case _ =>
      assert Inside(v, depth) == [(depth, v)];
  }

  lemma {:induction false} PlainFieldsIff(o: Json, keys: seq<string>, depth: nat)
    requires o.Obj? && forall k :: k in keys ==> k in o.fields
    ensures (forall k :: k in keys ==> JsonValueValid(o.fields[k], depth)) <==> AllPlain(InsideFields(o, keys, depth))
    decreases o, 0, |keys|
  {
    hide JsonValueValid, Inside, Plain;
    if keys != [] {
      PlainIff(o.fields[keys[0]], depth);
      PlainFieldsIff(o, keys[1..], depth);
      assert keys == [keys[0]] + keys[1..];
    }
  }

  lemma {:induction false} PlainItemsIff(xs: seq<Json>, depth: nat)
    ensures (forall i :: 0 <= i < |xs| ==> JsonValueValid(xs[i], depth)) <==> AllPlain(InsideItems(xs, depth))
    decreases xs, 0, 0
  {
    hide JsonValueValid, Inside, Plain;
    if xs != [] {
      PlainIff(xs[0], depth);
      PlainItemsIff(xs[1..], depth);
      assert xs == [xs[0]] + xs[1..];
    }
  }

  /** A bounded mapping of plain values under printable keys of 1 to 80 characters. */
  predicate PlainMapping(m: map<string, Json>, maximumBytes: nat)
  {
    && (forall k :: k in m ==> 1 <= |k| <= 80 && Printable(k) && AllPlain(Inside(m[k], 0)))
    && |Encode(Obj(m))| <= maximumBytes
  }

  lemma PlainMappingIff(m: map<string, Json>, maximumBytes: nat)
    ensures MappingValid(m, maximumBytes) <==> PlainMapping(m, maximumBytes)
  {
    hide JsonValueValid, AllPlain, Inside, Encode;
    forall k | k in m ensures JsonValueValid(m[k], 0) <==> AllPlain(Inside(m[k], 0)) { PlainIff(m[k], 0); }
  }

  /** A trimmed word of at most so many characters. */
  predicate TrimmedWord(value: string, trimmed: string, maximum: nat)
  {
    trimmed == Strip(value) && Word(trimmed) && |trimmed| <= maximum
  }

  /** A trimmed printable text, not empty, of at most so many characters. */
  predicate TrimmedText(value: string, trimmed: string, maximum: nat)
  {
    trimmed == Strip(value) && 1 <= |trimmed| <= maximum && Printable(trimmed)
  }

  /** Digits in one to three groups, with single points between them. */
  ghost predicate VersionText(s: string)
  {
    exists groups: seq<string> :: VersionGroups(s, groups)
  }

  predicate VersionGroups(s: string, groups: seq<string>)
  {
    && 1 <= |groups| <= 3 && (forall g :: g in groups ==> IsDigits(g))
    && s == groups[0] + (if |groups| > 1 then "." + groups[1] else "") + (if |groups| > 2 then "." + groups[2] else "")
  }

  /** The positions of the points. */
  function Points(s: string): set<nat>
  {
    set i: nat | i < |s| && s[i] == '.'
  }

  lemma {:induction false} SubsetSize(a: set<nat>, b: set<nat>)
    requires a <= b
    ensures |a| <= |b|
  {
    if a != {} {
      var x :| x in a;
      SubsetSize(a - {x}, b - {x});
    }
  }

  lemma PointsOfGroups(s: string, groups: seq<string>)
    requires VersionGroups(s, groups)
    ensures IsVersion(s)
  {
    var a := |groups[0]|;
    var b := if |groups| > 2 then a + 1 + |groups[1]| else a;
    forall g | g in groups ensures g != [] {}
    assert groups[0] in groups && (|groups| > 1 ==> groups[1] in groups) && (|groups| > 2 ==> groups[2] in groups);
    forall i | 0 <= i < |s| ensures if i == a || i == b then s[i] == '.' else IsDigit(s[i]) {
      if i < a {
        assert s[i] == groups[0][i];
      } else if |groups| > 1 && a < i < a + 1 + |groups[1]| {
        assert s[i] == groups[1][i - a - 1];
      } else if |groups| > 2 && i > b {
        assert s[i] == groups[2][i - b - 1];
      }
    }
    assert Points(s) <= {a, b};
    SubsetSize(Points(s), {a, b});
  }

  /** A part between two points, or between a point and an end. */
  lemma Group(s: string, from: nat, to: nat)
    requires from < to <= |s| && forall i :: from <= i < to ==> IsDigit(s[i])
    ensures IsDigits(s[from..to])
  {
  }

  lemma DigitElsewhere(s: string, i: nat)
    requires IsVersion(s) && 0 <= i < |s| && i !in Points(s)
    ensures IsDigit(s[i])
  {
  }

  lemma DigitBefore(s: string, i: nat)
    requires IsVersion(s) && 0 < i < |s| && s[i] == '.'
    ensures IsDigit(s[i - 1])
  {
  }

  lemma GroupsOfVersion(s: string)
    requires IsVersion(s)
    ensures VersionText(s)
  {
    var points := Points(s);
    if points == {} {
      forall i | 0 <= i < |s| ensures IsDigit(s[i]) { DigitElsewhere(s, i); }
      assert VersionGroups(s, [s]);
    } else {
      var a :| a in points;
      if points == {a} {
        OnePoint(s, a);
      } else {
        assert points == {a} + (points - {a});
        var b :| b in points - {a};
        assert points == {a, b} by { TwoPoints(points, a, b); }
        ThreeGroups(s, if a < b then a else b, if a < b then b else a);
      }
    }
  }

  lemma TwoPoints(points: set<nat>, a: nat, b: nat)
    requires a in points && b in points && a != b && |points| <= 2
    ensures points == {a, b}
  {
    var rest := points - {a} - {b};
    assert points == {a, b} + rest && {a, b} !! rest;
  }

  lemma OnePoint(s: string, a: nat)
    requires IsVersion(s) && Points(s) == {a}
    ensures VersionText(s)
  {
    assert a in Points(s);
    forall i | 0 <= i < |s| && i != a ensures IsDigit(s[i]) { DigitElsewhere(s, i); }
    Group(s, 0, a);
    Group(s, a + 1, |s|);
    assert s == s[0..a] + ("." + s[a + 1..]) + "";
    assert VersionGroups(s, [s[0..a], s[a + 1..]]);
  }

  lemma ThreeGroups(s: string, a: nat, b: nat)
    requires IsVersion(s) && Points(s) == {a, b} && a < b
    ensures VersionText(s)
  {
    assert a in Points(s) && b in Points(s);
    forall i | 0 <= i < |s| && i != a && i != b ensures IsDigit(s[i]) { DigitElsewhere(s, i); }
    DigitBefore(s, b);
    Group(s, 0, a);
    Group(s, a + 1, b);
    Group(s, b + 1, |s|);
    assert s == s[0..a] + ("." + s[a + 1..b]) + ("." + s[b + 1..]);
    assert VersionGroups(s, [s[0..a], s[a + 1..b], s[b + 1..]]);
  }

  lemma VersionIff(s: string)
    ensures IsVersion(s) <==> VersionText(s)
  {
    hide IsVersion, VersionGroups;
    if IsVersion(s) { GroupsOfVersion(s); }
    if VersionText(s) {
      var groups :| VersionGroups(s, groups);
      PointsOfGroups(s, groups);
    }
  }

  /** What a valid envelope holds: every text trimmed, everything else as requested. */
  ghost predicate Envelope(q: Request, e: Request)
  {
    && TrimmedWord(q.capabilityId, e.capabilityId, 120) && TrimmedWord(q.operationId, e.operationId, 200)
    && e.version == Strip(q.version) && |e.version| <= 32 && VersionText(e.version)
    && (if q.sessionId.None? then e.sessionId.None?
        else e.sessionId.Some? && TrimmedWord(q.sessionId.value, e.sessionId.value, 200))
    && (if q.cancellationId.None? then e.cancellationId.None?
        else e.cancellationId.Some? && TrimmedWord(q.cancellationId.value, e.cancellationId.value, 200))
    && e.target.kind == q.target.kind && TrimmedText(q.target.identifier, e.target.identifier, 2048)
    && (if q.destination.None? then e.destination.None?
        else e.destination.Some? && TrimmedText(q.destination.value, e.destination.value, 2048))
    && PlainMapping(q.arguments, 32_768) && PlainMapping(q.scope, 4096)
    && 0 <= q.riskTier <= 3 && 1 <= q.timeoutSeconds <= 3600
    && 1 <= q.limits.maxInputChars && 1 <= q.limits.maxOutputBytes && 1 <= q.limits.maxItems
    && e == q.(capabilityId := e.capabilityId, operationId := e.operationId, version := e.version,
               sessionId := e.sessionId, cancellationId := e.cancellationId, target := e.target,
               destination := e.destination)
  }

  lemma TrimmedWordIff(value: string, maximum: nat, trimmed: string)
    ensures ValidateToken(value, maximum) == Some(trimmed) <==> TrimmedWord(value, trimmed, maximum)
  {
    hide Strip, IsToken, Word;
    WordIff(Strip(value));
  }

  lemma TrimmedTextIff(value: string, maximum: nat, trimmed: string)
    ensures ValidateText(value, maximum) == Some(trimmed) <==> TrimmedText(value, trimmed, maximum)
  {
    hide Strip;
  }

  lemma OptionalWordIff(value: Option<string>, maximum: nat, trimmed: Option<string>)
    ensures ValidateOptionalToken(value, maximum) == Some(trimmed) <==>
      if value.None? then trimmed.None? else trimmed.Some? && TrimmedWord(value.value, trimmed.value, maximum)
  {
    hide ValidateToken, TrimmedWord;
    if value.Some? {
      if trimmed.Some? { TrimmedWordIff(value.value, maximum, trimmed.value); }
      if ValidateToken(value.value, maximum).Some? {
        TrimmedWordIff(value.value, maximum, ValidateToken(value.value, maximum).value);
      }
    }
  }

  lemma OptionalTextIff(value: Option<string>, maximum: nat, trimmed: Option<string>)
    ensures ValidateOptionalText(value, maximum) == Some(trimmed) <==>
      if value.None? then trimmed.None? else trimmed.Some? && TrimmedText(value.value, trimmed.value, maximum)
  {
    hide ValidateText, TrimmedText;
    if value.Some? {
      if trimmed.Some? { TrimmedTextIff(value.value, maximum, trimmed.value); }
      if ValidateText(value.value, maximum).Some? {
        TrimmedTextIff(value.value, maximum, ValidateText(value.value, maximum).value);
      }
    }
  }

  /** The envelope of a request is that of its fields, each trimmed and within its limits. */
  lemma EnvelopeIff(q: Request, e: Request)
    ensures ValidateEnvelope(q) == Some(e) <==> Envelope(q, e)
  {
    hide ValidateToken, ValidateText, ValidateOptionalToken, ValidateOptionalText, MappingValid, PlainMapping;
    hide TrimmedWord, TrimmedText, IsVersion, VersionText, Strip;
    VersionIff(Strip(q.version));
    TrimmedWordIff(q.capabilityId, MAX_CAPABILITY_ID_LENGTH, e.capabilityId);
    TrimmedWordIff(q.operationId, MAX_ID_LENGTH, e.operationId);
    OptionalWordIff(q.sessionId, MAX_ID_LENGTH, e.sessionId);
    OptionalWordIff(q.cancellationId, MAX_ID_LENGTH, e.cancellationId);
    TrimmedTextIff(q.target.identifier, MAX_TARGET_IDENTIFIER_LENGTH, e.target.identifier);
    OptionalTextIff(q.destination, MAX_TARGET_IDENTIFIER_LENGTH, e.destination);
    PlainMappingIff(q.arguments, MAX_ARGUMENT_JSON_BYTES);
    PlainMappingIff(q.scope, MAX_PERMISSION_SCOPE_BYTES);
  }
}
