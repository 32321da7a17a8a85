/** The Tier 3 binding check (src/doll/_confirmation_validation.py) against the preflight,
    and what an authorized decision guarantees. */
module ConfirmationBinding {
  import opened Outcomes
  import opened Json
  import opened Capabilities
  import opened Preflight
  import opened PreflightChecks

  datatype Binding = Binding(envelope: Request, definition: Definition, destination: Option<string>)

  /** The second implementation of the request checks, in its own order; `None` stands for
      a raised validation error. */
  function HighRiskBinding(request: Request, registry: Registry, env: Environment): Option<Binding>
  {
    var envelope := ValidateEnvelope(request);
    if envelope.None? || (envelope.value.capabilityId, envelope.value.version) !in registry then None
    else
      var q := envelope.value;
      var d := registry[(q.capabilityId, q.version)];
      if d.riskTier != HighRisk then None
      else if !d.released then None
      else if !ActorMatchesOrigin(q.actor, q.origin) || q.origin !in d.origins then None
      else if !ArgumentsMatch(d, q.arguments) then None
      else if !TargetMatches(d.target, q.target, env) then None
      else
        var destination := DestinationFor(d, q, env);
        if destination == Mismatch then None
        else if q.sideEffects != d.sideEffects then None
        else if q.riskTier != 3 then None
        else if !ResourceLimitsMatch(d.resources, q.limits) || !LimitsCoverRequest(q) then None
        else if !TimeoutMatches(d.resources, q.timeoutSeconds) then None
        else if !CancellationMatches(d, q.cancellationId) then None
        else
          var scope := PermissionScope(q.scope);
          if scope.None? || Get(scope.value, "kind") != Str(d.scopeKind) then None
          else if !BindingsMatch(d, q, destination.destination, scope.value, env) then None
          else Some(Binding(q, d, destination.destination))
  }

  lemma BindingIffNoEarlierFailure(request: Request, registry: Registry, env: Environment)
    requires ValidateEnvelope(request).Some?
    requires
      var q := ValidateEnvelope(request).value;
      (q.capabilityId, q.version) in registry
    ensures
      var q := ValidateEnvelope(request).value;
      var d := registry[(q.capabilityId, q.version)];
      && (HighRiskBinding(request, registry, env).Some? <==>
            FirstFailure(d, q, env) == Some(Tier3ConfirmationUnavailable))
      && (HighRiskBinding(request, registry, env).Some? ==>
            DestinationFor(d, q, env).Agreed?
            && HighRiskBinding(request, registry, env).value == Binding(q, d, DestinationFor(d, q, env).destination))
  {
    hide ValidateEnvelope, ArgumentsMatch, TargetMatches, DestinationFor, BindingsMatch, LimitsCoverRequest;
    hide PermissionScope, ResourceLimitsMatch, Get, TimeoutMatches, CancellationMatches, ActorMatchesOrigin;
  }

  lemma GrantIsNotTier3(d: Definition, q: Request, destination: Option<string>, env: Environment,
                        policy: NetworkPolicy, resolve: Resolver)
    requires d.network == ExplicitUrl ==> destination.Some?
    ensures Grant(d, q, destination, env, policy, resolve).reason != Tier3ConfirmationUnavailable
  {
    hide NetworkAllowed;
  }

  /** For every registry and request, preflight ends by asking for a Tier 3 confirmation
      exactly when the binding check succeeds; the binding is then the validated request,
      its registered definition and the destination that preflight computed. */
  lemma Tier3IffBinding(request: Request, registry: Registry, env: Environment, policy: NetworkPolicy,
      resolve: Resolver)
    requires ValidateEnvelope(request).Some?
    ensures
      var q := ValidateEnvelope(request).value;
      var binding := HighRiskBinding(request, registry, env);
      && (Decide(registry, q, env, policy, resolve).reason == Tier3ConfirmationUnavailable <==> binding.Some?)
      && (binding.Some? ==>
            && binding.value.envelope == q
            && (q.capabilityId, q.version) in registry
            && binding.value.definition == registry[(q.capabilityId, q.version)]
            && DestinationFor(binding.value.definition, q, env) == Agreed(binding.value.destination))
  {
    hide ValidateEnvelope, FirstFailure, DestinationFor, Grant, HighRiskBinding;
    var q := ValidateEnvelope(request).value;
    if (q.capabilityId, q.version) in registry {
      var d := registry[(q.capabilityId, q.version)];
      BindingIffNoEarlierFailure(request, registry, env);
      if FirstFailure(d, q, env).None? {
        PassedMeansAgreed(d, q, env);
        GrantIsNotTier3(d, q, DestinationFor(d, q, env).destination, env, policy, resolve);
      }
      assert HasVersions(registry, q.capabilityId);
    } else {
      assert HighRiskBinding(request, registry, env).None? by { UnregisteredHasNoBinding(request, registry, env); }
    }
  }

  lemma UnregisteredHasNoBinding(request: Request, registry: Registry, env: Environment)
    requires ValidateEnvelope(request).Some?
    requires
      var q := ValidateEnvelope(request).value;
      (q.capabilityId, q.version) !in registry
    ensures HighRiskBinding(request, registry, env).None?
  {
    hide ValidateEnvelope;
  }

  // ----- what an authorization guarantees --------------------------------------------------------

  /** Every entry is the reviewed form of some definition, under its own key. */
  ghost predicate Constructible(registry: Registry, env: Environment)
  {
    forall k :: k in registry ==>
      k == KeyOf(registry[k]) && exists d :: ValidateDefinition(d, env) == Some(registry[k])
  }

  lemma BuiltIsConstructible(registry: Registry, definitions: seq<Definition>, env: Environment)
    requires Registers(registry, definitions, env)
    ensures Constructible(registry, env)
  {
    hide ValidateDefinition;
    forall k | k in registry
      ensures k == KeyOf(registry[k]) && exists d :: ValidateDefinition(d, env) == Some(registry[k])
    {
      assert Reviewed(registry[k], k, definitions, env);
      var i :| 0 <= i < |definitions| && ValidateDefinition(definitions[i], env) == Some(registry[k]);
    }
  }

  /** What review leaves true of a definition. */
  lemma ReviewedDefinition(original: Definition, env: Environment)
    requires ValidateDefinition(original, env).Some?
    ensures
      var d := ValidateDefinition(original, env).value;
      && (ProcessExecution in d.sideEffects ==> d.riskTier == HighRisk)
      && (NetworkRead in d.sideEffects <==> d.network == ExplicitUrl)
      && (d.binding != Unbound ==> d.scopeKind != "none")
  {
    hide ValidateToken, ValidateVersion, ArgumentsValid, ArgumentsDistinct, HasField, ResourcesValid;
    var d := ValidateDefinition(original, env).value;
    assert "none"[0] == 'n' && "record"[0] == 'r' && "project"[0] == 'p' && "destination"[0] == 'd';
  }

  lemma AgreedDestination(d: Definition, q: Request, env: Environment)
    requires DestinationFor(d, q, env).Agreed? && d.network == ExplicitUrl
    ensures DestinationFor(d, q, env).destination.Some?
    ensures AgreedUrl(q, DestinationFor(d, q, env).destination.value, env)
  {
    hide DestinationFor;
    AgreesIff(d, q, env, DestinationFor(d, q, env).destination);
  }

  lemma FailureDenies(d: Definition, q: Request, env: Environment)
    ensures FirstFailure(d, q, env) != Some(Authorized)
  {
    hide ArgumentsMatch, TargetMatches, DestinationFor, BindingsMatch, LimitsCoverRequest, ResourceLimitsMatch, Get;
  }

  lemma PassedChecks(d: Definition, q: Request, env: Environment)
    requires FirstFailure(d, q, env).None?
    ensures DestinationFor(d, q, env).Agreed?
    ensures q.sideEffects == d.sideEffects && d.riskTier != HighRisk && d.released
    ensures BindingsMatch(d, q, DestinationFor(d, q, env).destination, q.scope, env)
  {
    hide ArgumentsMatch, TargetMatches, DestinationFor, BindingsMatch, LimitsCoverRequest, ResourceLimitsMatch, Get;
  }

  lemma GrantedMeans(d: Definition, q: Request, destination: Option<string>, env: Environment,
                     policy: NetworkPolicy, resolve: Resolver)
    requires d.network == ExplicitUrl ==> destination.Some?
    requires Grant(d, q, destination, env, policy, resolve).reason == Authorized
    ensures Grant(d, q, destination, env, policy, resolve).destination == destination
    ensures d.network == ExplicitUrl ==> NetworkAllowed(policy, destination.value, env)
    ensures d.scopeKind != "none" ==>
      resolve(d.capabilityId, q.scope) == Some(AllowOnce) || resolve(d.capabilityId, q.scope) == Some(Scoped)
  {
    hide NetworkAllowed;
  }

  /** For every constructible registry, an authorized decision never carries process
      execution; it carries network read only to a destination on which target, argument and
      declared destination agree, with an enabled policy, an allowed scheme and a host that is
      not private and is listed or lies below a listed one; and for a bound capability the
      resolver allowed a scope that names the target. */
  lemma AuthorizedIsSafe(registry: Registry, q: Request, env: Environment, policy: NetworkPolicy, resolve: Resolver)
    requires Constructible(registry, env)
    requires Decide(registry, q, env, policy, resolve).reason == Authorized
    ensures (q.capabilityId, q.version) in registry
    ensures
      var d := registry[(q.capabilityId, q.version)];
      var decision := Decide(registry, q, env, policy, resolve);
      && q.sideEffects == d.sideEffects && d.released
      && ProcessExecution !in q.sideEffects
      && (NetworkRead in q.sideEffects ==>
            && decision.destination.Some?
            && AgreedUrl(q, decision.destination.value, env)
            && policy.enabled && env.schemeOf(decision.destination.value) in policy.allowedSchemes
            && env.hostOf(decision.destination.value).Some?
            && var host := env.hostOf(decision.destination.value).value;
            && !env.isPrivateHost(host)
            && (|| policy.allowedHosts == {}
                || host in policy.allowedHosts
                || (policy.allowSubdomains &&
                    exists h, front :: h in policy.allowedHosts && host == front + "." + h)))
      && (NetworkRead !in q.sideEffects ==> decision.destination.None?)
      && (d.binding != Unbound ==>
            && (resolve(q.capabilityId, q.scope) == Some(AllowOnce) || resolve(q.capabilityId, q.scope) == Some(Scoped))
            && Bound(d, q, decision.destination, env))
  {
    hide FirstFailure, Grant, DestinationFor, NetworkAllowed, ValidateDefinition, AgreedUrl, Bound;
    hide HasVersions, BindingsMatch;
    var d := registry[(q.capabilityId, q.version)];
    var original :| ValidateDefinition(original, env) == Some(d);
    ReviewedDefinition(original, env);
    assert d.capabilityId == q.capabilityId;
    FailureDenies(d, q, env);
    PassedChecks(d, q, env);
    PassedMeansAgreed(d, q, env);
    var destination := DestinationFor(d, q, env).destination;
    GrantedMeans(d, q, destination, env, policy, resolve);
    BoundIff(d, q, destination, env);
    if d.network == ExplicitUrl {
      AgreedDestination(d, q, env);
      MayReachIff(policy, destination.value, env);
    } else {
      NoNetworkNoDestination(d, q, env);
    }
  }

  lemma NoNetworkNoDestination(d: Definition, q: Request, env: Environment)
    requires DestinationFor(d, q, env).Agreed? && d.network == NoNetwork
    ensures DestinationFor(d, q, env).destination.None?
  {
  }
}
