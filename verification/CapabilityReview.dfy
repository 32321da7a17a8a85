/** What the review of a capability definition demands (src/doll/capabilities.py), field by field. */
module CapabilityReview {
  import opened Outcomes
  import opened Texts
  import opened Capabilities
  import opened PreflightChecks

  const FORBIDDEN: set<string> := {
    "argv", "command", "command_line", "executable", "permission", "permission_mode", "registry", "risk_tier", "shell" }

  predicate AtLeastOne(v: Option<int>)
  {
    v.None? || v.value > 0
  }

  /** An argument with a trimmed name that is not forbidden, and bounds that make sense and are there
      where its kind needs them. */
  predicate FitArgument(a: Argument, env: Environment, safe: Argument)
  {
    && TrimmedWord(a.name, safe.name, 80) && env.lower(safe.name) !in FORBIDDEN
    && AtLeastOne(a.maximumLength) && AtLeastOne(a.maximumItems)
    && (a.minimumInteger.Some? && a.maximumInteger.Some? ==> a.minimumInteger.value <= a.maximumInteger.value)
    && (a.kind == TextArgument ==> a.maximumLength.Some?)
    && (a.kind == StringListArgument ==> a.maximumLength.Some? && a.maximumItems.Some?)
    && safe == a.(name := safe.name)
  }

  lemma FitArgumentIff(a: Argument, env: Environment, safe: Argument)
    ensures ValidateArgument(a, env) == Some(safe) <==> FitArgument(a, env, safe)
  {
    hide ValidateToken, TrimmedWord;
    TrimmedWordIff(a.name, MAX_ARGUMENT_NAME_LENGTH, safe.name);
    assert PROHIBITED_ARGUMENT_NAMES == FORBIDDEN;
  }

  predicate HasArgument(args: seq<Argument>, name: string)
  {
    exists a :: a in args && a.name == name
  }

  /** The binding fits target, arguments and scope kind. */
  predicate FitBinding(d: Definition, args: seq<Argument>, scopeKind: string)
  {
    && (d.binding == Unbound ==> scopeKind == "none")
    && (d.binding == RecordIdentity ==>
          scopeKind == "record" && d.target.kind == StateRecord && HasArgument(args, "record_id"))
    && (d.binding == ProjectArtifact ==>
          && scopeKind == "project" && d.target.kind == ManagedArtifact
          && HasArgument(args, "project_id") && HasArgument(args, "name"))
    && (d.binding == DestinationHost ==>
          && scopeKind == "destination" && d.target.kind == Url && HasArgument(args, "url")
          && d.network == ExplicitUrl)
  }

  lemma FitBindingIff(d: Definition, args: seq<Argument>, scopeKind: string)
    ensures BindingContract(d, args, scopeKind) <==> FitBinding(d, args, scopeKind)
  {
    forall name ensures HasField(args, name) <==> HasArgument(args, name) {
      if HasField(args, name) {
        var i :| 0 <= i < |args| && args[i].name == name;
        assert args[i] in args;
      }
    }
  }

  /** A definition and its reviewed form. */
  ghost predicate Fit(d: Definition, env: Environment, safe: Definition)
  {
    && TrimmedWord(d.capabilityId, safe.capabilityId, 120) && !env.prohibitedId(env.lower(safe.capabilityId))
    && safe.version == Strip(d.version) && |safe.version| <= 32 && VersionText(safe.version)
    && TrimmedWord(d.scopeKind, safe.scopeKind, 80)
    && 1 <= |d.arguments| <= 32 && |safe.arguments| == |d.arguments|
    && (forall i :: 0 <= i < |d.arguments| ==> FitArgument(d.arguments[i], env, safe.arguments[i]))
    && (forall i, j :: 0 <= i < j < |safe.arguments| ==> safe.arguments[i].name != safe.arguments[j].name)
    && 1 <= d.target.maximumIdentifierLength <= 2048
    && (ProcessExecution in d.sideEffects ==> d.riskTier == HighRisk)
    && (NetworkRead in d.sideEffects <==> d.network == ExplicitUrl)
    && (d.network == ExplicitUrl ==> d.target.kind == Url)
    && FitBinding(d, safe.arguments, safe.scopeKind)
    && d.origins != {} && (forall o :: o in d.origins ==>
         o == SystemPolicy || o == CurrentUserInstruction || o == UserManagementAction || o == ModelProposal)
    && 1 <= d.resources.maxTimeoutSeconds <= 3600 && 1 <= d.resources.maxInputChars
    && 1 <= d.resources.maxOutputBytes && 1 <= d.resources.maxItems
    && safe == d.(capabilityId := safe.capabilityId, version := safe.version, arguments := safe.arguments,
                  scopeKind := safe.scopeKind)
  }

  lemma ArgumentsFitIff(d: Definition, env: Environment, args: seq<Argument>)
    ensures (ArgumentsValid(d.arguments, env) && args == ValidatedArguments(d.arguments, env)) <==>
      |args| == |d.arguments| && forall i :: 0 <= i < |args| ==> FitArgument(d.arguments[i], env, args[i])
  {
    hide ValidateArgument, FitArgument;
    if |args| == |d.arguments| {
      forall i | 0 <= i < |args|
        ensures FitArgument(d.arguments[i], env, args[i]) <==> ValidateArgument(d.arguments[i], env) == Some(args[i])
      {
        FitArgumentIff(d.arguments[i], env, args[i]);
      }
      if ArgumentsValid(d.arguments, env) && forall i :: 0 <= i < |args| ==> FitArgument(d.arguments[i], env, args[i]) {
        assert args == ValidatedArguments(d.arguments, env);
      }
    }
  }

  /** A definition passes review exactly when every field is fit, and only texts are trimmed. */
  lemma ReviewIff(d: Definition, env: Environment, safe: Definition)
    ensures ValidateDefinition(d, env) == Some(safe) <==> Fit(d, env, safe)
  {
    hide ValidateToken, TrimmedWord, IsVersion, VersionText, Strip, ArgumentsValid, ValidatedArguments, FitArgument;
    hide BindingContract, FitBinding;
    TrimmedWordIff(d.capabilityId, MAX_CAPABILITY_ID_LENGTH, safe.capabilityId);
    TrimmedWordIff(d.scopeKind, 80, safe.scopeKind);
    VersionIff(Strip(d.version));
    ArgumentsFitIff(d, env, safe.arguments);
    FitBindingIff(d, safe.arguments, safe.scopeKind);
    assert d.origins <= ALLOWED_ORIGINS <==> forall o :: o in d.origins ==>
      o == SystemPolicy || o == CurrentUserInstruction || o == UserManagementAction || o == ModelProposal;
  }
}
