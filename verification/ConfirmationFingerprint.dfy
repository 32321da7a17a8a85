/** The exact-operation fingerprint of a confirmation (src/doll/_confirmation_types.py):
    what is hashed is an unambiguous encoding of every bound field. */
module ConfirmationFingerprint {
  import opened Outcomes
  import opened Json
  import JsonReader
  import opened Texts
  import opened Capabilities
  import opened Preflight

  const MAX_CREDENTIAL_CLASS_LENGTH := 120

  // ----- names ----------------------------------------------------------------------

  function ActorName(a: Actor): string
  {
    match a
    case SystemActor => "system"
    case UserActor => "user"
    case Retriever => "retriever"
    case Extractor => "extractor"
    case Importer => "importer"
    case ToolActor => "tool"
    case RuntimeActor => "runtime"
    case ModelActor => "model"
    case UnknownActor => "unknown"
  }

  function OriginName(o: Origin): string
  {
    match o
    case SystemPolicy => "system_policy"
    case CurrentUserInstruction => "current_user_instruction"
    case DurableUserPolicy => "durable_user_policy"
    case UserManagementAction => "user_management_action"
    case ExternalContent => "external_content"
    case ImportedData => "imported_data"
    case ToolResult => "tool_result"
    case RuntimeOutput => "runtime_output"
    case ModelProposal => "model_proposal"
    case UnknownOrigin => "unknown"
  }

  function TargetKindName(k: TargetKind): string
  {
    match k
    case ProvidedData => "provided_data"
    case StateRecord => "state_record"
    case ManagedArtifact => "managed_artifact"
    case Url => "url"
  }

  function EffectName(e: SideEffect): string
  {
    match e
    case ReadState => "read_state"
    case CreateManagedArtifact => "create_managed_artifact"
    case NetworkRead => "network_read"
    case ProcessExecution => "process_execution"
  }

  lemma ActorNameInjective(a: Actor, b: Actor)
    requires ActorName(a) == ActorName(b)
    ensures a == b
  {
    var s, t := ActorName(a), ActorName(b);
    assert |s| == |t| && s[0] == t[0] && s[2] == t[2];
  }

  lemma OriginNameInjective(a: Origin, b: Origin)
    requires OriginName(a) == OriginName(b)
    ensures a == b
  {
    var s, t := OriginName(a), OriginName(b);
    assert |s| == |t| && s[0] == t[0] && s[3] == t[3];
  }

  lemma TargetKindNameInjective(a: TargetKind, b: TargetKind)
    requires TargetKindName(a) == TargetKindName(b)
    ensures a == b
  {
    assert TargetKindName(a)[0] == TargetKindName(b)[0];
  }

  lemma EffectNameInjective(a: SideEffect, b: SideEffect)
    requires EffectName(a) == EffectName(b)
    ensures a == b
  {
    assert EffectName(a)[0] == EffectName(b)[0];
  }

  // ----- records ----------------------------------------------------------------------

  /** The dictionary with these keys and values. */
  function Record(keys: seq<string>, values: seq<Json>): map<string, Json>
    requires |keys| == |values|
  {
    if keys == [] then map[]
    else
      var n := |keys| - 1;
      Record(keys[..n], values[..n])[keys[n] := values[n]]
  }

  lemma {:induction false} RecordLookup(keys: seq<string>, values: seq<Json>, i: nat)
    requires |keys| == |values| && Distinct(keys) && i < |keys|
    ensures keys[i] in Record(keys, values) && Record(keys, values)[keys[i]] == values[i]
    decreases |keys|
  {
    var n := |keys| - 1;
    if i < n {
      RecordLookup(keys[..n], values[..n], i);
    }
  }

  lemma {:induction false} RecordValues(keys: seq<string>, values: seq<Json>, k: string)
    requires |keys| == |values| && k in Record(keys, values)
    ensures Record(keys, values)[k] in values
  {
    var n := |keys| - 1;
    if k != keys[n] {
      RecordValues(keys[..n], values[..n], k);
      assert forall v :: v in values[..n] ==> v in values;
    }
  }

  /** Two records over the same keys are equal only when all their values are. */
  lemma RecordInjective(keys: seq<string>, values: seq<Json>, others: seq<Json>)
    requires |keys| == |values| == |others| && Distinct(keys)
    requires Record(keys, values) == Record(keys, others)
    ensures values == others
  {
    hide Record, Distinct;
    forall i | 0 <= i < |keys| ensures values[i] == others[i] {
      RecordLookup(keys, values, i);
      RecordLookup(keys, others, i);
    }
  }

  lemma RecordWellFormed(keys: seq<string>, values: seq<Json>)
    requires |keys| == |values| && forall v :: v in values ==> WellFormed(v)
    ensures WellFormed(Obj(Record(keys, values)))
  {
    hide Record;
    forall k | k in Record(keys, values) ensures WellFormed(Record(keys, values)[k]) {
      RecordValues(keys, values, k);
    }
  }

  // ----- canonical values ------------------------------------------------------------------

  /** `_canonical_value`: a copy with sorted keys; floats are refused. */
  function CanonicalValue(v: Json): Option<Json>
  {
    match v
    case Float(_) => None
    case Arr(xs) =>
      if forall i :: 0 <= i < |xs| ==> CanonicalValue(xs[i]).Some?
      then Some(Arr(seq(|xs|, i requires 0 <= i < |xs| => CanonicalValue(xs[i]).value)))
      else None
    case Obj(m) =>
      if forall k :: k in m ==> CanonicalValue(m[k]).Some?
      then Some(Obj(map k | k in m :: CanonicalValue(m[k]).value))
      else None
    case _ => Some(v)
  }

  /** A canonical copy is the value itself, up to key order. */
  lemma {:induction false} CanonicalIsCopy(v: Json)
    requires CanonicalValue(v).Some?
    ensures CanonicalValue(v).value == v && WellFormed(v)
  {
    match v
    case Arr(xs) =>
      forall i | 0 <= i < |xs| ensures CanonicalValue(xs[i]).value == xs[i] && WellFormed(xs[i]) {
        CanonicalIsCopy(xs[i]);
      }
      assert CanonicalValue(v).value.items == xs;
    case Obj(m) =>
      forall k | k in m ensures CanonicalValue(m[k]).value == m[k] && WellFormed(m[k]) {
        CanonicalIsCopy(m[k]);
      }
      assert CanonicalValue(v).value.fields == m;
    case _ =>
  }

  // ----- the payload --------------------------------------------------------------------------

  function OptionalText(s: Option<string>): Json
  {
    if s.None? then Null else Str(s.value)
  }

  function EffectNames(effects: set<SideEffect>): set<string>
  {
    set e | e in effects :: EffectName(e)
  }

  /** The fields that a confirmation binds. The raw destination is not among them: the
      normalized one is. */
  datatype Bound = Bound(
    registryFingerprint: string, capabilityId: string, version: string, operationId: string,
    sessionId: Option<string>, actor: Actor, origin: Origin, arguments: map<string, Json>,
    target: Target, destination: Option<string>, sideEffects: set<SideEffect>, riskTier: int,
    scope: map<string, Json>, limits: ResourceLimits, timeoutSeconds: int,
    cancellationId: Option<string>, credentialClass: Option<string>)

  function BoundOf(q: Request, registryFingerprint: string, destination: Option<string>,
      credentialClass: Option<string>): Bound
  {
    Bound(registryFingerprint, q.capabilityId, q.version, q.operationId, q.sessionId, q.actor,
          q.origin, q.arguments, q.target, destination, q.sideEffects, q.riskTier, q.scope, q.limits,
          q.timeoutSeconds, q.cancellationId, credentialClass)
  }

  const PAYLOAD_KEYS := [
    "schema_version", "registry_fingerprint", "capability_id", "capability_version", "operation_id",
    "session_id", "actor_type", "origin_class", "arguments", "target", "destination",
    "side_effects", "risk_tier", "permission_scope", "resource_limits", "timeout_seconds",
    "cancellation_id", "credential_class"]
  const TARGET_KEYS := ["kind", "identifier"]
  const LIMIT_KEYS := ["max_input_chars", "max_output_bytes", "max_items"]

  lemma KeysDistinct()
    ensures Distinct(PAYLOAD_KEYS) && Distinct(TARGET_KEYS) && Distinct(LIMIT_KEYS)
  {
    PayloadKeysDiffer();
  }

  /** The lengths of the keys separate all but a few of them. */
  lemma PayloadKeysDiffer()
    ensures Distinct(PAYLOAD_KEYS)
  {
    var lengths := [14, 20, 13, 18, 12, 10, 10, 12, 9, 6, 11, 12, 9, 16, 15, 15, 15, 16];
    assert forall i :: 0 <= i < 18 ==> |PAYLOAD_KEYS[i]| == lengths[i];
    assert PAYLOAD_KEYS[4][0] == 'o' && PAYLOAD_KEYS[4][1] == 'p' && PAYLOAD_KEYS[7][1] == 'r';
    assert PAYLOAD_KEYS[11][0] == 's';
    assert PAYLOAD_KEYS[5][0] == 's' && PAYLOAD_KEYS[6][0] == 'a' && PAYLOAD_KEYS[7][0] == 'o';
    assert PAYLOAD_KEYS[8][0] == 'a' && PAYLOAD_KEYS[12][0] == 'r';
    assert PAYLOAD_KEYS[13][0] == 'p' && PAYLOAD_KEYS[17][0] == 'c';
    assert PAYLOAD_KEYS[14][0] == 'r' && PAYLOAD_KEYS[15][0] == 't' && PAYLOAD_KEYS[16][0] == 'c';
  }

  function TargetValues(t: Target): seq<Json>
  {
    [Str(TargetKindName(t.kind)), Str(t.identifier)]
  }

  function LimitValues(l: ResourceLimits): seq<Json>
  {
    [Int(l.maxInputChars), Int(l.maxOutputBytes), Int(l.maxItems)]
  }

  function PayloadValues(b: Bound): (r: seq<Json>)
    ensures |r| == |PAYLOAD_KEYS|
  {
    [ Int(1), Str(b.registryFingerprint), Str(b.capabilityId), Str(b.version), Str(b.operationId),
      OptionalText(b.sessionId), Str(ActorName(b.actor)), Str(OriginName(b.origin)), Obj(b.arguments),
      Obj(Record(TARGET_KEYS, TargetValues(b.target))), OptionalText(b.destination),
      StringList(Sorted(EffectNames(b.sideEffects))), Int(b.riskTier), Obj(b.scope),
      Obj(Record(LIMIT_KEYS, LimitValues(b.limits))), Int(b.timeoutSeconds),
      OptionalText(b.cancellationId), OptionalText(b.credentialClass) ]
  }

  function Payload(b: Bound): Json
  {
    Obj(Record(PAYLOAD_KEYS, PayloadValues(b)))
  }

  predicate IsHex(c: char) { '0' <= c <= '9' || 'a' <= c <= 'f' }

  /** `sha256:` and 64 hexadecimal digits. */
  predicate IsFingerprint(s: string)
  {
    |s| == 71 && s[..7] == "sha256:" && forall i :: 7 <= i < 71 ==> IsHex(s[i])
  }

  predicate SecretFree(v: Json, clean: string -> bool)
  {
    match v
    case Obj(m) => forall k :: k in m ==> clean(k) && SecretFree(m[k], clean)
    case Arr(xs) => forall i :: 0 <= i < |xs| ==> SecretFree(xs[i], clean)
    case Str(s) => clean(s)
    case _ => true
  }

  /** The bound fields of a request that may be confirmed; `None` stands for a raised
      error. `clean` says which texts hold nothing that looks like a secret. */
  function Bind(request: Request, registryFingerprint: string, destination: Option<string>,
                credentialClass: Option<string>, clean: string -> bool): Option<Bound>
  {
    var envelope := ValidateEnvelope(request);
    var credential := ValidateOptionalToken(credentialClass, MAX_CREDENTIAL_CLASS_LENGTH);
    if envelope.None? || !IsFingerprint(registryFingerprint) || credential.None? then None
    else
      var q := envelope.value;
      if !SecretFree(Obj(q.arguments), clean) || !SecretFree(Obj(q.scope), clean)
         || CanonicalValue(Obj(q.arguments)).None? || CanonicalValue(Obj(q.scope)).None?
      then None
      else
        CanonicalIsCopy(Obj(q.arguments));
        CanonicalIsCopy(Obj(q.scope));
        Some(BoundOf(q.(arguments := CanonicalValue(Obj(q.arguments)).value.fields,
                        scope := CanonicalValue(Obj(q.scope)).value.fields),
                     registryFingerprint, destination, credential.value))
  }

  /** The fingerprint of bound fields, for a given hash. */
  function Fingerprint(b: Bound, sha256: Bytes -> string): string
  {
    "sha256:" + sha256(Encode(Payload(b)))
  }

  // ----- unambiguity -------------------------------------------------------------------------------

  lemma OptionalTextInjective(s: Option<string>, t: Option<string>)
    requires OptionalText(s) == OptionalText(t)
    ensures s == t
  {
  }

  lemma StringListInjective(s: seq<string>, t: seq<string>)
    requires StringList(s) == StringList(t)
    ensures s == t
  {
    var xs, ys := StringList(s).items, StringList(t).items;
    forall i | 0 <= i < |s| ensures s[i] == t[i] {
      assert xs[i] == Str(s[i]) && ys[i] == Str(t[i]);
    }
  }

  lemma EffectNamesInjective(a: set<SideEffect>, b: set<SideEffect>)
    requires EffectNames(a) == EffectNames(b)
    ensures a == b
  {
    hide EffectName;
    forall e ensures e in a <==> e in b {
      if e in a {
        assert EffectName(e) in EffectNames(b);
        var f :| f in b && EffectName(f) == EffectName(e);
        EffectNameInjective(e, f);
      }
      if e in b {
        assert EffectName(e) in EffectNames(a);
        var f :| f in a && EffectName(f) == EffectName(e);
        EffectNameInjective(e, f);
      }
    }
  }

  lemma TargetInjective(s: Target, t: Target)
    requires Record(TARGET_KEYS, TargetValues(s)) == Record(TARGET_KEYS, TargetValues(t))
    ensures s == t
  {
    hide Record, TargetKindName;
    KeysDistinct();
    RecordInjective(TARGET_KEYS, TargetValues(s), TargetValues(t));
    assert TargetValues(s)[0] == TargetValues(t)[0] && TargetValues(s)[1] == TargetValues(t)[1];
    TargetKindNameInjective(s.kind, t.kind);
  }

  lemma LimitsInjective(s: ResourceLimits, t: ResourceLimits)
    requires Record(LIMIT_KEYS, LimitValues(s)) == Record(LIMIT_KEYS, LimitValues(t))
    ensures s == t
  {
    hide Record;
    KeysDistinct();
    RecordInjective(LIMIT_KEYS, LimitValues(s), LimitValues(t));
    assert LimitValues(s)[0] == LimitValues(t)[0] && LimitValues(s)[1] == LimitValues(t)[1];
    assert LimitValues(s)[2] == LimitValues(t)[2];
  }

  lemma ValuesInjective(a: Bound, b: Bound)
    requires PayloadValues(a) == PayloadValues(b)
    ensures a == b
  {
    hide Record, ActorName, OriginName, OptionalText, StringList, EffectNames, Sorted;
    var s, t := PayloadValues(a), PayloadValues(b);
    assert s[1] == t[1] && s[2] == t[2] && s[3] == t[3] && s[4] == t[4] && s[5] == t[5] && s[6] == t[6];
    assert s[7] == t[7] && s[8] == t[8] && s[9] == t[9] && s[10] == t[10] && s[11] == t[11] && s[12] == t[12];
    assert s[13] == t[13] && s[14] == t[14] && s[15] == t[15] && s[16] == t[16] && s[17] == t[17];
    OptionalTextInjective(a.sessionId, b.sessionId);
    OptionalTextInjective(a.destination, b.destination);
    OptionalTextInjective(a.cancellationId, b.cancellationId);
    OptionalTextInjective(a.credentialClass, b.credentialClass);
    ActorNameInjective(a.actor, b.actor);
    OriginNameInjective(a.origin, b.origin);
    TargetInjective(a.target, b.target);
    LimitsInjective(a.limits, b.limits);
    StringListInjective(Sorted(EffectNames(a.sideEffects)), Sorted(EffectNames(b.sideEffects)));
    SortedInjective(EffectNames(a.sideEffects), EffectNames(b.sideEffects));
    EffectNamesInjective(a.sideEffects, b.sideEffects);
  }

  lemma StringListWellFormed(texts: seq<string>)
    ensures WellFormed(StringList(texts))
  {
  }

  lemma PayloadWellFormed(b: Bound)
    requires WellFormed(Obj(b.arguments)) && WellFormed(Obj(b.scope))
    ensures WellFormed(Payload(b))
  {
    hide Record, ActorName, OriginName, StringList, EffectNames, Sorted, TargetKindName;
    RecordWellFormed(TARGET_KEYS, TargetValues(b.target));
    RecordWellFormed(LIMIT_KEYS, LimitValues(b.limits));
    StringListWellFormed(Sorted(EffectNames(b.sideEffects)));
    RecordWellFormed(PAYLOAD_KEYS, PayloadValues(b));
  }

  lemma BoundIsWellFormed(request: Request, registryFingerprint: string, destination: Option<string>,
                          credentialClass: Option<string>, clean: string -> bool)
    requires Bind(request, registryFingerprint, destination, credentialClass, clean).Some?
    ensures
      var b := Bind(request, registryFingerprint, destination, credentialClass, clean).value;
      && WellFormed(Obj(b.arguments)) && WellFormed(Obj(b.scope))
      && b == BoundOf(ValidateEnvelope(request).value, registryFingerprint, destination, b.credentialClass)
      && ValidateOptionalToken(credentialClass, MAX_CREDENTIAL_CLASS_LENGTH) == Some(b.credentialClass)
  {
    hide ValidateEnvelope, ValidateOptionalToken, IsFingerprint, SecretFree, CanonicalValue, WellFormed;
    var q := ValidateEnvelope(request).value;
    CanonicalIsCopy(Obj(q.arguments));
    CanonicalIsCopy(Obj(q.scope));
  }

  lemma PayloadInjective(a: Bound, b: Bound)
    requires Payload(a) == Payload(b)
    ensures a == b
  {
    hide Record, PayloadValues;
    KeysDistinct();
    RecordInjective(PAYLOAD_KEYS, PayloadValues(a), PayloadValues(b));
    ValuesInjective(a, b);
  }

  /** Two payloads on which the hash collides. */
  predicate Collide(b: Bound, b': Bound, sha256: Bytes -> string)
  {
    Encode(Payload(b)) != Encode(Payload(b')) && sha256(Encode(Payload(b))) == sha256(Encode(Payload(b')))
  }

  /** Two confirmable requests are hashed from the same bytes exactly when they agree on
      every bound field of their validated envelopes, the normalized destination, the
      registry fingerprint and the credential class; so they have the same fingerprint exactly
      then, or when the hash collides. */
  lemma FingerprintUnambiguous(
    request: Request, fingerprint: string, destination: Option<string>, credential: Option<string>,
    request': Request, fingerprint': string, destination': Option<string>, credential': Option<string>,
    clean: string -> bool, sha256: Bytes -> string)
    requires Bind(request, fingerprint, destination, credential, clean).Some?
    requires Bind(request', fingerprint', destination', credential', clean).Some?
    ensures
      var b := Bind(request, fingerprint, destination, credential, clean).value;
      var b' := Bind(request', fingerprint', destination', credential', clean).value;
      && (Encode(Payload(b)) == Encode(Payload(b')) <==> b == b')
      && (Fingerprint(b, sha256) == Fingerprint(b', sha256) <==> b == b' || Collide(b, b', sha256))
      && b == BoundOf(ValidateEnvelope(request).value, fingerprint, destination, b.credentialClass)
      && ValidateOptionalToken(credential, MAX_CREDENTIAL_CLASS_LENGTH) == Some(b.credentialClass)
      && b' == BoundOf(ValidateEnvelope(request').value, fingerprint', destination', b'.credentialClass)
      && ValidateOptionalToken(credential', MAX_CREDENTIAL_CLASS_LENGTH) == Some(b'.credentialClass)
  {
    hide Bind, Payload, Encode, WellFormed, ValidateEnvelope, ValidateOptionalToken;
    var b := Bind(request, fingerprint, destination, credential, clean).value;
    var b' := Bind(request', fingerprint', destination', credential', clean).value;
    BoundIsWellFormed(request, fingerprint, destination, credential, clean);
    BoundIsWellFormed(request', fingerprint', destination', credential', clean);
    PayloadWellFormed(b);
    PayloadWellFormed(b');
    if Encode(Payload(b)) == Encode(Payload(b')) {
      JsonReader.EncodeInjective(Payload(b), Payload(b'));
      PayloadInjective(b, b');
    }
    SameFingerprint(b, b', sha256);
  }

  lemma SameFingerprint(b: Bound, b': Bound, sha256: Bytes -> string)
    ensures Fingerprint(b, sha256) == Fingerprint(b', sha256)
      <==> sha256(Encode(Payload(b))) == sha256(Encode(Payload(b')))
  {
    hide Encode, Payload;
    if Fingerprint(b, sha256) == Fingerprint(b', sha256) {
      Cancel("sha256:", sha256(Encode(Payload(b))), "sha256:", sha256(Encode(Payload(b'))));
    }
  }
}
