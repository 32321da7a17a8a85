/** The exact text that a confirmation hashes (src/doll/_confirmation_types.py). */
module ConfirmationText {
  import opened Outcomes
  import opened Json
  import opened JsonText
  import opened Texts
  import opened Capabilities
  import opened Preflight
  import opened PreflightChecks
  import opened ConfirmationFingerprint

  // ----- names ----------------------------------------------------------------------------

  const ACTORS: set<(Actor, string)> := {
    (SystemActor, "system"), (UserActor, "user"), (Retriever, "retriever"), (Extractor, "extractor"),
    (Importer, "importer"), (ToolActor, "tool"), (RuntimeActor, "runtime"), (ModelActor, "model"),
    (UnknownActor, "unknown") }

  const ORIGINS: set<(Origin, string)> := {
    (SystemPolicy, "system_policy"), (CurrentUserInstruction, "current_user_instruction"),
    (DurableUserPolicy, "durable_user_policy"), (UserManagementAction, "user_management_action"),
    (ExternalContent, "external_content"), (ImportedData, "imported_data"), (ToolResult, "tool_result"),
    (RuntimeOutput, "runtime_output"), (ModelProposal, "model_proposal"), (UnknownOrigin, "unknown") }

  const TARGETS: set<(TargetKind, string)> := {
    (ProvidedData, "provided_data"), (StateRecord, "state_record"), (ManagedArtifact, "managed_artifact"),
    (Url, "url") }

  const EFFECTS: set<(SideEffect, string)> := {
    (ReadState, "read_state"), (CreateManagedArtifact, "create_managed_artifact"), (NetworkRead, "network_read"),
    (ProcessExecution, "process_execution") }

  lemma NamesAre(a: Actor, o: Origin, t: TargetKind, e: SideEffect)
    ensures (a, ActorName(a)) in ACTORS && (o, OriginName(o)) in ORIGINS
    ensures (t, TargetKindName(t)) in TARGETS && (e, EffectName(e)) in EFFECTS
  {
  }

  // ----- records ----------------------------------------------------------------------------

  /** The fields are those of the record in another order. */
  lemma RecordConsists(
    keys: seq<string>, values: seq<Json>, fields: seq<Field>, order: seq<nat>, place: seq<nat>)
    requires |keys| == |values| == |fields| == |order| == |place| && Distinct(keys)
    requires forall j :: 0 <= j < |order| ==> order[j] < |keys| && fields[j] == (keys[order[j]], values[order[j]])
    requires forall i :: 0 <= i < |place| ==> place[i] < |order| && order[place[i]] == i
    ensures Consists(Record(keys, values), fields)
  {
    hide Record, Distinct;
    var m := Record(keys, values);
    forall f | f in fields ensures f.0 in m && m[f.0] == f.1 {
      var j :| 0 <= j < |fields| && fields[j] == f;
      RecordLookup(keys, values, order[j]);
    }
    forall k | k in m ensures exists f :: f in fields && f.0 == k {
      var i := RecordKey(keys, values, k);
      assert fields[place[i]] in fields && fields[place[i]].0 == k;
    }
  }

  lemma {:induction false} RecordKey(keys: seq<string>, values: seq<Json>, k: string) returns (i: nat)
    requires |keys| == |values| && k in Record(keys, values)
    ensures i < |keys| && keys[i] == k
    decreases |keys|
  {
    var n := |keys| - 1;
    if k == keys[n] {
      i := n;
    } else {
      i := RecordKey(keys[..n], values[..n], k);
    }
  }

  // ----- target and limits -------------------------------------------------------------------

  lemma TargetText(t: Target)
    ensures Text(Obj(Record(TARGET_KEYS, TargetValues(t))))
      == "{" + FieldsText([("identifier", Str(t.identifier)), ("kind", Str(TargetKindName(t.kind)))]) + "}"
  {
    hide Text, FieldsText, AtOrBefore, Record, Consists, TargetKindName;
    var fields := [("identifier", Str(t.identifier)), ("kind", Str(TargetKindName(t.kind)))];
    KeysDistinct();
    RecordConsists(TARGET_KEYS, TargetValues(t), fields, [1, 0], [1, 0]);
    Precedes("identifier", "kind", 0);
    assert KeysOf(fields) == ["identifier", "kind"];
    CanonicalText(Record(TARGET_KEYS, TargetValues(t)), fields);
  }

  lemma LimitsText(l: ResourceLimits)
    ensures Text(Obj(Record(LIMIT_KEYS, LimitValues(l))))
      == "{" + FieldsText([("max_input_chars", Int(l.maxInputChars)), ("max_items", Int(l.maxItems)),
                           ("max_output_bytes", Int(l.maxOutputBytes))]) + "}"
  {
    hide Text, FieldsText, AtOrBefore, Record, Consists;
    var fields := [("max_input_chars", Int(l.maxInputChars)), ("max_items", Int(l.maxItems)),
                   ("max_output_bytes", Int(l.maxOutputBytes))];
    KeysDistinct();
    RecordConsists(LIMIT_KEYS, LimitValues(l), fields, [0, 2, 1], [0, 2, 1]);
    Precedes("max_input_chars", "max_items", 5);
    Precedes("max_items", "max_output_bytes", 4);
    assert KeysOf(fields) == ["max_input_chars", "max_items", "max_output_bytes"];
    CanonicalText(Record(LIMIT_KEYS, LimitValues(l)), fields);
  }

  // ----- the payload ------------------------------------------------------------------------------

  const PRINTED_KEYS := [
    "actor_type", "arguments", "cancellation_id", "capability_id", "capability_version", "credential_class",
    "destination", "operation_id", "origin_class", "permission_scope", "registry_fingerprint", "resource_limits",
    "risk_tier", "schema_version", "session_id", "side_effects", "target", "timeout_seconds"]

  /** What is printed under these keys. */
  function PrintedValues(b: Bound): (r: seq<Json>)
    ensures |r| == 18
  {
    [Str(ActorName(b.actor)), Obj(b.arguments), OptionalText(b.cancellationId), Str(b.capabilityId), Str(b.version),
     OptionalText(b.credentialClass), OptionalText(b.destination), Str(b.operationId), Str(OriginName(b.origin)),
     Obj(b.scope), Str(b.registryFingerprint), Obj(Record(LIMIT_KEYS, LimitValues(b.limits))), Int(b.riskTier),
     Int(1), OptionalText(b.sessionId), StringList(Sorted(EffectNames(b.sideEffects))),
     Obj(Record(TARGET_KEYS, TargetValues(b.target))), Int(b.timeoutSeconds)]
  }

  /** The fields of the payload in the order in which they are printed. */
  function PayloadFields(b: Bound): seq<Field>
  {
    seq(18, i requires 0 <= i < 18 => (PRINTED_KEYS[i], PrintedValues(b)[i]))
  }

  lemma PrintedKeys(b: Bound)
    ensures KeysOf(PayloadFields(b)) == PRINTED_KEYS
  {
    hide PrintedValues;
  }

  const ORDER: seq<nat> := [6, 8, 16, 2, 3, 17, 10, 4, 7, 13, 1, 14, 12, 0, 5, 11, 9, 15]

  lemma SameKeys()
    ensures forall j :: 0 <= j < 18 ==> ORDER[j] < 18 && PRINTED_KEYS[j] == PAYLOAD_KEYS[ORDER[j]]
  {
  }

  lemma SameValues(b: Bound)
    ensures forall j :: 0 <= j < 18 ==> ORDER[j] < 18 && PrintedValues(b)[j] == PayloadValues(b)[ORDER[j]]
  {
    hide Record, OptionalText, StringList, Sorted, ActorName, OriginName, EffectNames;
  }

  lemma FirstHalfInOrder()
    ensures forall i :: 0 <= i < 9 ==>
      PRINTED_KEYS[i] != PRINTED_KEYS[i + 1] && AtOrBefore(PRINTED_KEYS[i], PRINTED_KEYS[i + 1])
  {
    hide AtOrBefore;
    Precedes("actor_type", "arguments", 1);
    Precedes("arguments", "cancellation_id", 0);
    Precedes("cancellation_id", "capability_id", 2);
    Precedes("capability_id", "capability_version", 11);
    Precedes("capability_version", "credential_class", 1);
    Precedes("credential_class", "destination", 0);
    Precedes("destination", "operation_id", 0);
    Precedes("operation_id", "origin_class", 1);
    Precedes("origin_class", "permission_scope", 0);
  }

  lemma SecondHalfInOrder()
    ensures forall i :: 9 <= i < 17 ==>
      PRINTED_KEYS[i] != PRINTED_KEYS[i + 1] && AtOrBefore(PRINTED_KEYS[i], PRINTED_KEYS[i + 1])
  {
    hide AtOrBefore;
    Precedes("permission_scope", "registry_fingerprint", 0);
    Precedes("registry_fingerprint", "resource_limits", 2);
    Precedes("resource_limits", "risk_tier", 1);
    Precedes("risk_tier", "schema_version", 0);
    Precedes("schema_version", "session_id", 1);
    Precedes("session_id", "side_effects", 1);
    Precedes("side_effects", "target", 0);
    Precedes("target", "timeout_seconds", 1);
  }

  lemma PayloadConsists(b: Bound)
    ensures Consists(Record(PAYLOAD_KEYS, PayloadValues(b)), PayloadFields(b))
  {
    hide Record, PrintedValues, PayloadValues, Consists;
    KeysDistinct();
    SameKeys();
    SameValues(b);
    RecordConsists(PAYLOAD_KEYS, PayloadValues(b), PayloadFields(b), ORDER,
                   [13, 10, 3, 4, 7, 14, 0, 8, 1, 16, 6, 15, 12, 9, 11, 17, 2, 5]);
  }

  lemma PrintedInOrder()
    ensures InOrder(PRINTED_KEYS)
  {
    hide AtOrBefore;
    FirstHalfInOrder();
    SecondHalfInOrder();
  }

  /** What is hashed: the eighteen bound fields, printed in this order under these keys. */
  lemma FingerprintText(b: Bound, sha256: Bytes -> string)
    ensures Fingerprint(b, sha256) == "sha256:" + sha256(Utf8("{" + FieldsText(PayloadFields(b)) + "}"))
  {
    hide Text, FieldsText, Record, Consists, PayloadFields, PayloadValues, Utf8, InOrder, KeysOf;
    PayloadConsists(b);
    PrintedKeys(b);
    PrintedInOrder();
    SomeFields(b);
    CanonicalText(Record(PAYLOAD_KEYS, PayloadValues(b)), PayloadFields(b));
  }

  lemma SomeFields(b: Bound)
    ensures PayloadFields(b) != []
  {
    hide PrintedValues;
  }

  // ----- what may be bound --------------------------------------------------------------------------

  /** A value that holds no float, and no text or key that looks like a secret. */
  predicate Harmless(at: (nat, Json), clean: string -> bool)
  {
    && !at.1.Float? && (at.1.Str? ==> clean(at.1.text))
    && (at.1.Obj? ==> forall k :: k in at.1.fields ==> clean(k))
  }

  predicate AllHarmless(values: seq<(nat, Json)>, clean: string -> bool)
  {
    forall at :: at in values ==> Harmless(at, clean)
  }

  lemma {:induction false} HarmlessIff(v: Json, depth: nat, clean: string -> bool)
    ensures SecretFree(v, clean) && CanonicalValue(v).Some? <==> AllHarmless(Inside(v, depth), clean)
    decreases v, 1, 0
  {
    hide Sorted, InsideFields, InsideItems;
    assert (depth, v) in Inside(v, depth);
    match v
    case Obj(m) =>
      SortedProperties(m.Keys);
      HarmlessFields(v, Sorted(m.Keys), depth + 1, clean);
      assert Inside(v, depth) == [(depth, v)] + InsideFields(v, Sorted(m.Keys), depth + 1);
    case Arr(xs) =>
      HarmlessItems(xs, depth + 1, clean);
      assert Inside(v, depth) == [(depth, v)] + InsideItems(xs, depth + 1);
    case _ =>
      assert Inside(v, depth) == [(depth, v)];
  }

  lemma {:induction false} HarmlessFields(o: Json, keys: seq<string>, depth: nat, clean: string -> bool)
    requires o.Obj? && forall k :: k in keys ==> k in o.fields
    ensures (forall k :: k in keys ==> SecretFree(o.fields[k], clean) && CanonicalValue(o.fields[k]).Some?)
      <==> AllHarmless(InsideFields(o, keys, depth), clean)
    decreases o, 0, |keys|
  {
    hide SecretFree, CanonicalValue, Inside, Harmless;
    if keys != [] {
      HarmlessIff(o.fields[keys[0]], depth, clean);
      HarmlessFields(o, keys[1..], depth, clean);
      assert keys == [keys[0]] + keys[1..];
    }
  }

  lemma {:induction false} HarmlessItems(xs: seq<Json>, depth: nat, clean: string -> bool)
    ensures (forall i :: 0 <= i < |xs| ==> SecretFree(xs[i], clean) && CanonicalValue(xs[i]).Some?)
      <==> AllHarmless(InsideItems(xs, depth), clean)
    decreases xs, 0, 0
  {
    hide SecretFree, CanonicalValue, Inside, Harmless;
    if xs != [] {
      HarmlessIff(xs[0], depth, clean);
      HarmlessItems(xs[1..], depth, clean);
      assert xs == [xs[0]] + xs[1..];
    }
  }

  /** `sha256:` and 64 lower-case hexadecimal digits. */
  predicate HashText(s: string)
  {
    |s| == 71 && "sha256:" <= s && forall i :: 7 <= i < |s| ==> JsonReader.HexValue(s[i]) >= 0
  }

  lemma HashTextIff(s: string)
    ensures IsFingerprint(s) <==> HashText(s)
  {
    if |s| == 71 { assert s[..7] == "sha256:" <==> "sha256:" <= s; }
  }

  /** The envelope of a request with these bound fields: nothing in it is harmful, the registry is
      named by a hash, and the credential class, if any, is a word. */
  ghost predicate Binds(
    request: Request, fingerprint: string, destination: Option<string>, credential: Option<string>,
    clean: string -> bool, e: Request, b: Bound)
  {
    && Envelope(request, e) && HashText(fingerprint)
    && AllHarmless(Inside(Obj(e.arguments), 0), clean) && AllHarmless(Inside(Obj(e.scope), 0), clean)
    && (if credential.None? then b.credentialClass.None?
        else b.credentialClass.Some? && TrimmedWord(credential.value, b.credentialClass.value, 120))
    && b.registryFingerprint == fingerprint && b.destination == destination
    && b.capabilityId == e.capabilityId && b.version == e.version && b.operationId == e.operationId
    && b.sessionId == e.sessionId && b.actor == e.actor && b.origin == e.origin && b.arguments == e.arguments
    && b.target == e.target && b.sideEffects == e.sideEffects && b.riskTier == e.riskTier && b.scope == e.scope
    && b.limits == e.limits && b.timeoutSeconds == e.timeoutSeconds && b.cancellationId == e.cancellationId
  }

  /** What a confirmation binds is decided by the request's envelope alone. */
  lemma BindIff(
    request: Request, fingerprint: string, destination: Option<string>, credential: Option<string>,
    clean: string -> bool, b: Bound)
    ensures Bind(request, fingerprint, destination, credential, clean) == Some(b) <==>
      exists e :: Binds(request, fingerprint, destination, credential, clean, e, b)
  {
    hide ValidateEnvelope, ValidateOptionalToken, IsFingerprint, HashText, SecretFree, CanonicalValue, AllHarmless;
    hide Inside, Envelope, TrimmedWord;
    HashTextIff(fingerprint);
    if ValidateEnvelope(request).Some? {
      var e := ValidateEnvelope(request).value;
      BindsWith(request, fingerprint, destination, credential, clean, e, b);
    }
    forall e ensures Envelope(request, e) <==> ValidateEnvelope(request) == Some(e) { EnvelopeIff(request, e); }
  }

  lemma BindsWith(
    request: Request, fingerprint: string, destination: Option<string>, credential: Option<string>,
    clean: string -> bool, e: Request, b: Bound)
    requires ValidateEnvelope(request) == Some(e)
    ensures Bind(request, fingerprint, destination, credential, clean) == Some(b) <==>
      Binds(request, fingerprint, destination, credential, clean, e, b)
  {
    hide ValidateEnvelope, ValidateOptionalToken, IsFingerprint, HashText, SecretFree, CanonicalValue, AllHarmless;
    hide Inside, Envelope, TrimmedWord;
    HashTextIff(fingerprint);
    EnvelopeIff(request, e);
    HarmlessIff(Obj(e.arguments), 0, clean);
    HarmlessIff(Obj(e.scope), 0, clean);
    OptionalWordIff(credential, MAX_CREDENTIAL_CLASS_LENGTH, b.credentialClass);
    if CanonicalValue(Obj(e.arguments)).Some? { CanonicalIsCopy(Obj(e.arguments)); }
    if CanonicalValue(Obj(e.scope)).Some? { CanonicalIsCopy(Obj(e.scope)); }
  }
}
