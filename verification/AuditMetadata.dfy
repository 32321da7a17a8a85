/** Sanitising of audit metadata (src/doll/audit.py): one bounded recursive pass, and the
    check that stored metadata must still pass it unchanged. */
module AuditMetadata {
  import opened Outcomes
  import opened Json
  import opened Texts

  const MAX_METADATA_DEPTH := 6
  const MAX_METADATA_ITEMS := 256
  const MAX_METADATA_BYTES := 8192

  /** A Python value handed to the sanitiser. A dictionary is its entries in iteration
      order; a key that is not text is `None`; `Unsupported` is anything that is not JSON. */
  datatype Value =
    | NullValue
    | BoolValue(truth: bool)
    | IntValue(number: int)
    | FloatValue(repr: string, finite: bool)
    | TextValue(text: string)
    | ListValue(items: seq<Value>)
    | DictValue(entries: seq<Entry>)
    | Unsupported
  datatype Entry = Entry(key: Option<string>, value: Value)

  /** The leaf text sanitiser and the test that a key is neither secret-like nor private. */
  datatype Rules = Rules(clean: string -> string, keyAllowed: string -> bool)

  // ----- the pass as a function ------------------------------------------------------------

  /** The key as stored, or `None` when the entry is refused. */
  function SafeKey(key: Option<string>, rules: Rules): Option<string>
  {
    if key.None? then None
    else
      var s := Strip(key.value);
      if s == "" || !rules.keyAllowed(s) then None else Some(s)
  }

  /** What the pass makes of a value at a depth, leaving the item budget aside. */
  function Sanitize(v: Value, depth: nat, rules: Rules): Option<Json>
    decreases v, 1, 0
  {
    if depth > MAX_METADATA_DEPTH then None
    else
      match v
      case NullValue => Some(Null)
      case BoolValue(b) => Some(Bool(b))
      case IntValue(n) => Some(Int(n))
      case FloatValue(r, finite) => if finite then Some(Float(r)) else None
      case TextValue(s) => Some(Str(rules.clean(s)))
      case ListValue(xs) =>
        var items := SanitizeItems(v, |xs|, depth + 1, rules);
        if items.None? then None else Some(Arr(items.value))
      case DictValue(es) =>
        var fields := SanitizeEntries(v, |es|, depth + 1, rules);
        if fields.None? then None else Some(Obj(fields.value))
      case Unsupported => None
  }

  /** The first `n` items of a list. */
  function SanitizeItems(v: Value, n: nat, depth: nat, rules: Rules): (r: Option<seq<Json>>)
    requires v.ListValue? && n <= |v.items|
    ensures r.Some? ==> |r.value| == n
    decreases v, 0, n
  {
    if n == 0 then Some([])
    else
      var front := SanitizeItems(v, n - 1, depth, rules);
      var last := Sanitize(v.items[n - 1], depth, rules);
      if front.None? || last.None? then None else Some(front.value + [last.value])
  }

  /** The first `n` entries of a dictionary; a later entry with the same trimmed key
      replaces an earlier one. */
  function SanitizeEntries(v: Value, n: nat, depth: nat, rules: Rules): Option<map<string, Json>>
    requires v.DictValue? && n <= |v.entries|
    decreases v, 0, n
  {
    if n == 0 then Some(map[])
    else
      var front := SanitizeEntries(v, n - 1, depth, rules);
      var key := SafeKey(v.entries[n - 1].key, rules);
      var last := Sanitize(v.entries[n - 1].value, depth, rules);
      if front.None? || key.None? || last.None? then None else Some(front.value[key.value := last.value])
  }

  /** List items and dictionary entries, nested ones included. */
  function Items(v: Value): nat
    decreases v, 1, 0
  {
    match v
    case ListValue(xs) => ItemsIn(v, |xs|)
    case DictValue(es) => ItemsIn(v, |es|)
    case _ => 0
  }

  function Size(v: Value): nat
  {
    match v
    case ListValue(xs) => |xs|
    case DictValue(es) => |es|
    case _ => 0
  }

  function ItemsIn(v: Value, n: nat): nat
    requires n <= Size(v)
    decreases v, 0, n
  {
    if n == 0 then 0 else ItemsIn(v, n - 1) + 1 + Items(if v.ListValue? then v.items[n - 1] else v.entries[n - 1].value)
  }

  lemma {:induction false} ItemsGrow(v: Value, i: nat, n: nat)
    requires i <= n <= Size(v)
    ensures ItemsIn(v, i) <= ItemsIn(v, n)
    decreases n
  {
    if i < n {
      ItemsGrow(v, i, n - 1);
    }
  }

  /** The pass with its budget of items: what the write path accepts. */
  function SanitizeMetadata(v: Value, rules: Rules): Option<Json>
  {
    if Items(v) <= MAX_METADATA_ITEMS then Sanitize(v, 0, rules) else None
  }

  // ----- the pass as the program runs it ---------------------------------------------------------

  class MetadataState {
    var itemsSeen: nat

    constructor ()
      ensures itemsSeen == 0
    {
      itemsSeen := 0;
    }

    /** `_consume_metadata_item`. */
    method Consume() returns (ok: bool)
      modifies this
      ensures ok <==> old(itemsSeen) < MAX_METADATA_ITEMS
      ensures itemsSeen == old(itemsSeen) + (if ok then 1 else 0)
    {
      if itemsSeen >= MAX_METADATA_ITEMS { return false; }
      itemsSeen := itemsSeen + 1;
      return true;
    }
  }

  /** The recursive pass with its running counter. It succeeds exactly when the value is
      acceptable and all its items still fit in the budget. */
  method SanitizeValue(v: Value, depth: nat, rules: Rules, state: MetadataState) returns (r: Option<Json>)
    requires state.itemsSeen <= MAX_METADATA_ITEMS
    modifies state
    ensures state.itemsSeen <= MAX_METADATA_ITEMS
    ensures r.Some? <==> Sanitize(v, depth, rules).Some? && old(state.itemsSeen) + Items(v) <= MAX_METADATA_ITEMS
    ensures r.Some? ==> r == Sanitize(v, depth, rules) && state.itemsSeen == old(state.itemsSeen) + Items(v)
    decreases v, 1
  {
    if depth > MAX_METADATA_DEPTH { return None; }
    match v
    case NullValue => return Some(Null);
    case BoolValue(b) => return Some(Bool(b));
    case IntValue(n) => return Some(Int(n));
    case FloatValue(repr, finite) => if finite { return Some(Float(repr)); } else { return None; }
    case TextValue(s) => return Some(Str(rules.clean(s)));
    case ListValue(xs) => r := SanitizeList(v, depth, rules, state);
    case DictValue(es) => r := SanitizeDict(v, depth, rules, state);
    case Unsupported => return None;
  }

  lemma {:induction false} ItemsFail(v: Value, n: nat, depth: nat, rules: Rules)
    requires v.ListValue? && n <= |v.items| && SanitizeItems(v, n, depth, rules).None?
    ensures SanitizeItems(v, |v.items|, depth, rules).None?
    decreases |v.items| - n
  {
    if n < |v.items| {
      ItemsFail(v, n + 1, depth, rules);
    }
  }

  lemma {:induction false} EntriesFail(v: Value, n: nat, depth: nat, rules: Rules)
    requires v.DictValue? && n <= |v.entries| && SanitizeEntries(v, n, depth, rules).None?
    ensures SanitizeEntries(v, |v.entries|, depth, rules).None?
    decreases |v.entries| - n
  {
    hide Sanitize, SafeKey;
    if n < |v.entries| {
      EntriesFail(v, n + 1, depth, rules);
    }
  }

  method SanitizeList(v: Value, depth: nat, rules: Rules, state: MetadataState) returns (r: Option<Json>)
    requires v.ListValue? && depth <= MAX_METADATA_DEPTH && state.itemsSeen <= MAX_METADATA_ITEMS
    modifies state
    ensures state.itemsSeen <= MAX_METADATA_ITEMS
    ensures r.Some? <==> Sanitize(v, depth, rules).Some? && old(state.itemsSeen) + Items(v) <= MAX_METADATA_ITEMS
    ensures r.Some? ==> r == Sanitize(v, depth, rules) && state.itemsSeen == old(state.itemsSeen) + Items(v)
    decreases v, 0
  {
    var result: seq<Json> := [];
    for i := 0 to |v.items|
      invariant state.itemsSeen == old(state.itemsSeen) + ItemsIn(v, i) && state.itemsSeen <= MAX_METADATA_ITEMS
      invariant SanitizeItems(v, i, depth + 1, rules) == Some(result)
    {
      ItemsGrow(v, i + 1, |v.items|);
      var ok := state.Consume();
      if !ok { return None; }
      var nested := SanitizeValue(v.items[i], depth + 1, rules, state);
      if nested.None? {
        if Sanitize(v.items[i], depth + 1, rules).None? { ItemsFail(v, i + 1, depth + 1, rules); }
        return None;
      }
      result := result + [nested.value];
    }
    return Some(Arr(result));
  }

  method SanitizeDict(v: Value, depth: nat, rules: Rules, state: MetadataState) returns (r: Option<Json>)
    requires v.DictValue? && depth <= MAX_METADATA_DEPTH && state.itemsSeen <= MAX_METADATA_ITEMS
    modifies state
    ensures state.itemsSeen <= MAX_METADATA_ITEMS
    ensures r.Some? <==> Sanitize(v, depth, rules).Some? && old(state.itemsSeen) + Items(v) <= MAX_METADATA_ITEMS
    ensures r.Some? ==> r == Sanitize(v, depth, rules) && state.itemsSeen == old(state.itemsSeen) + Items(v)
    decreases v, 0
  {
    hide SafeKey;
    var result: map<string, Json> := map[];
    for i := 0 to |v.entries|
      invariant state.itemsSeen == old(state.itemsSeen) + ItemsIn(v, i) && state.itemsSeen <= MAX_METADATA_ITEMS
      invariant SanitizeEntries(v, i, depth + 1, rules) == Some(result)
    {
      ItemsGrow(v, i + 1, |v.entries|);
      var ok := state.Consume();
      if !ok { return None; }
      var key := SafeKey(v.entries[i].key, rules);
      if key.None? {
        EntriesFail(v, i + 1, depth + 1, rules);
        return None;
      }
      var nested := SanitizeValue(v.entries[i].value, depth + 1, rules, state);
      if nested.None? {
        if Sanitize(v.entries[i].value, depth + 1, rules).None? { EntriesFail(v, i + 1, depth + 1, rules); }
        return None;
      }
      result := result[key.value := nested.value];
    }
    return Some(Obj(result));
  }

  /** `_sanitize_metadata`. */
  method SanitizeAll(metadata: Value, rules: Rules) returns (r: Option<Json>)
    ensures r == SanitizeMetadata(metadata, rules)
  {
    var state := new MetadataState();
    r := SanitizeValue(metadata, 0, rules, state);
  }

  // ----- JSON values as Python values -------------------------------------------------------------

  /** The JSON value that a Python value stands for, up to key order. */
  function ToJson(v: Value): Json
    decreases v, 1, 0
  {
    match v
    case NullValue => Null
    case BoolValue(b) => Bool(b)
    case IntValue(n) => Int(n)
    case FloatValue(r, _) => Float(r)
    case TextValue(s) => Str(s)
    case ListValue(xs) => Arr(ListJson(v, |xs|))
    case DictValue(es) => Obj(DictJson(v, |es|))
    case Unsupported => Null
  }

  function ListJson(v: Value, n: nat): (r: seq<Json>)
    requires v.ListValue? && n <= |v.items|
    ensures |r| == n
    decreases v, 0, n
  {
    if n == 0 then [] else ListJson(v, n - 1) + [ToJson(v.items[n - 1])]
  }

  function DictJson(v: Value, n: nat): map<string, Json>
    requires v.DictValue? && n <= |v.entries|
    decreases v, 0, n
  {
    if n == 0 then map[]
    else
      var e := v.entries[n - 1];
      if e.key.None? then DictJson(v, n - 1) else DictJson(v, n - 1)[e.key.value := ToJson(e.value)]
  }

  /** A value that the JSON loader can return: text keys, each once, and finite numbers. */
  ghost predicate Loaded(v: Value)
  {
    match v
    case FloatValue(_, finite) => finite
    case ListValue(xs) => forall i :: 0 <= i < |xs| ==> Loaded(xs[i])
    case DictValue(es) =>
      && (forall i :: 0 <= i < |es| ==> es[i].key.Some? && Loaded(es[i].value))
      && (forall i, j :: 0 <= i < j < |es| ==> es[i].key != es[j].key)
    case Unsupported => false
    case _ => true
  }

  // ----- what the pass leaves behind ----------------------------------------------------------------

  predicate KeySettled(k: string, rules: Rules)
  {
    k != "" && Strip(k) == k && rules.keyAllowed(k)
  }

  /** Nothing in the shape of the value is left to refuse. */
  ghost predicate Settled(j: Json, depth: nat, rules: Rules)
  {
    depth <= MAX_METADATA_DEPTH &&
    match j
    case Arr(xs) => forall i :: 0 <= i < |xs| ==> Settled(xs[i], depth + 1, rules)
    case Obj(m) => forall k :: k in m ==> KeySettled(k, rules) && Settled(m[k], depth + 1, rules)
    case _ => true
  }

  /** The leaf sanitiser leaves every text of the value as it is. */
  ghost predicate TextsFixed(j: Json, rules: Rules)
  {
    match j
    case Str(s) => rules.clean(s) == s
    case Arr(xs) => forall i :: 0 <= i < |xs| ==> TextsFixed(xs[i], rules)
    case Obj(m) => forall k :: k in m ==> TextsFixed(m[k], rules)
    case _ => true
  }

  lemma SafeKeySettled(key: Option<string>, rules: Rules)
    requires SafeKey(key, rules).Some?
    ensures KeySettled(SafeKey(key, rules).value, rules)
  {
    StripIdempotent(key.value);
  }

  lemma {:induction false} SanitizedIsSettled(v: Value, depth: nat, rules: Rules)
    requires Sanitize(v, depth, rules).Some?
    ensures Settled(Sanitize(v, depth, rules).value, depth, rules)
    decreases v, 1, 0
  {
    match v
    case ListValue(xs) => ItemsSettled(v, |xs|, depth + 1, rules);
    case DictValue(es) => EntriesSettled(v, |es|, depth + 1, rules);
    case _ =>
  }

  lemma {:induction false} ItemsSettled(v: Value, n: nat, depth: nat, rules: Rules)
    requires v.ListValue? && n <= |v.items| && SanitizeItems(v, n, depth, rules).Some?
    ensures
      var xs := SanitizeItems(v, n, depth, rules).value;
      forall i :: 0 <= i < |xs| ==> Settled(xs[i], depth, rules)
    decreases v, 0, n
  {
    if n > 0 {
      ItemsSettled(v, n - 1, depth, rules);
      SanitizedIsSettled(v.items[n - 1], depth, rules);
    }
  }

  lemma {:induction false} EntriesSettled(v: Value, n: nat, depth: nat, rules: Rules)
    requires v.DictValue? && n <= |v.entries| && SanitizeEntries(v, n, depth, rules).Some?
    ensures
      var m := SanitizeEntries(v, n, depth, rules).value;
      forall k :: k in m ==> KeySettled(k, rules) && Settled(m[k], depth, rules)
    decreases v, 0, n
  {
    hide SafeKey, KeySettled;
    if n > 0 {
      EntriesSettled(v, n - 1, depth, rules);
      SanitizedIsSettled(v.entries[n - 1].value, depth, rules);
      SafeKeySettled(v.entries[n - 1].key, rules);
    }
  }
}
