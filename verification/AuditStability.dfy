/** A second sanitising pass over stored metadata never exceeds a bound, and changes
    nothing exactly when the leaf sanitiser leaves the stored texts alone. */
module AuditStability {
  import opened Outcomes
  import opened Json
  import opened Texts
  import opened AuditMetadata

  // ----- items of a JSON value -----------------------------------------------------------

  function JsonItems(j: Json): nat
    decreases j, 1, 0
  {
    match j
    case Arr(xs) => ListItems(xs)
    case Obj(m) => FieldItems(j, m.Keys)
    case _ => 0
  }

  function ListItems(xs: seq<Json>): nat
    decreases xs, 0, 0
  {
    if xs == [] then 0 else ListItems(xs[..|xs| - 1]) + 1 + JsonItems(xs[|xs| - 1])
  }

  function FieldItems(o: Json, keys: set<string>): nat
    requires o.Obj? && keys <= o.fields.Keys
    decreases o, 0, |keys|
  {
    if keys == {} then 0
    else
      var k := Least(keys);
      1 + JsonItems(o.fields[k]) + FieldItems(o, keys - {k})
  }

  lemma {:induction false} FieldExtract(o: Json, keys: set<string>, k: string)
    requires o.Obj? && keys <= o.fields.Keys && k in keys
    ensures FieldItems(o, keys) == 1 + JsonItems(o.fields[k]) + FieldItems(o, keys - {k})
    decreases |keys|
  {
    hide Least;
    var l := Least(keys);
    if l != k {
      FieldExtract(o, keys - {l}, k);
      FieldExtract(o, keys - {k}, l);
      assert keys - {l} - {k} == keys - {k} - {l};
    }
  }

  lemma {:induction false} FieldCongruent(o: Json, p: Json, keys: set<string>)
    requires o.Obj? && p.Obj? && keys <= o.fields.Keys && keys <= p.fields.Keys
    requires forall k :: k in keys ==> o.fields[k] == p.fields[k]
    ensures FieldItems(o, keys) == FieldItems(p, keys)
    decreases |keys|
  {
    hide Least;
    if keys != {} {
      FieldCongruent(o, p, keys - {Least(keys)});
    }
  }

  /** Setting a key adds at most one item and the items of the new value; exactly that
      when the key is new. */
  lemma FieldUpdate(m: map<string, Json>, k: string, x: Json)
    ensures JsonItems(Obj(m[k := x])) <= JsonItems(Obj(m)) + 1 + JsonItems(x)
    ensures k !in m ==> JsonItems(Obj(m[k := x])) == JsonItems(Obj(m)) + 1 + JsonItems(x)
  {
    hide Least;
    var o, p := Obj(m), Obj(m[k := x]);
    var rest := m.Keys - {k};
    assert p.fields.Keys == m.Keys + {k} && p.fields.Keys - {k} == rest;
    FieldExtract(p, p.fields.Keys, k);
    FieldCongruent(o, p, rest);
    if k in m {
      FieldExtract(o, m.Keys, k);
    } else {
      assert rest == m.Keys;
    }
  }

  // ----- the first pass does not add items ----------------------------------------------------

  lemma ListItemsSnoc(xs: seq<Json>, x: Json)
    ensures ListItems(xs + [x]) == ListItems(xs) + 1 + JsonItems(x)
  {
    assert (xs + [x])[..|xs|] == xs;
  }

  /** Merging trimmed keys only lowers the number of items. */
  lemma {:induction false} SanitizeKeepsItems(v: Value, depth: nat, rules: Rules)
    requires Sanitize(v, depth, rules).Some?
    ensures JsonItems(Sanitize(v, depth, rules).value) <= Items(v)
    decreases v, 1, 0
  {
    match v
    case ListValue(xs) => ListKeepsItems(v, |xs|, depth + 1, rules);
    case DictValue(es) => DictKeepsItems(v, |es|, depth + 1, rules);
    case _ =>
  }

  lemma {:induction false} ListKeepsItems(v: Value, n: nat, depth: nat, rules: Rules)
    requires v.ListValue? && n <= |v.items| && SanitizeItems(v, n, depth, rules).Some?
    ensures ListItems(SanitizeItems(v, n, depth, rules).value) <= ItemsIn(v, n)
    decreases v, 0, n
  {
    hide JsonItems;
    if n > 0 {
      ListKeepsItems(v, n - 1, depth, rules);
      SanitizeKeepsItems(v.items[n - 1], depth, rules);
      ListItemsSnoc(SanitizeItems(v, n - 1, depth, rules).value, Sanitize(v.items[n - 1], depth, rules).value);
    }
  }

  lemma {:induction false} DictKeepsItems(v: Value, n: nat, depth: nat, rules: Rules)
    requires v.DictValue? && n <= |v.entries| && SanitizeEntries(v, n, depth, rules).Some?
    ensures JsonItems(Obj(SanitizeEntries(v, n, depth, rules).value)) <= ItemsIn(v, n)
    decreases v, 0, n
  {
    hide JsonItems, SafeKey, SanitizeEntries, ItemsIn, Items, Sanitize;
    if n == 0 {
      NoEntries(v, depth, rules);
    } else {
      EntryParts(v, n, depth, rules);
      EntryStep(v, n, depth, rules, SafeKey(v.entries[n - 1].key, rules).value);
      DictKeepsItems(v, n - 1, depth, rules);
      SanitizeKeepsItems(v.entries[n - 1].value, depth, rules);
      FieldUpdate(SanitizeEntries(v, n - 1, depth, rules).value, SafeKey(v.entries[n - 1].key, rules).value,
                  Sanitize(v.entries[n - 1].value, depth, rules).value);
    }
  }

  /** A sanitised dictionary has every part sanitised. */
  lemma EntryParts(v: Value, n: nat, depth: nat, rules: Rules)
    requires v.DictValue? && 0 < n <= |v.entries| && SanitizeEntries(v, n, depth, rules).Some?
    ensures SanitizeEntries(v, n - 1, depth, rules).Some? && SafeKey(v.entries[n - 1].key, rules).Some?
    ensures Sanitize(v.entries[n - 1].value, depth, rules).Some?
  {
    hide SafeKey, Sanitize;
  }

  lemma EmptyObjectItems()
    ensures JsonItems(Obj(map[])) == 0
  {
  }

  // ----- the second pass ---------------------------------------------------------------------------

  /** A loaded value of settled shape is accepted, has as many items as its JSON form, and
      comes back unchanged exactly when its texts are fixed. */
  lemma {:induction false} SecondPass(v: Value, depth: nat, rules: Rules)
    requires Loaded(v) && Settled(ToJson(v), depth, rules)
    ensures Sanitize(v, depth, rules).Some?
    ensures Sanitize(v, depth, rules) == Some(ToJson(v)) <==> TextsFixed(ToJson(v), rules)
    ensures Items(v) == JsonItems(ToJson(v))
    decreases v, 1, 0
  {
    match v
    case ListValue(xs) => SecondPassOfList(v, depth, rules);
    case DictValue(es) => SecondPassOfDict(v, depth, rules);
    case _ =>
  }

  lemma {:induction false} SecondPassOfList(v: Value, depth: nat, rules: Rules)
    requires v.ListValue? && Loaded(v) && Settled(ToJson(v), depth, rules)
    ensures Sanitize(v, depth, rules).Some?
    ensures Sanitize(v, depth, rules) == Some(ToJson(v)) <==> TextsFixed(ToJson(v), rules)
    ensures Items(v) == JsonItems(ToJson(v))
    decreases v, 0, |v.items| + 1
  {
    hide Loaded, TextsFixed, ListFixed, SanitizeItems, ListJson, ItemsIn, ListItems;
    var xs := ListJson(v, |v.items|);
    assert ListSettled(xs, depth + 1, rules);
    SecondPassList(v, |v.items|, depth + 1, rules);
    TextsOfList(v, |v.items|, rules);
  }

  lemma {:induction false} SecondPassOfDict(v: Value, depth: nat, rules: Rules)
    requires v.DictValue? && Loaded(v) && Settled(ToJson(v), depth, rules)
    ensures Sanitize(v, depth, rules).Some?
    ensures Sanitize(v, depth, rules) == Some(ToJson(v)) <==> TextsFixed(ToJson(v), rules)
    ensures Items(v) == JsonItems(ToJson(v))
    decreases v, 0, |v.entries| + 1
  {
    hide Loaded, SanitizeEntries, DictJson, ItemsIn, FieldItems, TextsFixed, FieldsFixed, KeySettled;
    var m := DictJson(v, |v.entries|);
    assert FieldsSettled(m, depth + 1, rules);
    SecondPassDict(v, |v.entries|, depth + 1, rules);
    TextsOfObject(m, rules);
  }

  lemma TextsOfObject(m: map<string, Json>, rules: Rules)
    ensures TextsFixed(Obj(m), rules) <==> FieldsFixed(m, rules)
  {
  }

  ghost predicate ListSettled(xs: seq<Json>, depth: nat, rules: Rules)
  {
    forall i :: 0 <= i < |xs| ==> Settled(xs[i], depth, rules)
  }

  ghost predicate ListFixed(v: Value, n: nat, rules: Rules)
    requires v.ListValue? && n <= |v.items|
  {
    forall i :: 0 <= i < n ==> TextsFixed(ToJson(v.items[i]), rules)
  }

  lemma {:induction false} ListJsonAt(v: Value, n: nat, i: nat)
    requires v.ListValue? && i < n <= |v.items|
    ensures ListJson(v, n)[i] == ToJson(v.items[i])
    decreases n
  {
    if i < n - 1 {
      ListJsonAt(v, n - 1, i);
    }
  }

  lemma TextsOfList(v: Value, n: nat, rules: Rules)
    requires v.ListValue? && n == |v.items|
    ensures TextsFixed(ToJson(v), rules) <==> ListFixed(v, n, rules)
  {
    hide ListJson;
    forall i | 0 <= i < n ensures ListJson(v, n)[i] == ToJson(v.items[i]) {
      ListJsonAt(v, n, i);
    }
  }

  lemma {:induction false} SecondPassList(v: Value, n: nat, depth: nat, rules: Rules)
    requires v.ListValue? && n <= |v.items| && Loaded(v)
    requires ListSettled(ListJson(v, n), depth, rules)
    ensures SanitizeItems(v, n, depth, rules).Some?
    ensures SanitizeItems(v, n, depth, rules) == Some(ListJson(v, n)) <==> ListFixed(v, n, rules)
    ensures ItemsIn(v, n) == ListItems(ListJson(v, n))
    decreases v, 0, n
  {
    hide JsonItems, Settled, TextsFixed, Loaded, Sanitize, ToJson, ListSettled, ListFixed;
    hide SanitizeItems, ListJson, ItemsIn, ListItems;
    if n == 0 {
      NoItems(v, depth, rules);
    } else {
      ListSettledStep(v, n, depth, rules);
      LoadedItem(v, n - 1);
      SecondPassList(v, n - 1, depth, rules);
      SecondPass(v.items[n - 1], depth, rules);
      ItemStep(v, n, depth, rules);
      ListItemsSnoc(ListJson(v, n - 1), ToJson(v.items[n - 1]));
      SnocEqual(SanitizeItems(v, n - 1, depth, rules).value, ListJson(v, n - 1),
                Sanitize(v.items[n - 1], depth, rules).value, ToJson(v.items[n - 1]));
    }
  }

  lemma SnocEqual(a: seq<Json>, b: seq<Json>, x: Json, y: Json)
    requires |a| == |b|
    ensures a + [x] == b + [y] <==> a == b && x == y
  {
    if a + [x] == b + [y] {
      Cancel(a, [x], b, [y]);
      assert [x][0] == [y][0];
    }
  }

  lemma UpdateEqual(a: map<string, Json>, b: map<string, Json>, k: string, x: Json, y: Json)
    requires k !in a && k !in b
    ensures a[k := x] == b[k := y] <==> a == b && x == y
  {
    if a[k := x] == b[k := y] {
      assert a[k := x][k] == x && b[k := y][k] == y;
      assert a == a[k := x] - {k} && b == b[k := y] - {k};
    }
  }

  lemma {:induction false} DictJsonKeys(v: Value, n: nat, k: string)
    requires v.DictValue? && n <= |v.entries| && k in DictJson(v, n)
    ensures exists i :: 0 <= i < n && v.entries[i].key == Some(k)
  {
    if v.entries[n - 1].key != Some(k) {
      DictJsonKeys(v, n - 1, k);
    }
  }

  ghost predicate FieldsSettled(m: map<string, Json>, depth: nat, rules: Rules)
  {
    forall k :: k in m ==> KeySettled(k, rules) && Settled(m[k], depth, rules)
  }

  ghost predicate FieldsFixed(m: map<string, Json>, rules: Rules)
  {
    forall k :: k in m ==> TextsFixed(m[k], rules)
  }

  /** The three facts about a dictionary, one entry at a time. */
  lemma {:induction false} SecondPassDict(v: Value, n: nat, depth: nat, rules: Rules)
    requires v.DictValue? && n <= |v.entries| && Loaded(v) && FieldsSettled(DictJson(v, n), depth, rules)
    ensures SanitizeEntries(v, n, depth, rules).Some?
    ensures SanitizeEntries(v, n, depth, rules).value.Keys == DictJson(v, n).Keys
    ensures SanitizeEntries(v, n, depth, rules) == Some(DictJson(v, n)) <==> FieldsFixed(DictJson(v, n), rules)
    ensures ItemsIn(v, n) == JsonItems(Obj(DictJson(v, n)))
    decreases v, 0, n
  {
    hide JsonItems, KeySettled, Settled, TextsFixed, Loaded, Sanitize, FieldsSettled, FieldsFixed, ToJson;
    hide SanitizeEntries, DictJson, ItemsIn;
    if n == 0 {
      NoEntries(v, depth, rules);
    } else {
      var e := v.entries[n - 1];
      LoadedEntry(v, n - 1);
      var k, y := e.key.value, ToJson(e.value);
      DictJsonStep(v, n);
      SplitFields(DictJson(v, n - 1), k, y, depth, rules);
      SettledKey(k, rules);
      SecondPassDict(v, n - 1, depth, rules);
      SecondPass(e.value, depth, rules);
      EntryStep(v, n, depth, rules, k);
      FieldUpdate(DictJson(v, n - 1), k, y);
      UpdateEqual(SanitizeEntries(v, n - 1, depth, rules).value, DictJson(v, n - 1), k,
                  Sanitize(e.value, depth, rules).value, y);
    }
  }

  lemma NoEntries(v: Value, depth: nat, rules: Rules)
    requires v.DictValue?
    ensures SanitizeEntries(v, 0, depth, rules) == Some(map[]) && DictJson(v, 0) == map[] && ItemsIn(v, 0) == 0
    ensures FieldsFixed(map[], rules) && JsonItems(Obj(map[])) == 0
  {
    hide Sanitize, ToJson, Items;
    EmptyObjectItems();
  }

  lemma NoItems(v: Value, depth: nat, rules: Rules)
    requires v.ListValue?
    ensures SanitizeItems(v, 0, depth, rules) == Some([]) && ListJson(v, 0) == [] && ItemsIn(v, 0) == 0
    ensures ListFixed(v, 0, rules) && ListItems([]) == 0
  {
    hide Sanitize, ToJson, Items;
  }

  lemma ItemStep(v: Value, n: nat, depth: nat, rules: Rules)
    requires v.ListValue? && 0 < n <= |v.items|
    requires SanitizeItems(v, n - 1, depth, rules).Some? && Sanitize(v.items[n - 1], depth, rules).Some?
    ensures SanitizeItems(v, n, depth, rules) ==
      Some(SanitizeItems(v, n - 1, depth, rules).value + [Sanitize(v.items[n - 1], depth, rules).value])
    ensures ItemsIn(v, n) == ItemsIn(v, n - 1) + 1 + Items(v.items[n - 1])
    ensures ListFixed(v, n, rules) <==> ListFixed(v, n - 1, rules) && TextsFixed(ToJson(v.items[n - 1]), rules)
  {
    hide Sanitize, Items, TextsFixed, ToJson;
  }

  lemma ListSettledStep(v: Value, n: nat, depth: nat, rules: Rules)
    requires v.ListValue? && 0 < n <= |v.items|
    ensures ListJson(v, n) == ListJson(v, n - 1) + [ToJson(v.items[n - 1])]
    ensures ListSettled(ListJson(v, n), depth, rules) ==>
      ListSettled(ListJson(v, n - 1), depth, rules) && Settled(ToJson(v.items[n - 1]), depth, rules)
  {
    hide Settled, ToJson;
    var front, all := ListJson(v, n - 1), ListJson(v, n);
    assert all[n - 1] == ToJson(v.items[n - 1]) && forall i :: 0 <= i < n - 1 ==> all[i] == front[i];
  }

  lemma LoadedItem(v: Value, i: nat)
    requires v.ListValue? && Loaded(v) && i < |v.items|
    ensures Loaded(v.items[i])
  {
  }

  /** The last entry of a loaded dictionary adds a new key. */
  lemma DictJsonStep(v: Value, n: nat)
    requires v.DictValue? && 0 < n <= |v.entries| && Loaded(v)
    ensures v.entries[n - 1].key.Some? && v.entries[n - 1].key.value !in DictJson(v, n - 1)
    ensures DictJson(v, n) == DictJson(v, n - 1)[v.entries[n - 1].key.value := ToJson(v.entries[n - 1].value)]
  {
    hide Loaded, ToJson;
    LoadedEntry(v, n - 1);
    LoadedDistinct(v, n - 1);
    var k := v.entries[n - 1].key.value;
    if k in DictJson(v, n - 1) {
      DictJsonKeys(v, n - 1, k);
    }
  }

  lemma EntryStep(v: Value, n: nat, depth: nat, rules: Rules, k: string)
    requires v.DictValue? && 0 < n <= |v.entries| && SafeKey(v.entries[n - 1].key, rules) == Some(k)
    requires SanitizeEntries(v, n - 1, depth, rules).Some? && Sanitize(v.entries[n - 1].value, depth, rules).Some?
    ensures SanitizeEntries(v, n, depth, rules) ==
      Some(SanitizeEntries(v, n - 1, depth, rules).value[k := Sanitize(v.entries[n - 1].value, depth, rules).value])
    ensures ItemsIn(v, n) == ItemsIn(v, n - 1) + 1 + Items(v.entries[n - 1].value)
  {
    hide SafeKey, Sanitize, Items;
  }

  lemma LoadedEntry(v: Value, i: nat)
    requires v.DictValue? && Loaded(v) && i < |v.entries|
    ensures v.entries[i].key.Some? && Loaded(v.entries[i].value)
  {
  }

  lemma LoadedDistinct(v: Value, n: nat)
    requires v.DictValue? && Loaded(v) && n < |v.entries|
    ensures forall i :: 0 <= i < n ==> v.entries[i].key != v.entries[n].key
  {
  }

  lemma SplitFields(m: map<string, Json>, k: string, x: Json, depth: nat, rules: Rules)
    requires k !in m
    ensures FieldsSettled(m[k := x], depth, rules) <==>
      FieldsSettled(m, depth, rules) && KeySettled(k, rules) && Settled(x, depth, rules)
    ensures FieldsFixed(m[k := x], rules) <==> FieldsFixed(m, rules) && TextsFixed(x, rules)
  {
    hide KeySettled, Settled, TextsFixed;
    var n := m[k := x];
    assert n[k] == x && forall l :: l in m ==> l in n && n[l] == m[l];
  }

  lemma SettledKey(k: string, rules: Rules)
    requires KeySettled(k, rules)
    ensures SafeKey(Some(k), rules) == Some(k)
  {
  }

  // ----- writing and reading back -----------------------------------------------------------------------

  /** The text that the write path stores; `None` stands for a raised validation error. */
  function SerializeForWrite(metadata: Value, rules: Rules): Option<string>
  {
    var j := SanitizeMetadata(metadata, rules);
    if j.None? || !j.value.Obj? || |Encode(j.value)| > MAX_METADATA_BYTES then None else Some(Text(j.value))
  }

  /** `_validate_stored_metadata`. */
  function ValidateStored(stored: Value, rules: Rules): Option<Json>
  {
    var j := SanitizeMetadata(stored, rules);
    if j.None? || !j.value.Obj? || j.value != ToJson(stored) || |Encode(j.value)| > MAX_METADATA_BYTES then None else j
  }

  /** Whatever the write path accepts, the loaded form of it never exceeds the depth or the
      item budget on the second pass, and passes the stored check exactly when the leaf
      sanitiser leaves the stored texts as they are. */
  lemma AcceptedIsStable(metadata: Value, stored: Value, rules: Rules)
    requires SerializeForWrite(metadata, rules).Some?
    requires Loaded(stored) && ToJson(stored) == SanitizeMetadata(metadata, rules).value
    ensures Items(stored) <= MAX_METADATA_ITEMS && SanitizeMetadata(stored, rules).Some?
    ensures ValidateStored(stored, rules).Some? <==> TextsFixed(ToJson(stored), rules)
    ensures ValidateStored(stored, rules).Some? ==> ValidateStored(stored, rules).value == ToJson(stored)
  {
    hide Settled, TextsFixed, Encode, ToJson, Items, JsonItems;
    SanitizedIsSettled(metadata, 0, rules);
    SanitizeKeepsItems(metadata, 0, rules);
    SecondPass(stored, 0, rules);
  }

  /** The leaf sanitiser is idempotent on every text of a value. */
  ghost predicate LeavesIdempotent(v: Value, rules: Rules)
  {
    match v
    case TextValue(s) => rules.clean(rules.clean(s)) == rules.clean(s)
    case ListValue(xs) => forall i :: 0 <= i < |xs| ==> LeavesIdempotent(xs[i], rules)
    case DictValue(es) => forall i :: 0 <= i < |es| ==> LeavesIdempotent(es[i].value, rules)
    case _ => true
  }

  lemma {:induction false} IdempotentLeavesFix(v: Value, depth: nat, rules: Rules)
    requires LeavesIdempotent(v, rules) && Sanitize(v, depth, rules).Some?
    ensures TextsFixed(Sanitize(v, depth, rules).value, rules)
    decreases v, 1, 0
  {
    match v
    case ListValue(xs) => IdempotentItemsFix(v, |xs|, depth + 1, rules);
    case DictValue(es) => IdempotentEntriesFix(v, |es|, depth + 1, rules);
    case _ =>
  }

  lemma {:induction false} IdempotentItemsFix(v: Value, n: nat, depth: nat, rules: Rules)
    requires v.ListValue? && n <= |v.items| && LeavesIdempotent(v, rules) && SanitizeItems(v, n, depth, rules).Some?
    ensures
      var xs := SanitizeItems(v, n, depth, rules).value;
      forall i :: 0 <= i < |xs| ==> TextsFixed(xs[i], rules)
    decreases v, 0, n
  {
    if n > 0 {
      IdempotentItemsFix(v, n - 1, depth, rules);
      IdempotentLeavesFix(v.items[n - 1], depth, rules);
    }
  }

  lemma {:induction false} IdempotentEntriesFix(v: Value, n: nat, depth: nat, rules: Rules)
    requires v.DictValue? && n <= |v.entries| && LeavesIdempotent(v, rules) && SanitizeEntries(v, n, depth, rules).Some?
    ensures FieldsFixed(SanitizeEntries(v, n, depth, rules).value, rules)
    decreases v, 0, n
  {
    hide SafeKey;
    if n > 0 {
      IdempotentEntriesFix(v, n - 1, depth, rules);
      IdempotentLeavesFix(v.entries[n - 1].value, depth, rules);
    }
  }

  /** With an idempotent leaf sanitiser, metadata that was accepted for writing always
      passes the stored check. */
  lemma AcceptedPassesStoredCheck(metadata: Value, stored: Value, rules: Rules)
    requires SerializeForWrite(metadata, rules).Some? && LeavesIdempotent(metadata, rules)
    requires Loaded(stored) && ToJson(stored) == SanitizeMetadata(metadata, rules).value
    ensures ValidateStored(stored, rules) == Some(ToJson(stored))
    ensures Text(ToJson(stored)) == SerializeForWrite(metadata, rules).value
  {
    hide TextsFixed, Encode, ToJson, Items, Text;
    IdempotentLeavesFix(metadata, 0, rules);
    AcceptedIsStable(metadata, stored, rules);
  }

  // ----- a leaf sanitiser that is not idempotent -----------------------------------------------

  /** Metadata with a single text. */
  function OneText(s: string): Value
  {
    DictValue([Entry(Some("k"), TextValue(s))])
  }

  lemma OneTextSanitized(s: string, rules: Rules)
    requires rules.keyAllowed("k")
    ensures SanitizeMetadata(OneText(s), rules) == Some(Obj(map["k" := Str(rules.clean(s))]))
    ensures Loaded(OneText(s)) && ToJson(OneText(s)) == Obj(map["k" := Str(s)])
  {
    hide SanitizeEntries, ItemsIn, DictJson, SafeKey, Loaded;
    var v := OneText(s);
    KeyKept(rules);
    LeafSanitized(s, rules);
    NoEntries(v, 1, rules);
    EntryStep(v, 1, 1, rules, "k");
    OneTextLoaded(s);
  }

  lemma KeyKept(rules: Rules)
    requires rules.keyAllowed("k")
    ensures SafeKey(Some("k"), rules) == Some("k")
  {
    hide Strip;
    StripKeeps("k");
  }

  lemma LeafSanitized(s: string, rules: Rules)
    ensures Sanitize(TextValue(s), 1, rules) == Some(Str(rules.clean(s))) && Items(TextValue(s)) == 0
  {
  }

  lemma OneTextLoaded(s: string)
    ensures Loaded(OneText(s)) && ToJson(OneText(s)) == Obj(map["k" := Str(s)])
  {
    hide Strip;
    var v := OneText(s);
    assert DictJson(v, 0) == map[];
    assert DictJson(v, 1) == map[]["k" := ToJson(TextValue(s))];
  }

  lemma {:induction false} Utf8Length(s: string)
    ensures |Utf8(s)| <= 4 * |s|
  {
    if s != [] { Utf8Length(s[1..]); }
  }

  lemma {:induction false} QuotedLength(s: string, rest: string)
    ensures |WriteQuoted(s, rest)| <= 6 * |s| + 1 + |rest|
  {
    if s != [] { QuotedLength(s[1..], rest); }
  }

  lemma OneTextLength(s: string)
    ensures |Encode(Obj(map["k" := Str(s)]))| <= 4 * (6 * |s| + 20)
  {
    hide Sorted, Utf8, WriteQuoted;
    var o := Obj(map["k" := Str(s)]);
    SortedProperties(o.fields.Keys);
    var keys := Sorted(o.fields.Keys);
    assert o.fields.Keys == {"k"} && |keys| == 1 && keys[0] in keys;
    assert keys[0] == "k" && keys[1..] == [];
    var end := WriteFieldTail(o, keys[1..], "");
    assert end == ['}'] + "";
    var value := Write(Str(s), end);
    assert value == ['"'] + WriteQuoted(s, end);
    QuotedLength(s, end);
    var field := WriteField(o, "k", end);
    assert field == ['"'] + WriteQuoted("k", [':'] + value);
    QuotedLength("k", [':'] + value);
    assert WriteFields(o, keys, "") == field;
    assert Text(o) == ['{'] + field;
    Utf8Length(Text(o));
  }

  /** One text under an allowed key: it is accepted for writing exactly when its cleaned form fits,
      and what was accepted passes the stored check exactly when the redactor leaves the
      cleaned form alone. */
  lemma StoredTextIff(s: string, rules: Rules)
    requires rules.keyAllowed("k")
    ensures SerializeForWrite(OneText(s), rules).Some? <==>
      |Encode(ToJson(OneText(rules.clean(s))))| <= MAX_METADATA_BYTES
    ensures Loaded(OneText(rules.clean(s)))
    ensures SerializeForWrite(OneText(s), rules).Some? ==>
      && ToJson(OneText(rules.clean(s))) == SanitizeMetadata(OneText(s), rules).value
      && (ValidateStored(OneText(rules.clean(s)), rules).Some? <==> rules.clean(rules.clean(s)) == rules.clean(s))
  {
    hide SanitizeMetadata, OneText, Encode, Loaded, ToJson;
    OneTextSanitized(s, rules);
    OneTextSanitized(rules.clean(s), rules);
    var stored, again := map["k" := Str(rules.clean(s))], map["k" := Str(rules.clean(rules.clean(s)))];
    assert stored["k"] == again["k"] <==> rules.clean(rules.clean(s)) == rules.clean(s);
    assert stored["k"] == again["k"] ==> stored == again;
  }

  /** A sanitiser that is not idempotent, and a text on which the stored check then fails. */
  lemma StoredCheckFails()
    ensures
      var rules := Rules((s: string) => if s == "a" then "b" else "c", (k: string) => true);
      && SerializeForWrite(OneText("a"), rules).Some?
      && ToJson(OneText("b")) == SanitizeMetadata(OneText("a"), rules).value
      && ValidateStored(OneText("b"), rules).None?
  {
    hide SanitizeMetadata, OneText, Encode, Loaded, ToJson, SerializeForWrite, ValidateStored;
    var rules := Rules((s: string) => if s == "a" then "b" else "c", (k: string) => true);
    assert "a" != "b" && "b" != "c" && rules.clean("a") == "b" && rules.clean("b") == "c";
    OneTextLength("b");
    OneTextLoaded("b");
    StoredTextIff("a", rules);
  }
}
