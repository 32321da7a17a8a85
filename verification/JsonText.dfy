/** The exact text of a canonical object: its fields in ascending order of key, each as quoted key,
    colon and value, with commas between them. */
module JsonText {
  import opened Json
  import JsonReader
  import opened JsonArrays
  import opened Texts
  import opened TextMeaning

  type Field = (string, Json)

  /** The fields with commas between them. */
  function FieldsText(fields: seq<Field>): string
  {
    if fields == [] then ""
    else FieldText(fields[0]) + (if |fields| == 1 then "" else "," + FieldsText(fields[1..]))
  }

  function FieldText(f: Field): string
  {
    Text(Str(f.0)) + (":" + Text(f.1))
  }

  function KeysOf(fields: seq<Field>): seq<string>
  {
    seq(|fields|, i requires 0 <= i < |fields| => fields[i].0)
  }

  /** The object holds these fields and no others. */
  ghost predicate Consists(m: map<string, Json>, fields: seq<Field>)
  {
    && (forall f :: f in fields ==> f.0 in m && m[f.0] == f.1)
    && (forall k :: k in m ==> exists f :: f in fields && f.0 == k)
  }

  /** The keys come in order: each strictly before the next. */
  ghost predicate InOrder(keys: seq<string>)
  {
    forall i :: 0 <= i < |keys| - 1 ==> keys[i] != keys[i + 1] && AtOrBefore(keys[i], keys[i + 1])
  }

  lemma {:induction false} OrderFar(keys: seq<string>, i: nat, j: nat)
    requires InOrder(keys) && i < j < |keys|
    ensures keys[i] != keys[j] && AtOrBefore(keys[i], keys[j])
    decreases j - i
  {
    assert keys[j - 1] != keys[j - 1 + 1] && AtOrBefore(keys[j - 1], keys[j - 1 + 1]);
    if i + 1 < j {
      OrderFar(keys, i, j - 1);
      OrderTransitive(keys[i], keys[j - 1], keys[j]);
      if keys[i] == keys[j] { OrderAntisymmetric(keys[i], keys[j - 1]); }
    }
  }

  /** An ascending list of the elements of a set is its sorted list. */
  lemma {:induction false} SortedIs(all: set<string>, keys: seq<string>)
    requires InOrder(keys) && forall k :: k in keys <==> k in all
    ensures Sorted(all) == keys
  {
    hide AtOrBefore;
    if keys == [] {
      assert all == {};
    } else {
      assert keys[0] in keys;
      LeastIsLeast(all);
      var i :| 0 <= i < |keys| && keys[i] == Least(all);
      if i > 0 {
        OrderFar(keys, 0, i);
        OrderAntisymmetric(keys[0], keys[i]);
      }
      var rest := keys[1..];
      forall j | 0 <= j < |rest| - 1 ensures rest[j] != rest[j + 1] && AtOrBefore(rest[j], rest[j + 1]) {
        assert rest[j] == keys[j + 1] && rest[j + 1] == keys[(j + 1) + 1];
      }
      forall k ensures k in rest <==> k in all - {keys[0]} {
        assert keys == [keys[0]] + rest;
        if k in rest {
          var j :| 0 <= j < |rest| && rest[j] == k;
          OrderFar(keys, 0, j + 1);
        }
      }
      SortedIs(all - {keys[0]}, rest);
    }
  }

  /** The text of a list of fields, as the printer writes it. */
  lemma {:induction false} WritesFields(o: Json, fields: seq<Field>, rest: string)
    requires o.Obj? && fields != [] && (forall f :: f in fields ==> f.0 in o.fields && o.fields[f.0] == f.1)
    ensures forall k :: k in KeysOf(fields) ==> k in o.fields
    ensures
      var keys := KeysOf(fields);
      WriteField(o, keys[0], WriteFieldTail(o, keys[1..], rest)) == FieldsText(fields) + (['}'] + rest)
    decreases |fields|
  {
    hide Write, WriteField, FieldText;
    var keys := KeysOf(fields);
    assert fields[0] in fields && keys[0] == fields[0].0;
    if |fields| == 1 {
      assert keys[1..] == [];
      FieldWritten(o, fields[0], WriteFieldTail(o, keys[1..], rest));
      assert FieldsText(fields) == FieldText(fields[0]);
    } else {
      var more := fields[1..];
      assert forall f :: f in more ==> f in fields;
      assert KeysOf(more) == keys[1..];
      WritesFields(o, more, rest);
      var tail := WriteFieldTail(o, keys[1..], rest);
      assert tail == [','] + (FieldsText(more) + (['}'] + rest));
      FieldWritten(o, fields[0], tail);
      Associate([','], FieldsText(more), ['}'] + rest);
      Associate(FieldText(fields[0]), [','] + FieldsText(more), ['}'] + rest);
    }
  }

  lemma FieldWritten(o: Json, f: Field, tail: string)
    requires o.Obj? && f.0 in o.fields && o.fields[f.0] == f.1
    ensures WriteField(o, f.0, tail) == FieldText(f) + tail
  {
    var rest := [':'] + Write(f.1, tail);
    assert WriteField(o, f.0, tail) == Write(Str(f.0), rest);
    hide Write, WriteField;
    WriteSplits(Str(f.0), rest);
    WriteSplits(f.1, tail);
    Associate([':'], Text(f.1), tail);
    Associate(Text(Str(f.0)), [':'] + Text(f.1), tail);
  }

  /** An object is printed as its fields in ascending order of key. */
  lemma CanonicalText(m: map<string, Json>, fields: seq<Field>)
    requires fields != [] && Consists(m, fields) && InOrder(KeysOf(fields))
    ensures Text(Obj(m)) == "{" + FieldsText(fields) + "}"
  {
    hide FieldsText, AtOrBefore, Sorted, WriteField, WriteFieldTail, InOrder;
    var o, keys := Obj(m), KeysOf(fields);
    KeysCovered(m, fields);
    SortedIs(m.Keys, keys);
    WritesFields(o, fields, "");
    WrittenObject(o, keys);
    assert ['{'] + (FieldsText(fields) + (['}'] + "")) == "{" + FieldsText(fields) + "}";
  }

  lemma KeysCovered(m: map<string, Json>, fields: seq<Field>)
    requires Consists(m, fields)
    ensures forall k :: k in KeysOf(fields) <==> k in m.Keys
  {
    var keys := KeysOf(fields);
    forall k ensures k in keys <==> k in m.Keys {
      if k in keys {
        var i :| 0 <= i < |keys| && keys[i] == k;
        assert fields[i] in fields;
      }
      if k in m {
        var f :| f in fields && f.0 == k;
        var i :| 0 <= i < |fields| && fields[i] == f;
        assert keys[i] == k;
      }
    }
  }

  lemma WrittenObject(o: Json, keys: seq<string>)
    requires o.Obj? && keys == Sorted(o.fields.Keys) && keys != [] && forall k :: k in keys ==> k in o.fields
    ensures Text(o) == ['{'] + WriteField(o, keys[0], WriteFieldTail(o, keys[1..], ""))
  {
    hide Sorted, WriteField, WriteFieldTail, Write;
    JsonReader.ObjectText(o, keys, "");
    assert Text(o) == [Text(o)[0]] + Text(o)[1..];
  }

  /** One key comes before another because of their first difference. */
  lemma Precedes(a: string, b: string, i: nat)
    requires DiffersAt(a, b, i) && a[i] < b[i]
    ensures a != b && AtOrBefore(a, b)
  {
    hide AtOrBefore;
    OrderMeans(a, b);
  }
}
