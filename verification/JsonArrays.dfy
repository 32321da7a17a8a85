/** The encoding of an array is its items' encodings joined by commas between
    brackets, so an array can be encoded one item at a time. */
module JsonArrays {
  import opened Json
  import opened Texts

  const COMMA: Byte := 44
  const OPEN: Byte := 91
  const CLOSE: Byte := 93

  /** `b",".join(parts)`. */
  function Join(parts: seq<Bytes>): Bytes
  {
    if parts == [] then []
    else if |parts| == 1 then parts[0]
    else Join(parts[..|parts| - 1]) + [COMMA] + parts[|parts| - 1]
  }

  function JoinTail(parts: seq<Bytes>): Bytes
  {
    if parts == [] then [] else [COMMA] + parts[0] + JoinTail(parts[1..])
  }

  function EncodeAll(xs: seq<Json>): (r: seq<Bytes>)
    ensures |r| == |xs| && forall i :: 0 <= i < |xs| ==> r[i] == Encode(xs[i])
  {
    seq(|xs|, i requires 0 <= i < |xs| => Encode(xs[i]))
  }

  lemma JoinSnoc(parts: seq<Bytes>, p: Bytes)
    ensures Join(parts + [p]) == if parts == [] then p else Join(parts) + [COMMA] + p
  {
    assert (parts + [p])[..|parts|] == parts;
  }

  lemma {:induction false} JoinTailSnoc(parts: seq<Bytes>, p: Bytes)
    ensures JoinTail(parts + [p]) == JoinTail(parts) + ([COMMA] + p)
  {
    if parts == [] {
      assert parts + [p] == [p];
      assert JoinTail([p]) == [COMMA] + p + JoinTail([]);
    } else {
      assert (parts + [p])[1..] == parts[1..] + [p];
      JoinTailSnoc(parts[1..], p);
      Associate([COMMA] + parts[0], JoinTail(parts[1..]), [COMMA] + p);
    }
  }

  lemma {:induction false} JoinFromFront(parts: seq<Bytes>)
    requires parts != []
    ensures Join(parts) == parts[0] + JoinTail(parts[1..])
  {
    var n := |parts|;
    if n == 1 {
      assert parts[1..] == [];
    } else {
      var front, last := parts[..n - 1], parts[n - 1];
      JoinFromFront(front);
      assert parts[1..] == front[1..] + [last];
      JoinTailSnoc(front[1..], last);
      Associate(parts[0], JoinTail(front[1..]), [COMMA] + last);
      Associate(Join(front), [COMMA], last);
    }
  }

  // ----- the printer appends -------------------------------------------------

  lemma {:induction false} QuotedAppends(s: string, x: string, y: string)
    ensures WriteQuoted(s, x + y) == WriteQuoted(s, x) + y
  {
    if s == [] {
      Associate(['"'], x, y);
    } else {
      QuotedAppends(s[1..], x, y);
      Associate(Escape(s[0]), WriteQuoted(s[1..], x), y);
    }
  }

  lemma {:induction false} Appends(v: Json, x: string, y: string)
    ensures Write(v, x + y) == Write(v, x) + y
    decreases v, 1, 0
  {
    match v
    case Str(s) =>
      QuotedAppends(s, x, y);
      Associate(['"'], WriteQuoted(s, x), y);
    case Arr(xs) =>
      if xs == [] {
        Associate([']'], x, y);
        Associate(['['], [']'] + x, y);
      } else {
        TailAppends(xs[1..], x, y);
        Appends(xs[0], WriteTail(xs[1..], x), y);
        Associate(['['], Write(xs[0], WriteTail(xs[1..], x)), y);
      }
    case Obj(m) =>
      SortedProperties(m.Keys);
      FieldsAppend(v, Sorted(m.Keys), x, y);
      Associate(['{'], WriteFields(v, Sorted(m.Keys), x), y);
    case _ =>
      Associate(ScalarText(v), x, y);
  }

  lemma {:induction false} TailAppends(xs: seq<Json>, x: string, y: string)
    ensures WriteTail(xs, x + y) == WriteTail(xs, x) + y
    decreases xs, 0, 0
  {
    if xs == [] {
      Associate([']'], x, y);
    } else {
      TailAppends(xs[1..], x, y);
      Appends(xs[0], WriteTail(xs[1..], x), y);
      Associate([','], Write(xs[0], WriteTail(xs[1..], x)), y);
    }
  }

  lemma {:induction false} FieldsAppend(o: Json, keys: seq<string>, x: string, y: string)
    requires o.Obj? && forall k :: k in keys ==> k in o.fields
    ensures WriteFields(o, keys, x + y) == WriteFields(o, keys, x) + y
    decreases o, 0, |keys| + 2
  {
    if keys == [] {
      Associate(['}'], x, y);
    } else {
      FieldTailAppends(o, keys[1..], x, y);
      FieldAppends(o, keys[0], WriteFieldTail(o, keys[1..], x), y);
    }
  }

  lemma {:induction false} FieldAppends(o: Json, key: string, x: string, y: string)
    requires o.Obj? && key in o.fields
    ensures WriteField(o, key, x + y) == WriteField(o, key, x) + y
    decreases o, 0, 0
  {
    var u := Write(o.fields[key], x);
    Appends(o.fields[key], x, y);
    Associate([':'], u, y);
    QuotedAppends(key, [':'] + u, y);
    Associate(['"'], WriteQuoted(key, [':'] + u), y);
  }

  lemma {:induction false} FieldTailAppends(o: Json, keys: seq<string>, x: string, y: string)
    requires o.Obj? && forall k :: k in keys ==> k in o.fields
    ensures WriteFieldTail(o, keys, x + y) == WriteFieldTail(o, keys, x) + y
    decreases o, 0, |keys| + 1
  {
    if keys == [] {
      Associate(['}'], x, y);
    } else {
      FieldTailAppends(o, keys[1..], x, y);
      FieldAppends(o, keys[0], WriteFieldTail(o, keys[1..], x), y);
      Associate([','], WriteField(o, keys[0], WriteFieldTail(o, keys[1..], x)), y);
    }
  }

  lemma WriteSplits(v: Json, rest: string)
    ensures Write(v, rest) == Text(v) + rest
  {
    assert "" + rest == rest;
    Appends(v, "", rest);
  }

  // ----- arrays ----------------------------------------------------------------

  lemma Utf8Head(c: char, s: string)
    requires c as int < 0x80
    ensures Utf8([c] + s) == [c as int] + Utf8(s)
  {
    assert ([c] + s)[1..] == s;
  }

  lemma {:induction false} TailEncoding(xs: seq<Json>)
    ensures Utf8(WriteTail(xs, "")) == JoinTail(EncodeAll(xs)) + [CLOSE]
  {
    if xs == [] {
      assert [']'] + "" == "]";
      Utf8Head(']', "");
    } else {
      var rest := WriteTail(xs[1..], "");
      WriteSplits(xs[0], rest);
      Utf8Head(',', Write(xs[0], rest));
      Utf8Concat(Text(xs[0]), rest);
      TailEncoding(xs[1..]);
      assert EncodeAll(xs)[1..] == EncodeAll(xs[1..]);
      var t := JoinTail(EncodeAll(xs[1..]));
      Associate(Encode(xs[0]), t, [CLOSE]);
      Associate([COMMA], Encode(xs[0]) + t, [CLOSE]);
      Associate([COMMA], Encode(xs[0]), t);
    }
  }

  /** Encoding a list at once gives the same bytes as joining its items' encodings. */
  lemma ArrayEncoding(xs: seq<Json>)
    ensures Encode(Arr(xs)) == [OPEN] + Join(EncodeAll(xs)) + [CLOSE]
  {
    if xs == [] {
      assert EncodeAll(xs) == [];
      assert [']'] + "" == "]";
      Utf8Head('[', "]");
      Utf8Head(']', "");
    } else {
      var rest := WriteTail(xs[1..], "");
      WriteSplits(xs[0], rest);
      Utf8Head('[', Write(xs[0], rest));
      Utf8Concat(Text(xs[0]), rest);
      TailEncoding(xs[1..]);
      JoinFromFront(EncodeAll(xs));
      assert EncodeAll(xs)[1..] == EncodeAll(xs[1..]);
      var t := JoinTail(EncodeAll(xs[1..]));
      Associate(Encode(xs[0]), t, [CLOSE]);
      Associate([OPEN], Encode(xs[0]) + t, [CLOSE]);
    }
  }
}
