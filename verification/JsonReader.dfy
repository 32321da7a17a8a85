/** A reader of canonical JSON, written from the grammar of RFC 8259 (sections 3 to 7) and
    not from the printer: literals, numbers, strings with their escapes, arrays, and objects
    whose keys ascend, with no white space anywhere. It also refuses escapes and numbers that
    have a shorter form, so every value has one text only.

    The main result is that reading undoes printing, bytes included. That the encoding is
    unambiguous follows. */
module JsonReader {
  import opened Json
  import opened Texts

  datatype Parsed<T> = Failed | Parsed(value: T, rest: string)

  // ----- numbers ---------------------------------------------------------------------

  /** The number of leading digits. */
  function DigitCount(s: string): (n: nat)
    ensures n <= |s| && forall i :: 0 <= i < n ==> IsDigit(s[i])
  {
    if s == [] || !IsDigit(s[0]) then 0 else 1 + DigitCount(s[1..])
  }

  /** What is left after one digit or more. */
  function SkipDigits(s: string): (r: Parsed<()>)
    ensures r.Parsed? ==> |r.rest| < |s|
  {
    if DigitCount(s) == 0 then Failed else Parsed((), s[DigitCount(s)..])
  }

  function SkipFraction(s: string): (r: Parsed<()>)
    ensures r.Parsed? ==> |r.rest| <= |s|
  {
    if s != [] && s[0] == '.' then SkipDigits(s[1..]) else Parsed((), s)
  }

  function SkipExponent(s: string): (r: Parsed<()>)
    ensures r.Parsed? ==> |r.rest| <= |s|
  {
    if s == [] || s[0] != 'e' then Parsed((), s)
    else if |s| > 1 && (s[1] == '+' || s[1] == '-') then SkipDigits(s[2..])
    else SkipDigits(s[1..])
  }

  /** A number without sign: how many digits its integer part has, and what follows it. */
  function ReadUnsigned(t: string): (r: Parsed<nat>)
    ensures r.Parsed? ==> 0 < r.value <= |t| && |r.rest| <= |t| - r.value
    ensures r.Parsed? ==> forall i :: 0 <= i < r.value ==> IsDigit(t[i])
  {
    var n := DigitCount(t);
    if n == 0 || (n > 1 && t[0] == '0') then Failed
    else
      var fraction := SkipFraction(t[n..]);
      if fraction.Failed? then Failed
      else
        var exponent := SkipExponent(fraction.rest);
        if exponent.Failed? then Failed else Parsed(n, exponent.rest)
  }

  /** A number: an integer, or the text of one with a fraction or an exponent. */
  function ReadNumber(s: string): (r: Parsed<Json>)
    ensures r.Parsed? ==> |r.rest| < |s|
  {
    var negative := s != [] && s[0] == '-';
    var t := if negative then s[1..] else s;
    var number := ReadUnsigned(t);
    if number.Failed? then Failed
    else if |number.rest| < |t| - number.value then Parsed(Float(s[..|s| - |number.rest|]), number.rest)
    else if negative && t[0] == '0' then Failed
    else
      var value: int := NatValue(t[..number.value]);
      Parsed(Int(if negative then -value else value), number.rest)
  }

  lemma {:induction false} DigitCountOf(digits: string, rest: string)
    requires forall i :: 0 <= i < |digits| ==> IsDigit(digits[i])
    requires rest == [] || !IsDigit(rest[0])
    ensures DigitCount(digits + rest) == |digits|
  {
    if digits == [] {
      assert digits + rest == rest;
    } else {
      assert (digits + rest)[0] == digits[0] && (digits + rest)[1..] == digits[1..] + rest;
      DigitCountOf(digits[1..], rest);
    }
  }

  lemma SkipsDigits(digits: string, rest: string)
    requires IsDigits(digits) && (rest == [] || !IsDigit(rest[0]))
    ensures SkipDigits(digits + rest) == Parsed((), rest)
  {
    DigitCountOf(digits, rest);
    assert (digits + rest)[|digits|..] == rest;
  }

  lemma SkipsFraction(fraction: string, rest: string)
    requires IsFraction(fraction) && (rest == [] || (!IsDigit(rest[0]) && rest[0] != '.'))
    ensures SkipFraction(fraction + rest) == Parsed((), rest)
  {
    if fraction == "" {
      assert fraction + rest == rest;
    } else {
      assert (fraction + rest)[1..] == fraction[1..] + rest;
      SkipsDigits(fraction[1..], rest);
    }
  }

  lemma SkipsExponent(exponent: string, rest: string)
    requires IsExponent(exponent) && Ends(rest)
    ensures SkipExponent(exponent + rest) == Parsed((), rest)
  {
    var s := exponent + rest;
    if exponent == "" {
      assert s == rest;
    } else {
      assert s[0] == 'e' && s[1] == exponent[1];
      if exponent[1] in "+-" {
        assert s[2..] == exponent[2..] + rest;
        SkipsDigits(exponent[2..], rest);
      } else {
        assert s[1..] == exponent[1..] + rest;
        SkipsDigits(exponent[1..], rest);
      }
    }
  }

  lemma ReadsUnsigned(whole: string, fraction: string, exponent: string, rest: string)
    requires IsWhole(whole) && IsFraction(fraction) && IsExponent(exponent) && Ends(rest)
    ensures ReadUnsigned(whole + (fraction + (exponent + rest))) == Parsed(|whole|, rest)
  {
    hide IsFraction, IsExponent, SkipFraction, SkipExponent, Ends;
    var tail := fraction + (exponent + rest);
    var t := whole + tail;
    assert t[0] == whole[0] && t[|whole|..] == tail;
    AfterWhole(fraction, exponent, rest);
    DigitCountOf(whole, tail);
    SkipsFraction(fraction, exponent + rest);
    SkipsExponent(exponent, rest);
  }

  /** The text of a float is read as that text. */
  lemma ReadsFloat(r: string, rest: string)
    requires IsFloatText(r) && Ends(rest)
    ensures ReadNumber(r + rest) == Parsed(Float(r), rest)
  {
    hide IsFraction, IsExponent, Ends, ReadUnsigned;
    var sign, whole, fraction, exponent :|
      IsNumber(r, sign, whole, fraction, exponent) && (fraction != "" || exponent != "");
    var t := whole + (fraction + (exponent + rest));
    ReadsUnsigned(whole, fraction, exponent, rest);
    assert r + rest == sign + t;
    if sign == "" {
      assert r + rest == t && t[0] == whole[0];
    } else {
      assert (r + rest)[1..] == t;
    }
    assert (r + rest)[..|r|] == r;
  }

  lemma AfterWhole(fraction: string, exponent: string, rest: string)
    requires IsFraction(fraction) && IsExponent(exponent) && Ends(rest)
    ensures
      var tail, late := fraction + (exponent + rest), exponent + rest;
      && (tail == [] || !IsDigit(tail[0]))
      && (late == [] || (!IsDigit(late[0]) && late[0] != '.'))
  {
    var late := exponent + rest;
    assert exponent == "" ==> late == rest;
    assert exponent != "" ==> late[0] == 'e';
    assert fraction == "" ==> fraction + late == late;
    assert fraction != "" ==> (fraction + late)[0] == '.';
  }

  lemma {:induction false} NatTextIsWhole(n: nat)
    ensures IsWhole(NatText(n)) && (NatText(n)[0] == '0' <==> n == 0)
  {
    if n >= 10 { NatTextIsWhole(n / 10); }
  }

  lemma ReadsInt(n: int, rest: string)
    requires Ends(rest)
    ensures ReadNumber(IntText(n) + rest) == Parsed(Int(n), rest)
  {
    hide ReadUnsigned, Ends;
    var digits := NatText(if n < 0 then -n else n);
    NatTextIsWhole(if n < 0 then -n else n);
    NatValueOfText(if n < 0 then -n else n);
    var s, t := IntText(n) + rest, digits + rest;
    assert t == digits + ("" + ("" + rest)) && t[0] == digits[0] && t[..|digits|] == digits;
    if n < 0 { assert s[0] == '-' && s[1..] == t; } else { assert s == t; }
    ReadsUnsigned(digits, "", "", rest);
  }

  // ----- strings ---------------------------------------------------------------------

  /** The value of a lower-case hexadecimal digit. */
  function HexValue(c: char): int
  {
    if '0' <= c <= '9' then c as int - '0' as int
    else if 'a' <= c <= 'f' then c as int - 'a' as int + 10
    else -1
  }

  /** The character that a two-character escape stands for, if it is one. */
  function ShortEscape(c: char): Parsed<char>
  {
    if c == '"' then Parsed('"', "")
    else if c == '\\' then Parsed('\\', "")
    else if c == 'b' then Parsed(0x08 as char, "")
    else if c == 'f' then Parsed(0x0C as char, "")
    else if c == 'n' then Parsed(0x0A as char, "")
    else if c == 'r' then Parsed(0x0D as char, "")
    else if c == 't' then Parsed(0x09 as char, "")
    else Failed
  }

  /** One character of a string: itself, or a backslash and a short escape, or a control
      character without a short escape by its four hexadecimal digits. */
  function ReadChar(s: string): (r: Parsed<char>)
    ensures r.Parsed? ==> |r.rest| < |s|
  {
    if s == [] || s[0] as int < 0x20 || s[0] == '"' then Failed
    else if s[0] != '\\' then Parsed(s[0], s[1..])
    else if |s| > 1 && ShortEscape(s[1]).Parsed? then Parsed(ShortEscape(s[1]).value, s[2..])
    else if |s| < 6 || s[1..4] != "u00" then Failed
    else
      var high, low := HexValue(s[4]), HexValue(s[5]);
      if 0 <= high <= 1 && 0 <= low && 16 * high + low !in {0x08, 0x09, 0x0A, 0x0C, 0x0D}
      then Parsed((16 * high + low) as char, s[6..]) else Failed
  }

  /** The characters of a string up to its closing quote. */
  function ReadText(s: string): (r: Parsed<string>)
    ensures r.Parsed? ==> |r.rest| < |s|
  {
    if s == [] then Failed
    else if s[0] == '"' then Parsed("", s[1..])
    else
      var c := ReadChar(s);
      if c.Failed? then Failed
      else
        var more := ReadText(c.rest);
        if more.Failed? then Failed else Parsed([c.value] + more.value, more.rest)
  }

  lemma ReadsChar(c: char, rest: string)
    ensures ReadChar(Escape(c) + rest) == Parsed(c, rest)
    ensures (Escape(c) + rest)[0] != '"'
  {
    var e := Escape(c);
    var s := e + rest;
    assert s[0] == e[0] && s[|e|..] == rest;
    if |e| > 1 { assert s[1] == e[1]; }
    if |e| == 6 {
      assert s[1..4] == e[1..4] == "u00";
      assert s[4] == e[4] && s[5] == e[5];
      assert c as int == 16 * (c as int / 16) + c as int % 16;
    }
  }

  lemma {:induction false} ReadsText(s: string, rest: string)
    ensures ReadText(WriteQuoted(s, rest)) == Parsed(s, rest)
  {
    hide ReadChar, Escape;
    if s == [] {
      assert (['"'] + rest)[1..] == rest;
    } else {
      ReadsChar(s[0], WriteQuoted(s[1..], rest));
      ReadsText(s[1..], rest);
      assert s == [s[0]] + s[1..];
    }
  }

  // ----- values ----------------------------------------------------------------------

  function ReadScalar(s: string): (r: Parsed<Json>)
    ensures r.Parsed? ==> |r.rest| < |s|
  {
    if "null" <= s then Parsed(Null, s[4..])
    else if "true" <= s then Parsed(Bool(true), s[4..])
    else if "false" <= s then Parsed(Bool(false), s[5..])
    else ReadNumber(s)
  }

  /** A value at the front of a text. */
  function ReadValue(s: string): (r: Parsed<Json>)
    ensures r.Parsed? ==> |r.rest| < |s|
    decreases |s|, 0
  {
    if s == [] then Failed
    else if s[0] == '"' then
      var text := ReadText(s[1..]);
      if text.Failed? then Failed else Parsed(Str(text.value), text.rest)
    else if s[0] == '[' then
      if |s| > 1 && s[1] == ']' then Parsed(Arr([]), s[2..])
      else
        var items := ReadItems(s[1..]);
        if items.Failed? then Failed else Parsed(Arr(items.value), items.rest)
    else if s[0] == '{' then
      if |s| > 1 && s[1] == '}' then Parsed(Obj(map[]), s[2..])
      else
        var fields := ReadFields(s[1..], []);
        if fields.Failed? then Failed else Parsed(Obj(fields.value), fields.rest)
    else ReadScalar(s)
  }

  /** The items of an array, one at least, and the closing bracket. */
  function ReadItems(s: string): (r: Parsed<seq<Json>>)
    ensures r.Parsed? ==> |r.rest| < |s|
    decreases |s|, 1
  {
    var item := ReadValue(s);
    if item.Failed? || item.rest == [] then Failed
    else if item.rest[0] == ']' then Parsed([item.value], item.rest[1..])
    else if item.rest[0] != ',' then Failed
    else
      var more := ReadItems(item.rest[1..]);
      if more.Failed? then Failed else Parsed([item.value] + more.value, more.rest)
  }

  /** The fields of an object, one at least, and the closing brace. `before` holds the key
      that came last, if any; the next one must lie strictly after it. */
  function ReadFields(s: string, before: seq<string>): (r: Parsed<map<string, Json>>)
    ensures r.Parsed? ==> |r.rest| < |s|
    decreases |s|, 1
  {
    if s == [] || s[0] != '"' then Failed
    else
      var key := ReadText(s[1..]);
      if key.Failed? || key.rest == [] || key.rest[0] != ':' then Failed
      else if !(forall k :: k in before ==> k != key.value && AtOrBefore(k, key.value)) then Failed
      else
        var field := ReadValue(key.rest[1..]);
        if field.Failed? || field.rest == [] then Failed
        else if field.rest[0] == '}' then Parsed(map[key.value := field.value], field.rest[1..])
        else if field.rest[0] != ',' then Failed
        else
          var more := ReadFields(field.rest[1..], [key.value]);
          if more.Failed? then Failed else Parsed(more.value[key.value := field.value], more.rest)
  }

  /** What may follow a value inside an array, inside an object or at the end. */
  predicate Ends(x: string) { x == [] || x[0] in ",]}" }

  lemma ReadsScalar(v: Json, rest: string)
    requires IsScalar(v) && WellFormed(v) && Ends(rest)
    ensures ReadScalar(ScalarText(v) + rest) == Parsed(v, rest)
    ensures ScalarText(v) != [] && ScalarText(v)[0] !in "\"[{]},"
  {
    hide ReadNumber;
    var s := ScalarText(v) + rest;
    assert s[|ScalarText(v)|..] == rest;
    match v
    case Int(n) =>
      ReadsInt(n, rest);
      assert s[0] == IntText(n)[0];
    case Float(r) =>
      ReadsFloat(r, rest);
      FloatStarts(r);
      assert s[0] == r[0];
    case Bool(b) =>
      if b { assert s[..4] == "true"; } else { assert s[..5] == "false"; }
    case Null =>
      assert s[..4] == "null";
  }

  lemma FloatStarts(r: string)
    requires IsFloatText(r)
    ensures r != [] && (IsDigit(r[0]) || r[0] == '-')
  {
  }

  /** Reading undoes printing, whatever follows the value. */
  lemma {:induction false} ReadsValue(v: Json, rest: string)
    requires WellFormed(v) && Ends(rest)
    ensures Write(v, rest) != [] && Write(v, rest)[0] !in ",]}"
    ensures ReadValue(Write(v, rest)) == Parsed(v, rest)
    decreases v, 2, 0
  {
    hide ReadText, ReadItems, ReadFields, ReadScalar, IsFloatText;
    var s := Write(v, rest);
    match v
    case Str(t) =>
      ReadsText(t, rest);
      assert s[1..] == WriteQuoted(t, rest);
    case Arr(xs) =>
      if xs == [] {
        assert s == ['[', ']'] + rest && s[2..] == rest;
      } else {
        ReadsItems(xs, rest);
        assert s[1..] == Write(xs[0], WriteTail(xs[1..], rest));
      }
    case Obj(m) =>
      ReadsObject(v, rest);
    case _ =>
      ReadsScalar(v, rest);
      assert s[0] == ScalarText(v)[0];
  }

  lemma {:induction false} ReadsItems(xs: seq<Json>, rest: string)
    requires xs != [] && forall x :: x in xs ==> WellFormed(x)
    ensures
      var s := Write(xs[0], WriteTail(xs[1..], rest));
      s != [] && s[0] != ']' && ReadItems(s) == Parsed(xs, rest)
    decreases xs, 1, 0
  {
    hide ReadValue, WellFormed;
    var tail := WriteTail(xs[1..], rest);
    ReadsValue(xs[0], tail);
    if |xs| == 1 {
      assert tail == [']'] + rest && tail[1..] == rest && xs == [xs[0]];
    } else {
      ReadsItems(xs[1..], rest);
      assert tail[1..] == Write(xs[1], WriteTail(xs[2..], rest)) by { assert xs[1..][1..] == xs[2..]; }
      assert xs == [xs[0]] + xs[1..];
    }
  }

  lemma {:induction false} ReadsObject(v: Json, rest: string)
    requires v.Obj? && WellFormed(v)
    ensures Write(v, rest)[0] == '{' && ReadValue(Write(v, rest)) == Parsed(v, rest)
    decreases v, 1, 0
  {
    hide ReadFields, WellFormed, Sorted, AtOrBefore, Write, WriteFieldTail, WriteField;
    var m := v.fields;
    SortedProperties(m.Keys);
    var keys := Sorted(m.Keys);
    ObjectText(v, keys, rest);
    var s := Write(v, rest);
    if keys == [] {
      assert m == map[] by { assert forall k :: k in m ==> k in keys; }
    } else {
      ReadsFields(v, keys, [], rest);
      assert Chosen(v, keys) == m;
      assert s[1] == s[1..][0];
    }
  }

  lemma ObjectText(v: Json, keys: seq<string>, rest: string)
    requires v.Obj? && keys == Sorted(v.fields.Keys) && forall k :: k in keys ==> k in v.fields
    ensures
      var s := Write(v, rest);
      if keys == [] then s == ['{', '}'] + rest && s[2..] == rest
      else
        |s| > 1 && s[0] == '{' && s[1..] == WriteField(v, keys[0], WriteFieldTail(v, keys[1..], rest))
  {
    hide Sorted, WriteFieldTail;
    assert Write(v, rest) == ['{'] + WriteFields(v, keys, rest);
  }

  /** The fields of an object under the given keys. */
  function Chosen(o: Json, keys: seq<string>): map<string, Json>
    requires o.Obj? && forall k :: k in keys ==> k in o.fields
  {
    map k | k in keys :: o.fields[k]
  }

  /** Strictly ascending. */
  predicate Ascending(keys: seq<string>)
  {
    forall i, j :: 0 <= i < j < |keys| ==> keys[i] != keys[j] && AtOrBefore(keys[i], keys[j])
  }

  lemma {:induction false} ReadsFields(o: Json, keys: seq<string>, before: seq<string>, rest: string)
    requires o.Obj? && WellFormed(o) && keys != [] && forall k :: k in keys ==> k in o.fields
    requires |before| <= 1 && Ascending(before + keys)
    ensures
      var s := WriteField(o, keys[0], WriteFieldTail(o, keys[1..], rest));
      s[0] == '"' && ReadFields(s, before) == Parsed(Chosen(o, keys), rest)
    decreases o, 0, |keys|
  {
    hide ReadFields, WellFormed, Write, AtOrBefore;
    var key := keys[0];
    var tail := WriteFieldTail(o, keys[1..], rest);
    FieldWellFormed(o, key);
    ReadsValue(o.fields[key], tail);
    FirstInOrder(before, keys);
    FieldStep(o, key, tail, before);
    if |keys| == 1 {
      assert tail[1..] == rest && keys == [key];
      assert Chosen(o, keys) == map[key := o.fields[key]];
    } else {
      RestInOrder(before, keys);
      assert forall k :: k in keys[1..] ==> k in keys;
      ReadsFields(o, keys[1..], [key], rest);
      assert tail[1..] == WriteField(o, keys[1], WriteFieldTail(o, keys[2..], rest))
        by { assert keys[1..][1..] == keys[2..]; }
      ChosenMore(o, keys);
    }
  }

  /** One field is read, and what follows decides how it goes on. */
  lemma FieldStep(o: Json, key: string, tail: string, before: seq<string>)
    requires o.Obj? && key in o.fields && tail != []
    requires ReadValue(Write(o.fields[key], tail)) == Parsed(o.fields[key], tail)
    requires forall k :: k in before ==> k != key && AtOrBefore(k, key)
    ensures
      var s, v := WriteField(o, key, tail), o.fields[key];
      && s[0] == '"'
      && (tail[0] == '}' ==> ReadFields(s, before) == Parsed(map[key := v], tail[1..]))
      && (tail[0] == ',' && ReadFields(tail[1..], [key]).Parsed? ==>
            var more := ReadFields(tail[1..], [key]);
            ReadFields(s, before) == Parsed(more.value[key := v], more.rest))
  {
    hide ReadValue, ReadText, Write, AtOrBefore;
    var value := Write(o.fields[key], tail);
    ReadsText(key, [':'] + value);
    assert ([':'] + value)[1..] == value;
    assert WriteField(o, key, tail)[1..] == WriteQuoted(key, [':'] + value);
  }

  lemma ChosenMore(o: Json, keys: seq<string>)
    requires o.Obj? && keys != [] && forall k :: k in keys ==> k in o.fields
    ensures Chosen(o, keys) == Chosen(o, keys[1..])[keys[0] := o.fields[keys[0]]]
  {
    assert keys == [keys[0]] + keys[1..];
  }

  lemma FieldWellFormed(o: Json, key: string)
    requires o.Obj? && WellFormed(o) && key in o.fields
    ensures WellFormed(o.fields[key])
  {
  }

  lemma FirstInOrder(before: seq<string>, keys: seq<string>)
    requires |before| <= 1 && keys != [] && Ascending(before + keys)
    ensures forall k :: k in before ==> k != keys[0] && AtOrBefore(k, keys[0])
  {
    if |before| == 1 { assert (before + keys)[0] == before[0] && (before + keys)[1] == keys[0]; }
  }

  lemma RestInOrder(before: seq<string>, keys: seq<string>)
    requires keys != [] && Ascending(before + keys)
    ensures Ascending([keys[0]] + keys[1..])
  {
    assert [keys[0]] + keys[1..] == keys;
    forall i, j | 0 <= i < j < |keys| ensures keys[i] != keys[j] && AtOrBefore(keys[i], keys[j]) {
      var all := before + keys;
      assert all[|before| + i] == keys[i] && all[|before| + j] == keys[j];
    }
  }

  /** A value's text, followed by a delimiter or nothing, determines the value and
      where it ends. */
  lemma Unambiguous(a: Json, b: Json, x: string, y: string)
    requires WellFormed(a) && WellFormed(b)
    requires Write(a, x) == Write(b, y) && Ends(x) && Ends(y)
    ensures a == b && x == y
  {
    hide ReadValue, Write;
    ReadsValue(a, x);
    ReadsValue(b, y);
  }

  // ----- UTF-8 -------------------------------------------------------------

  /** The number of bytes that a lead byte announces; 0 if it cannot lead. */
  function Announced(lead: Byte): nat
  {
    if lead < 0x80 then 1
    else if lead < 0xC0 then 0
    else if lead < 0xE0 then 2
    else if lead < 0xF0 then 3
    else if lead < 0xF8 then 4
    else 0
  }

  predicate Continues(b: Byte) { 0x80 <= b < 0xC0 }

  /** The code point that one character's bytes stand for. */
  function CodePoint(s: Bytes): int
  {
    if |s| == 1 then s[0]
    else if |s| == 2 then 64 * (s[0] as int - 0xC0) + (s[1] as int - 0x80)
    else if |s| == 3 then 64 * (64 * (s[0] as int - 0xE0) + (s[1] as int - 0x80)) + (s[2] as int - 0x80)
    else if |s| == 4 then
      64 * (64 * (64 * (s[0] as int - 0xF0) + (s[1] as int - 0x80)) + (s[2] as int - 0x80)) + (s[3] as int - 0x80)
    else 0
  }

  /** The least code point that needs the given number of bytes. */
  function Floor(length: nat): int
  {
    if length == 2 then 0x80 else if length == 3 then 0x800 else if length == 4 then 0x10000 else 0
  }

  /** `bytes.decode("utf-8")`: lead and continuation bytes, shortest forms, no surrogates. */
  function ReadUtf8(b: Bytes): Parsed<string>
  {
    if b == [] then Parsed("", "")
    else
      var n := Announced(b[0]);
      if n == 0 || n > |b| || !(forall i :: 1 <= i < n ==> Continues(b[i])) then Failed
      else
        var u := CodePoint(b[..n]);
        if u < Floor(n) || !(0 <= u < 0xD800 || 0xE000 <= u < 0x11_0000) then Failed
        else
          var more := ReadUtf8(b[n..]);
          if more.Failed? then Failed else Parsed([u as char] + more.value, "")
  }

  lemma EncodeCharShape(c: char)
    ensures
      var s := EncodeChar(c);
      && Announced(s[0]) == |s| && (forall i :: 1 <= i < |s| ==> Continues(s[i])) && Floor(|s|) <= c as int
  {
    var u := c as int;
    assert 0x80 <= u < 0x800 ==> 0 <= u / 64 < 32;
    assert 0x800 <= u < 0x10000 ==> 0 <= u / 4096 < 16;
  }

  lemma CodePointOfChar(c: char)
    ensures CodePoint(EncodeChar(c)) == c as int
  {
    var u := c as int;
    assert u == 64 * (u / 64) + u % 64;
    assert u / 64 == 64 * (u / 4096) + u / 64 % 64;
    assert u / 4096 == 64 * (u / 262144) + u / 4096 % 64;
  }

  /** Decoding undoes encoding. */
  lemma {:induction false} ReadsUtf8(s: string)
    ensures ReadUtf8(Utf8(s)) == Parsed(s, "")
  {
    hide EncodeChar, CodePoint, Announced, Floor;
    if s != [] {
      var lead, more := EncodeChar(s[0]), Utf8(s[1..]);
      EncodeCharShape(s[0]);
      CodePointOfChar(s[0]);
      ReadsUtf8(s[1..]);
      assert (lead + more)[..|lead|] == lead && (lead + more)[|lead|..] == more;
      assert forall i :: 0 <= i < |lead| ==> (lead + more)[i] == lead[i];
      assert s == [s[0]] + s[1..];
    }
  }

  lemma Utf8Injective(s: string, t: string)
    requires Utf8(s) == Utf8(t)
    ensures s == t
  {
    hide ReadUtf8, Utf8;
    ReadsUtf8(s);
    ReadsUtf8(t);
  }

  // ----- whole encodings ----------------------------------------------------------

  /** The value that canonical bytes stand for. */
  function Decode(b: Bytes): Parsed<Json>
  {
    var text := ReadUtf8(b);
    if text.Failed? then Failed
    else
      var value := ReadValue(text.value);
      if value.Parsed? && value.rest == "" then value else Failed
  }

  /** Decoding undoes the canonical encoding. */
  lemma EncodeReads(v: Json)
    requires WellFormed(v)
    ensures Decode(Encode(v)) == Parsed(v, "")
  {
    hide ReadUtf8, Utf8, ReadValue, Write;
    ReadsUtf8(Text(v));
    ReadsValue(v, "");
  }

  /** The canonical encoding is injective: equal bytes, equal values. */
  lemma EncodeInjective(a: Json, b: Json)
    requires WellFormed(a) && WellFormed(b)
    requires Encode(a) == Encode(b)
    ensures a == b
  {
    hide Decode, Encode;
    EncodeReads(a);
    EncodeReads(b);
  }
}
