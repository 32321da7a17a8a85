/** JSON values and the compact, sorted-key printer that every canonical encoding in
    the program uses (`json.dumps(..., ensure_ascii=False, sort_keys=True,
    separators=(",", ":"), allow_nan=False)`), followed by UTF-8. */
module Json {
  import opened Texts

  type Byte = b: int | 0 <= b < 256
  type Bytes = seq<Byte>

  /** An object is a map, so two objects that differ only in key order are equal.
      A `Float` is its shortest decimal text. */
  datatype Json =
    | Null
    | Bool(truth: bool)
    | Int(number: int)
    | Float(repr: string)
    | Str(text: string)
    | Arr(items: seq<Json>)
    | Obj(fields: map<string, Json>)

  /** `mapping.get(key)`: an absent key and a null value read the same. */
  function Get(fields: map<string, Json>, key: string): Json
  {
    if key in fields then fields[key] else Null
  }

  /** A list of texts. */
  function StringList(texts: seq<string>): Json
  {
    Arr(seq(|texts|, i requires 0 <= i < |texts| => Str(texts[i])))
  }

  /** Every `Float` in the value has the text of a finite float. */
  ghost predicate WellFormed(v: Json)
  {
    match v
    case Float(r) => IsFloatText(r)
    case Arr(xs) => forall x :: x in xs ==> WellFormed(x)
    case Obj(m) => forall k :: k in m ==> WellFormed(m[k])
    case _ => true
  }

  predicate IsDigit(c: char) { '0' <= c <= '9' }

  predicate IsDigits(s: string)
  {
    s != [] && forall i :: 0 <= i < |s| ==> IsDigit(s[i])
  }

  /** The integer part of a number: digits without a superfluous leading zero. */
  predicate IsWhole(s: string)
  {
    IsDigits(s) && (|s| > 1 ==> s[0] != '0')
  }

  predicate IsFraction(s: string)
  {
    s == "" || (s[0] == '.' && IsDigits(s[1..]))
  }

  predicate IsExponent(s: string)
  {
    s == "" || (s[0] == 'e' && (IsDigits(s[1..]) || (|s| > 1 && s[1] in "+-" && IsDigits(s[2..]))))
  }

  /** The parts of a number as in section 6 of RFC 8259. */
  predicate IsNumber(r: string, sign: string, whole: string, fraction: string, exponent: string)
  {
    && r == sign + (whole + (fraction + exponent))
    && (sign == "" || sign == "-") && IsWhole(whole) && IsFraction(fraction) && IsExponent(exponent)
  }

  /** What `repr` of a finite float looks like: a number with a fraction or an exponent, which
      no integer has. */
  ghost predicate IsFloatText(r: string)
  {
    exists sign, whole, fraction, exponent ::
      IsNumber(r, sign, whole, fraction, exponent) && (fraction != "" || exponent != "")
  }

  // ----- numbers -----------------------------------------------------------

  function NatText(n: nat): (s: string)
    ensures s != [] && forall i :: 0 <= i < |s| ==> IsDigit(s[i])
  {
    if n < 10 then [('0' as int + n) as char]
    else NatText(n / 10) + [('0' as int + n % 10) as char]
  }

  /** `int(text)` for a text of ASCII digits. */
  function NatValue(s: string): nat
    requires forall i :: 0 <= i < |s| ==> IsDigit(s[i])
  {
    if s == [] then 0
    else
      var last := s[|s| - 1];
      assert IsDigit(last);
      10 * NatValue(s[..|s| - 1]) + (last as int - '0' as int)
  }

  lemma {:induction false} NatValueOfText(n: nat)
    ensures NatValue(NatText(n)) == n
  {
    if n < 10 {
      assert NatText(n)[..0] == [];
    } else {
      NatValueOfText(n / 10);
      var s := NatText(n);
      assert s[..|s| - 1] == NatText(n / 10);
    }
  }

  function IntText(n: int): (s: string)
    ensures s != [] && (IsDigit(s[0]) || s[0] == '-')
    ensures forall i :: 0 <= i < |s| ==> IsDigit(s[i]) || s[i] == '-'
  {
    if n < 0 then "-" + NatText(-n) else NatText(n)
  }

  // ----- concatenation -----------------------------------------------------

  lemma Cancel<T>(p: seq<T>, x: seq<T>, q: seq<T>, y: seq<T>)
    requires p + x == q + y && |p| == |q|
    ensures p == q && x == y
  {
    assert p == (p + x)[..|p|] && q == (q + y)[..|q|];
    assert x == (p + x)[|p|..] && y == (q + y)[|q|..];
  }

  // ----- strings -----------------------------------------------------------

  function HexDigit(d: nat): (c: char)
    requires d < 16
    ensures d < 10 ==> c as int == '0' as int + d
    ensures d >= 10 ==> c as int == 'a' as int + d - 10
  {
    if d < 10 then ('0' as int + d) as char else ('a' as int + d - 10) as char
  }

  /** One character of a JSON string, escaped as `json.dumps` does without
      `ensure_ascii`. */
  function Escape(c: char): (s: string)
    ensures s != [] && s[0] != '"'
  {
    if c == '"' then "\\\""
    else if c == '\\' then "\\\\"
    else if c == '\n' then "\\n"
    else if c == '\r' then "\\r"
    else if c == '\t' then "\\t"
    else if c as int == 0x0C then "\\f"
    else if c as int == 0x08 then "\\b"
    else if c as int < 0x20 then "\\u00" + [HexDigit(c as int / 16), HexDigit(c as int % 16)]
    else [c]
  }

  /** The characters of a JSON string, its closing quote, then `rest`. */
  function WriteQuoted(s: string, rest: string): (r: string)
    ensures r != [] && (r[0] == '"' <==> s == [])
  {
    if s == [] then ['"'] + rest else Escape(s[0]) + WriteQuoted(s[1..], rest)
  }

  // ----- values ------------------------------------------------------------

  predicate IsScalar(v: Json) { !v.Str? && !v.Arr? && !v.Obj? }

  function ScalarText(v: Json): string
    requires IsScalar(v)
  {
    match v
    case Null => "null"
    case Bool(b) => if b then "true" else "false"
    case Int(n) => IntText(n)
    case Float(r) => r
  }

  /** The compact text of a value, followed by `rest`. */
  function Write(v: Json, rest: string): string
    decreases v, 1, 0
  {
    match v
    case Str(s) => ['"'] + WriteQuoted(s, rest)
    case Arr(xs) => ['['] + (if xs == [] then [']'] + rest else Write(xs[0], WriteTail(xs[1..], rest)))
    case Obj(m) => SortedProperties(m.Keys); ['{'] + WriteFields(v, Sorted(m.Keys), rest)
    case _ => ScalarText(v) + rest
  }

  /** The remaining items of an array, its closing bracket, then `rest`. */
  function WriteTail(xs: seq<Json>, rest: string): string
    decreases xs, 0, 0
  {
    if xs == [] then [']'] + rest else [','] + Write(xs[0], WriteTail(xs[1..], rest))
  }

  function WriteFields(o: Json, keys: seq<string>, rest: string): string
    requires o.Obj? && forall k :: k in keys ==> k in o.fields
    decreases o, 0, |keys| + 2
  {
    if keys == [] then ['}'] + rest
    else WriteField(o, keys[0], WriteFieldTail(o, keys[1..], rest))
  }

  function WriteField(o: Json, key: string, rest: string): string
    requires o.Obj? && key in o.fields
    decreases o, 0, 0
  {
    ['"'] + WriteQuoted(key, [':'] + Write(o.fields[key], rest))
  }

  function WriteFieldTail(o: Json, keys: seq<string>, rest: string): string
    requires o.Obj? && forall k :: k in keys ==> k in o.fields
    decreases o, 0, |keys| + 1
  {
    if keys == [] then ['}'] + rest
    else [','] + WriteField(o, keys[0], WriteFieldTail(o, keys[1..], rest))
  }

  /** The compact text of a value. */
  function Text(v: Json): string { Write(v, "") }

  // ----- UTF-8 -------------------------------------------------------------

  /** The UTF-8 bytes of one Unicode scalar value. */
  function EncodeChar(c: char): (s: Bytes)
    ensures s != []
    ensures c as int < 0x80 ==> s == [c as int]
  {
    var u := c as int;
    if u < 0x80 then [u]
    else if u < 0x800 then [0xC0 + u / 64, 0x80 + u % 64]
    else if u < 0x10000 then [0xE0 + u / 4096, 0x80 + u / 64 % 64, 0x80 + u % 64]
    else [0xF0 + u / 262144, 0x80 + u / 4096 % 64, 0x80 + u / 64 % 64, 0x80 + u % 64]
  }

  function Utf8(s: string): Bytes
  {
    if s == [] then [] else EncodeChar(s[0]) + Utf8(s[1..])
  }

  lemma Associate<T>(a: seq<T>, b: seq<T>, c: seq<T>)
    ensures (a + b) + c == a + (b + c)
  {
  }

  lemma {:induction false} Utf8Concat(s: string, t: string)
    ensures Utf8(s + t) == Utf8(s) + Utf8(t)
  {
    if s == [] {
      assert s + t == t;
    } else {
      assert (s + t)[0] == s[0] && (s + t)[1..] == s[1..] + t;
      Utf8Concat(s[1..], t);
      Associate(EncodeChar(s[0]), Utf8(s[1..]), Utf8(t));
    }
  }

  /** `json.dumps(value, ...).encode("utf-8")`. */
  function Encode(v: Json): Bytes
  {
    Utf8(Text(v))
  }
}
