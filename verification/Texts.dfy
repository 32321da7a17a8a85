/** Text operations that several components share: code-point order, the sorted
    list of a set of keys, and white-space stripping. */
module Texts {

  /** `a` is at or before `b` in the code-point order that Python's `sorted` uses. */
  predicate AtOrBefore(a: string, b: string)
  {
    a == [] || (b != [] && (a[0] < b[0] || (a[0] == b[0] && AtOrBefore(a[1..], b[1..]))))
  }

  lemma {:induction false} OrderTotal(a: string, b: string)
    ensures AtOrBefore(a, b) || AtOrBefore(b, a)
  {
    if a != [] && b != [] && a[0] == b[0] {
      OrderTotal(a[1..], b[1..]);
    }
  }

  lemma {:induction false} OrderAntisymmetric(a: string, b: string)
    requires AtOrBefore(a, b) && AtOrBefore(b, a)
    ensures a == b
  {
    if a != [] && b != [] {
      OrderAntisymmetric(a[1..], b[1..]);
      assert a == [a[0]] + a[1..] && b == [b[0]] + b[1..];
    }
  }

  lemma {:induction false} OrderTransitive(a: string, b: string, c: string)
    requires AtOrBefore(a, b) && AtOrBefore(b, c)
    ensures AtOrBefore(a, c)
  {
    if a != [] && a[0] == b[0] == c[0] {
      OrderTransitive(a[1..], b[1..], c[1..]);
    }
  }

  predicate IsLeast(m: string, s: set<string>)
  {
    m in s && forall x :: x in s ==> AtOrBefore(m, x)
  }

  lemma {:induction false} LeastExists(s: set<string>)
    requires s != {}
    ensures exists m :: IsLeast(m, s)
  {
    var x :| x in s;
    if s == {x} {
      OrderTotal(x, x);
      assert IsLeast(x, s);
    } else {
      LeastExists(s - {x});
      var y :| IsLeast(y, s - {x});
      OrderTotal(x, y);
      OrderTotal(x, x);
      if AtOrBefore(x, y) {
        forall z | z in s ensures AtOrBefore(x, z) {
          if z != x { OrderTransitive(x, y, z); }
        }
        assert IsLeast(x, s);
      } else {
        assert IsLeast(y, s);
      }
    }
  }

  function Least(s: set<string>): (m: string)
    requires s != {}
    ensures m in s
  {
    LeastExists(s);
    assert forall a, b :: IsLeast(a, s) && IsLeast(b, s) ==> a == b by {
      forall a, b | IsLeast(a, s) && IsLeast(b, s) ensures a == b {
        OrderAntisymmetric(a, b);
      }
    }
    var m :| m in s && IsLeast(m, s);
    m
  }

  lemma LeastIsLeast(s: set<string>)
    requires s != {}
    ensures IsLeast(Least(s), s)
  {
    LeastExists(s);
  }

  /** `sorted(keys)`. */
  function Sorted(s: set<string>): seq<string>
  {
    if s == {} then []
    else
      var m := Least(s);
      [m] + Sorted(s - {m})
  }

  /** The sorted list holds every key exactly once, in ascending code-point order. */
  lemma {:induction false} SortedProperties(s: set<string>)
    ensures forall k :: k in Sorted(s) <==> k in s
    ensures |Sorted(s)| == |s|
    ensures forall i, j :: 0 <= i < j < |Sorted(s)| ==>
      Sorted(s)[i] != Sorted(s)[j] && AtOrBefore(Sorted(s)[i], Sorted(s)[j])
  {
    if s != {} {
      var m := Least(s);
      LeastIsLeast(s);
      SortedProperties(s - {m});
      var t := Sorted(s - {m});
      assert Sorted(s) == [m] + t;
      forall i, j | 0 <= i < j < |Sorted(s)|
        ensures Sorted(s)[i] != Sorted(s)[j] && AtOrBefore(Sorted(s)[i], Sorted(s)[j])
      {
        assert Sorted(s)[j] == t[j - 1] && t[j - 1] in t;
        if i > 0 { assert Sorted(s)[i] == t[i - 1]; }
      }
    }
  }

  /** A set is recovered from its sorted list. */
  lemma SortedInjective(s: set<string>, t: set<string>)
    requires Sorted(s) == Sorted(t)
    ensures s == t
  {
    SortedProperties(s);
    SortedProperties(t);
    forall k ensures k in s <==> k in t {
      assert k in s <==> k in Sorted(s);
    }
  }

  // ----- white space -------------------------------------------------------

  /** The code points for which Python's `str.isspace` holds. */
  predicate IsSpace(c: char)
  {
    var u := c as int;
    || 0x09 <= u <= 0x0D || 0x1C <= u <= 0x20 || u == 0x85 || u == 0xA0 || u == 0x1680
    || 0x2000 <= u <= 0x200A || u == 0x2028 || u == 0x2029 || u == 0x202F || u == 0x205F
    || u == 0x3000
  }

  function StripLeft(s: string): (r: string)
    ensures |r| <= |s|
    ensures r != [] ==> !IsSpace(r[0])
    ensures r == s[|s| - |r|..]
  {
    if s != [] && IsSpace(s[0]) then StripLeft(s[1..]) else s
  }

  function StripRight(s: string): (r: string)
    ensures r <= s
    ensures r != [] ==> !IsSpace(r[|r| - 1])
  {
    if s != [] && IsSpace(s[|s| - 1]) then StripRight(s[..|s| - 1]) else s
  }

  /** `str.strip()`. */
  function Strip(s: string): (r: string)
    ensures |r| <= |s|
    ensures r != [] ==> !IsSpace(r[0]) && !IsSpace(r[|r| - 1])
  {
    StripRight(StripLeft(s))
  }

  lemma StripKeeps(s: string)
    requires s != [] && !IsSpace(s[0]) && !IsSpace(s[|s| - 1])
    ensures Strip(s) == s
  {
    hide IsSpace;
    assert StripLeft(s) == s && StripRight(s) == s;
  }

  lemma StripIdempotent(s: string)
    ensures Strip(Strip(s)) == Strip(s)
  {
    var r := Strip(s);
    assert StripLeft(r) == r;
    assert StripRight(r) == r;
  }

  /** `any(ord(character) < 32 for character in value)`. */
  predicate HasControl(s: string)
  {
    exists i :: 0 <= i < |s| && s[i] as int < 32
  }

  predicate IsTokenStart(c: char)
  {
    'A' <= c <= 'Z' || 'a' <= c <= 'z' || '0' <= c <= '9'
  }

  /** The pattern `[A-Za-z0-9][A-Za-z0-9._:-]*`, matched in full. */
  predicate IsToken(s: string)
  {
    && s != []
    && IsTokenStart(s[0])
    && forall i :: 0 <= i < |s| ==> IsTokenStart(s[i]) || s[i] in "._:-"
  }

  predicate EndsWith(s: string, suffix: string)
  {
    |suffix| <= |s| && s[|s| - |suffix|..] == suffix
  }

  /** No text occurs twice. */
  predicate Distinct(texts: seq<string>)
  {
    forall i, j :: 0 <= i < j < |texts| ==> texts[i] != texts[j]
  }

  // ----- paths ---------------------------------------------------------------

  /** `value.split("/")`: the parts between slashes, at least one. */
  function Split(s: string): (parts: seq<string>)
    ensures parts != []
  {
    if s == [] then [""]
    else if s[0] == '/' then [""] + Split(s[1..])
    else
      var rest := Split(s[1..]);
      [[s[0]] + rest[0]] + rest[1..]
  }

  /** No part is empty, `.` or `..`. */
  predicate PlainParts(s: string)
  {
    forall i :: 0 <= i < |Split(s)| ==> Split(s)[i] != "" && Split(s)[i] != "." && Split(s)[i] != ".."
  }

  /** A path that starts with a drive letter and a colon. */
  predicate HasDrive(s: string)
  {
    |s| >= 2 && s[1] == ':' && ('A' <= s[0] <= 'Z' || 'a' <= s[0] <= 'z')
  }
}
