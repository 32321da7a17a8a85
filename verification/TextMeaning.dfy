/** What the shared text operations mean, apart from how they are computed. */
module TextMeaning {
  import opened Texts

  /** Code-point order: a prefix comes first, and otherwise the first difference decides. */
  ghost predicate Before(a: string, b: string)
  {
    a <= b || exists i :: DiffersAt(a, b, i) && a[i] < b[i]
  }

  predicate DiffersAt(a: string, b: string, i: int)
  {
    0 <= i < |a| && i < |b| && a[..i] == b[..i] && a[i] != b[i]
  }

  lemma {:induction false} OrderMeans(a: string, b: string)
    ensures AtOrBefore(a, b) <==> Before(a, b)
  {
    if a != [] && b != [] {
      var s, t := a[1..], b[1..];
      if a[0] == b[0] {
        OrderMeans(s, t);
        assert a == [a[0]] + s && b == [b[0]] + t;
        if s <= t { assert a <= b; }
        if a <= b { assert s <= t; }
        if i :| DiffersAt(s, t, i) && s[i] < t[i] {
          assert a[..i + 1] == [a[0]] + s[..i] && b[..i + 1] == [b[0]] + t[..i];
          assert DiffersAt(a, b, i + 1);
        }
        if i :| DiffersAt(a, b, i) && a[i] < b[i] {
          assert a[..i][1..] == s[..i - 1] && b[..i][1..] == t[..i - 1];
          assert DiffersAt(s, t, i - 1);
        }
      } else {
        assert DiffersAt(a, b, 0);
        if i :| DiffersAt(a, b, i) && a[i] < b[i] {
          if i > 0 { SameStart(a, b, i); }
        }
      }
    }
  }

  lemma SameStart(a: string, b: string, i: nat)
    requires DiffersAt(a, b, i) && i > 0
    ensures a[0] == b[0]
  {
    assert a[..i][0] == a[0] && b[..i][0] == b[0];
  }

  lemma EndsWithMeans(s: string, suffix: string)
    ensures EndsWith(s, suffix) <==> exists front :: s == front + suffix
  {
    if EndsWith(s, suffix) { assert s == s[..|s| - |suffix|] + suffix; }
  }

  /** The white space of Unicode: tab to carriage return, the four separators, space, next line,
      no-break space, and the spaces and separators further up. */
  const SPACES: set<int> := {
    9, 10, 11, 12, 13, 28, 29, 30, 31, 32, 133, 160, 5760, 8192, 8193, 8194, 8195, 8196, 8197, 8198, 8199, 8200,
    8201, 8202, 8232, 8233, 8239, 8287, 12288 }

  lemma SpaceIff(c: char)
    ensures IsSpace(c) <==> c as int in SPACES
  {
  }

  predicate AllSpace(s: string)
  {
    forall i :: 0 <= i < |s| ==> IsSpace(s[i])
  }

  lemma {:induction false} StripLeftMeans(s: string)
    ensures AllSpace(s[..|s| - |StripLeft(s)|])
  {
    hide IsSpace;
    if s != [] && IsSpace(s[0]) {
      StripLeftMeans(s[1..]);
      var t := StripLeft(s);
      assert s[..|s| - |t|] == [s[0]] + s[1..][..|s[1..]| - |t|];
    }
  }

  lemma {:induction false} StripRightMeans(s: string)
    ensures AllSpace(s[|StripRight(s)|..])
  {
    hide IsSpace;
    if s != [] && IsSpace(s[|s| - 1]) {
      var front := s[..|s| - 1];
      StripRightMeans(front);
      assert s[|StripRight(s)|..] == front[|StripRight(s)|..] + [s[|s| - 1]];
    }
  }

  /** Stripping takes white space off both ends and nothing else. */
  lemma StripMeans(s: string) returns (left: string, right: string)
    ensures s == left + Strip(s) + right && AllSpace(left) && AllSpace(right)
  {
    hide IsSpace, StripLeft, StripRight, AllSpace;
    StripLeftMeans(s);
    var t := StripLeft(s);
    StripRightMeans(t);
    left, right := s[..|s| - |t|], t[|Strip(s)|..];
    assert t == Strip(s) + right;
    assert s == left + t && left + (Strip(s) + right) == left + Strip(s) + right;
  }

  lemma StripEmptyIff(s: string)
    ensures Strip(s) == "" <==> AllSpace(s)
  {
    hide IsSpace;
    var left, right := StripMeans(s);
    if Strip(s) == "" {
      forall i | 0 <= i < |s| ensures IsSpace(s[i]) {
        if i < |left| { assert s[i] == left[i]; } else { assert s[i] == right[i - |left|]; }
      }
    } else {
      assert s[|left|] == Strip(s)[0];
    }
  }

  /** The parts put together again with slashes between them. */
  function Joined(parts: seq<string>): string
  {
    if parts == [] then "" else if |parts| == 1 then parts[0] else parts[0] + ("/" + Joined(parts[1..]))
  }

  lemma JoinedFront(c: char, parts: seq<string>)
    requires parts != []
    ensures Joined([[c] + parts[0]] + parts[1..]) == [c] + Joined(parts)
  {
    assert ([[c] + parts[0]] + parts[1..])[1..] == parts[1..];
    var rest := "/" + Joined(parts[1..]);
    assert ([c] + parts[0]) + rest == [c] + (parts[0] + rest);
  }

  lemma SplitStep(s: string)
    requires s != []
    ensures
      var rest := Split(s[1..]);
      Split(s) == if s[0] == '/' then [""] + rest else [[s[0]] + rest[0]] + rest[1..]
  {
  }

  lemma JoinedMore(part: string, parts: seq<string>)
    requires parts != []
    ensures Joined([part] + parts) == part + ("/" + Joined(parts))
  {
    assert ([part] + parts)[1..] == parts;
  }

  /** Splitting is undone by joining. */
  lemma {:induction false} SplitJoined(s: string)
    ensures Joined(Split(s)) == s
  {
    hide Split, Joined;
    if s == [] {
      EmptySplit();
    } else {
      SplitJoined(s[1..]);
      SplitStep(s);
      var rest := Split(s[1..]);
      assert s == [s[0]] + s[1..];
      if s[0] == '/' {
        JoinedMore("", rest);
        assert "" + ("/" + s[1..]) == s;
      } else {
        JoinedFront(s[0], rest);
      }
    }
  }

  lemma EmptySplit()
    ensures Split("") == [""] && Joined([""]) == ""
  {
  }

  /** No part holds a slash. */
  lemma {:induction false} SplitParts(s: string)
    ensures forall part :: part in Split(s) ==> '/' !in part
  {
    hide Split;
    if s == [] {
      EmptySplit();
    } else {
      SplitParts(s[1..]);
      SplitStep(s);
      var rest := Split(s[1..]);
      assert forall part :: part in rest[1..] ==> part in rest;
      assert rest[0] in rest && '/' !in rest[0];
    }
  }
}
