/** The first stage that aggregation and projection share: numbered members are labelled,
    unique and consecutive from zero or one, and are put in index order. */
module NumberedMembers {
  import opened Outcomes
  import opened Json

  datatype Indexed<T> = Indexed(index: nat, item: T)

  const LABEL_PREFIX := "conversations-"
  const LABEL_SUFFIX := ".json"

  /** The index in a label `conversations-<digits>.json`. */
  function LabelIndex(name: string): Option<nat>
  {
    var p, q := |LABEL_PREFIX|, |name| - |LABEL_SUFFIX|;
    if p < q && name[..p] == LABEL_PREFIX && name[q..] == LABEL_SUFFIX
       && forall i :: p <= i < q ==> IsDigit(name[i])
    then
      assert forall i :: 0 <= i < q - p ==> name[p..q][i] == name[p + i];
      Some(NatValue(name[p..q]))
    else None
  }

  // ----- sorting by index -------------------------------------------------------

  function Insert<T>(e: Indexed<T>, s: seq<Indexed<T>>): seq<Indexed<T>>
  {
    if s == [] || e.index <= s[0].index then [e] + s else [s[0]] + Insert(e, s[1..])
  }

  /** `parsed.sort(key=lambda item: item[0])`. */
  function SortIndexed<T>(s: seq<Indexed<T>>): seq<Indexed<T>>
  {
    if s == [] then [] else Insert(s[0], SortIndexed(s[1..]))
  }

  ghost predicate Ascending<T>(s: seq<Indexed<T>>)
  {
    forall i, j :: 0 <= i < j < |s| ==> s[i].index <= s[j].index
  }

  ghost predicate StrictlyAscending<T>(s: seq<Indexed<T>>)
  {
    forall i, j :: 0 <= i < j < |s| ==> s[i].index < s[j].index
  }

  lemma {:induction false} InsertKeeps<T>(e: Indexed<T>, s: seq<Indexed<T>>)
    ensures multiset(Insert(e, s)) == multiset(s) + multiset{e} && |Insert(e, s)| == |s| + 1
  {
    if s != [] && e.index > s[0].index {
      InsertKeeps(e, s[1..]);
      assert s == [s[0]] + s[1..];
    }
  }

  lemma {:induction false} InsertSorts<T>(e: Indexed<T>, s: seq<Indexed<T>>)
    requires Ascending(s)
    ensures Ascending(Insert(e, s))
    ensures forall j :: 0 <= j < |Insert(e, s)| ==> Insert(e, s)[j] == e || Insert(e, s)[j] in s
  {
    if s != [] && e.index > s[0].index {
      InsertSorts(e, s[1..]);
      var t := Insert(e, s[1..]);
      assert Insert(e, s) == [s[0]] + t;
      forall j | 0 <= j < |t| ensures s[0].index <= t[j].index && (t[j] == e || t[j] in s) {
        if t[j] != e { var k :| 0 <= k < |s[1..]| && s[1..][k] == t[j]; }
      }
    }
  }

  lemma {:induction false} SortSorts<T>(s: seq<Indexed<T>>)
    ensures Ascending(SortIndexed(s)) && multiset(SortIndexed(s)) == multiset(s)
    ensures |SortIndexed(s)| == |s|
  {
    if s != [] {
      hide Insert;
      SortSorts(s[1..]);
      InsertSorts(s[0], SortIndexed(s[1..]));
      InsertKeeps(s[0], SortIndexed(s[1..]));
      assert s == [s[0]] + s[1..];
    }
  }

  lemma SameHead<T>(s: seq<Indexed<T>>, t: seq<Indexed<T>>)
    requires StrictlyAscending(s) && Ascending(t) && multiset(s) == multiset(t) && s != [] && t != []
    ensures s[0] == t[0]
  {
    assert t[0] in multiset(s) && s[0] in multiset(t);
    var i :| 0 <= i < |s| && s[i] == t[0];
    var j :| 0 <= j < |t| && t[j] == s[0];
  }

  lemma TailMultiset<T>(s: seq<T>)
    requires s != []
    ensures multiset(s[1..]) == multiset(s) - multiset{s[0]}
  {
    assert s == [s[0]] + s[1..];
  }

  /** A strictly ascending list is the only ascending arrangement of its elements. */
  lemma {:induction false} UniqueArrangement<T>(s: seq<Indexed<T>>, t: seq<Indexed<T>>)
    requires StrictlyAscending(s) && Ascending(t) && multiset(s) == multiset(t)
    ensures s == t
  {
    assert |s| == |multiset(s)| && |multiset(t)| == |t|;
    if s != [] {
      SameHead(s, t);
      TailMultiset(s);
      TailMultiset(t);
      UniqueArrangement(s[1..], t[1..]);
      assert s == [s[0]] + s[1..] && t == [t[0]] + t[1..];
    }
  }

  // ----- consecutive indices -------------------------------------------------------

  /** The indices are 0, 1, 2, ... or 1, 2, 3, ... in this order. */
  predicate Consecutive<T>(s: seq<Indexed<T>>)
  {
    && s != []
    && s[0].index <= 1
    && forall i :: 0 <= i < |s| ==> s[i].index == s[0].index + i
  }

  lemma SortIsOrderFree<T>(s: seq<Indexed<T>>, t: seq<Indexed<T>>)
    requires multiset(s) == multiset(t) && Consecutive(SortIndexed(s))
    ensures SortIndexed(s) == SortIndexed(t)
  {
    SortSorts(s);
    SortSorts(t);
    UniqueArrangement(SortIndexed(s), SortIndexed(t));
  }

  lemma TwoPositions<T>(s: seq<T>, i: nat, j: nat)
    requires i < j < |s| && s[i] == s[j]
    ensures multiset(s)[s[i]] >= 2
  {
    assert s == s[..i] + [s[i]] + s[i + 1..j] + [s[j]] + s[j + 1..];
  }

  lemma {:induction false} AtMostOnce<T>(s: seq<Indexed<T>>, x: Indexed<T>)
    requires StrictlyAscending(s)
    ensures multiset(s)[x] <= 1
    ensures x !in s ==> multiset(s)[x] == 0
  {
    if s != [] {
      AtMostOnce(s[1..], x);
      assert s == [s[0]] + s[1..];
      assert s[0] !in s[1..];
    }
  }

  /** Consecutive indices after sorting means no index came twice before it. */
  lemma ConsecutiveDistinct<T>(s: seq<Indexed<T>>, i: nat, j: nat)
    requires Consecutive(SortIndexed(s)) && i < j < |s|
    ensures s[i].index != s[j].index
  {
    hide SortIndexed;
    SortSorts(s);
    var t := SortIndexed(s);
    assert s[i] in multiset(t) && s[j] in multiset(t);
    var p :| 0 <= p < |t| && t[p] == s[i];
    var q :| 0 <= q < |t| && t[q] == s[j];
    if s[i].index == s[j].index {
      assert p == q;
      TwoPositions(s, i, j);
      AtMostOnce(t, s[i]);
      assert false;
    }
  }

  predicate HasIndex<T>(s: seq<Indexed<T>>, k: nat)
  {
    exists i :: 0 <= i < |s| && s[i].index == k
  }

  /** The indices are exactly `first`, `first + 1`, and so on, one per entry. */
  ghost predicate IndicesFrom<T>(s: seq<Indexed<T>>, first: nat)
  {
    forall k: nat :: HasIndex(s, k) <==> first <= k < first + |s|
  }

  /** The indices of accepted members are exactly 0..n-1 or 1..n. */
  lemma ConsecutiveIndexSet<T>(s: seq<Indexed<T>>)
    requires Consecutive(SortIndexed(s))
    ensures
      var first := SortIndexed(s)[0].index;
      first <= 1 && IndicesFrom(s, first)
  {
    hide SortIndexed;
    SortSorts(s);
    var t := SortIndexed(s);
    var first := t[0].index;
    forall k: nat ensures HasIndex(s, k) <==> first <= k < first + |s| {
      if first <= k < first + |s| {
        assert t[k - first] in multiset(s);
        var i :| 0 <= i < |s| && s[i] == t[k - first];
      }
      if HasIndex(s, k) {
        var i :| 0 <= i < |s| && s[i].index == k;
        assert s[i] in multiset(t);
        var p :| 0 <= p < |t| && t[p] == s[i];
      }
    }
  }

  /** So many different indices in ascending order need as many places. */
  lemma {:induction false} Room<T>(t: seq<Indexed<T>>, first: nat, m: nat, c: nat)
    requires Ascending(t) && c <= |t| && forall k :: first <= k < first + m ==> OccursBefore(t, k, c)
    ensures m <= c
  {
    if m > 0 {
      assert OccursBefore(t, first + m - 1, c);
      var q :| 0 <= q < c && t[q].index == first + m - 1;
      forall k | first <= k < first + (m - 1) ensures OccursBefore(t, k, q) {
        assert OccursBefore(t, k, c);
        var p :| 0 <= p < c && t[p].index == k;
        assert p < q;
      }
      Room(t, first, m - 1, q);
    }
  }

  predicate OccursBefore<T>(t: seq<Indexed<T>>, k: int, c: nat)
    requires c <= |t|
  {
    exists p :: 0 <= p < c && t[p].index == k
  }

  /** In an ascending list of n entries in which n successive indices occur, each is in its place. */
  lemma InPlace<T>(t: seq<Indexed<T>>, first: nat, i: nat)
    requires Ascending(t) && i < |t| && forall k :: first <= k < first + |t| ==> OccursBefore(t, k, |t|)
    ensures t[i].index == first + i
  {
    if t[i].index > first + i {
      forall k | first <= k < first + (i + 1) ensures OccursBefore(t, k, i) {
        assert OccursBefore(t, k, |t|);
        var p :| 0 <= p < |t| && t[p].index == k;
        assert p < i;
      }
      Room(t, first, i + 1, i);
    } else if t[i].index < first + i {
      var rest := t[i + 1..];
      forall k | first + i <= k < first + i + (|t| - i) ensures OccursBefore(rest, k, |rest|) {
        assert OccursBefore(t, k, |t|);
        var p :| 0 <= p < |t| && t[p].index == k;
        assert p > i && rest[p - i - 1] == t[p];
      }
      Room(rest, first + i, |t| - i, |rest|);
    }
  }

  lemma IndicesConsecutive<T>(s: seq<Indexed<T>>, first: nat)
    requires s != [] && first <= 1 && IndicesFrom(s, first)
    ensures Consecutive(SortIndexed(s))
  {
    hide SortIndexed;
    SortSorts(s);
    var t := SortIndexed(s);
    forall k | first <= k < first + |t| ensures OccursBefore(t, k, |t|) {
      assert HasIndex(s, k);
      var i :| 0 <= i < |s| && s[i].index == k;
      assert s[i] in multiset(t);
      var p :| 0 <= p < |t| && t[p] == s[i];
    }
    forall i | 0 <= i < |t| ensures t[i].index == first + i { InPlace(t, first, i); }
  }

  /** Members are in order after sorting exactly if their indices are 0..n-1 or 1..n. */
  lemma ConsecutiveIff<T>(s: seq<Indexed<T>>)
    ensures Consecutive(SortIndexed(s)) <==> s != [] && (IndicesFrom(s, 0) || IndicesFrom(s, 1))
  {
    hide SortIndexed, IndicesFrom;
    SortSorts(s);
    if Consecutive(SortIndexed(s)) { ConsecutiveIndexSet(s); }
    if s != [] && IndicesFrom(s, 0) { IndicesConsecutive(s, 0); }
    if s != [] && IndicesFrom(s, 1) { IndicesConsecutive(s, 1); }
  }
}
