/** Python's `sorted`: a sorted permutation, and when such a permutation is unique. */
module Sorting {

  /** Reflexive, transitive and total, as the comparison of the sort keys is. */
  ghost predicate TotalPreorder<T(!new)>(le: (T, T) -> bool) {
    && (forall x, y :: le(x, y) || le(y, x))
    && (forall x, y, z :: le(x, y) && le(y, z) ==> le(x, z))
  }

  ghost predicate Sorted<T>(s: seq<T>, le: (T, T) -> bool) {
    forall i, j | 0 <= i < j < |s| :: le(s[i], s[j])
  }

  /** No two different members of s compare equal in both directions. */
  ghost predicate AntisymmetricOn<T>(s: seq<T>, le: (T, T) -> bool) {
    forall i, j | 0 <= i < |s| && 0 <= j < |s| :: le(s[i], s[j]) && le(s[j], s[i]) ==> s[i] == s[j]
  }

  function Insert<T>(x: T, s: seq<T>, le: (T, T) -> bool): (r: seq<T>)
    ensures multiset(r) == multiset{x} + multiset(s)
    ensures |r| == |s| + 1
  {
    if s == [] then [x]
    else if le(x, s[0]) then [x] + s
    else
      assert s == [s[0]] + s[1..];
      [s[0]] + Insert(x, s[1..], le)
  }

  function SortBy<T>(s: seq<T>, le: (T, T) -> bool): (r: seq<T>)
    ensures multiset(r) == multiset(s)
    ensures |r| == |s|
  {
    if s == [] then []
    else
      assert s == [s[0]] + s[1..];
      Insert(s[0], SortBy(s[1..], le), le)
  }

  lemma {:induction false} InsertSorted<T(!new)>(x: T, s: seq<T>, le: (T, T) -> bool)
    requires TotalPreorder(le) && Sorted(s, le)
    ensures Sorted(Insert(x, s, le), le)
  {
    if s != [] && !le(x, s[0]) {
      var tail := Insert(x, s[1..], le);
      InsertSorted(x, s[1..], le);
      forall j | 0 <= j < |tail| ensures le(s[0], tail[j]) {
        assert tail[j] in multiset(tail);
        assert tail[j] == x || tail[j] in s[1..];
      }
    }
  }

  lemma {:induction false} SortBySorted<T(!new)>(s: seq<T>, le: (T, T) -> bool)
    requires TotalPreorder(le)
    ensures Sorted(SortBy(s, le), le)
  {
    if s != [] {
      SortBySorted(s[1..], le);
      InsertSorted(s[0], SortBy(s[1..], le), le);
    }
  }

  /** Two sorted arrangements of the same items are the same list. */
  lemma {:induction false} SortedUnique<T>(a: seq<T>, b: seq<T>, le: (T, T) -> bool)
    requires Sorted(a, le) && Sorted(b, le)
    requires multiset(a) == multiset(b)
    requires AntisymmetricOn(a, le)
    ensures a == b
  {
    assert |a| == |multiset(a)| == |multiset(b)| == |b|;
    if a != [] {
      SameHead(a, b, le);
      TailsAgree(a, b);
      forall i, j | 0 <= i < |a[1..]| && 0 <= j < |a[1..]| && le(a[1..][i], a[1..][j]) && le(a[1..][j], a[1..][i])
        ensures a[1..][i] == a[1..][j]
      {
        assert a[1..][i] == a[i + 1] && a[1..][j] == a[j + 1];
      }
      SortedUnique(a[1..], b[1..], le);
      assert a == [a[0]] + a[1..] && b == [b[0]] + b[1..];
    }
  }

  lemma TailsAgree<T>(a: seq<T>, b: seq<T>)
    requires a != [] && b != [] && a[0] == b[0] && multiset(a) == multiset(b)
    ensures multiset(a[1..]) == multiset(b[1..])
  {
    assert a == [a[0]] + a[1..] && b == [b[0]] + b[1..];
    assert multiset(a[1..]) == multiset(a) - multiset{a[0]};
    assert multiset(b[1..]) == multiset(b) - multiset{b[0]};
  }

  lemma SameHead<T>(a: seq<T>, b: seq<T>, le: (T, T) -> bool)
    requires Sorted(a, le) && Sorted(b, le)
    requires multiset(a) == multiset(b)
    requires AntisymmetricOn(a, le)
    requires a != [] && b != []
    ensures a[0] == b[0]
  {
    assert b[0] in multiset(a) && a[0] in multiset(b);
    var i :| 0 <= i < |a| && a[i] == b[0];
    var j :| 0 <= j < |b| && b[j] == a[0];
    if i != 0 && j != 0 {
      assert le(a[0], a[i]) && le(b[0], b[j]);
    }
  }

  /** Sorting forgets the order in which the items arrived. */
  lemma SortByCanonical<T(!new)>(a: seq<T>, b: seq<T>, le: (T, T) -> bool)
    requires TotalPreorder(le)
    requires multiset(a) == multiset(b)
    requires AntisymmetricOn(a, le)
    ensures SortBy(a, le) == SortBy(b, le)
  {
    SortBySorted(a, le);
    SortBySorted(b, le);
    var sa := SortBy(a, le);
    forall i, j | 0 <= i < |sa| && 0 <= j < |sa| && le(sa[i], sa[j]) && le(sa[j], sa[i])
      ensures sa[i] == sa[j]
    {
      assert sa[i] in multiset(sa) && sa[j] in multiset(sa);
      assert sa[i] in a && sa[j] in a;
      var p :| 0 <= p < |a| && a[p] == sa[i];
      var q :| 0 <= q < |a| && a[q] == sa[j];
    }
    SortedUnique(sa, SortBy(b, le), le);
  }

  /** x stands before y in s. */
  ghost predicate Before<T>(x: T, y: T, s: seq<T>) {
    exists i, j :: 0 <= i < j < |s| && s[i] == x && s[j] == y
  }

  /** Of members of t, those that compare equal keep the order they have in s. */
  ghost predicate KeepsTies<T(!new)>(t: seq<T>, s: seq<T>, le: (T, T) -> bool) {
    forall i, j | 0 <= i < j < |t| && le(t[j], t[i]) :: Before(t[i], t[j], s)
  }

  lemma BeforeTail<T>(x: T, y: T, s: seq<T>)
    requires s != [] && Before(x, y, s[1..])
    ensures Before(x, y, s)
  {
    var i, j :| 0 <= i < j < |s[1..]| && s[1..][i] == x && s[1..][j] == y;
    assert s[i + 1] == x && s[j + 1] == y;
  }

  lemma BeforeHead<T>(y: T, s: seq<T>)
    requires s != [] && y in s[1..]
    ensures Before(s[0], y, s)
  {
    var j :| 0 <= j < |s[1..]| && s[1..][j] == y;
    assert s[j + 1] == y;
  }

  lemma {:induction false} InsertKeepsTies<T(!new)>(s: seq<T>, t: seq<T>, le: (T, T) -> bool)
    requires s != [] && (forall y | y in t :: y in s[1..])
    requires forall i, j | 0 <= i < j < |t| && le(t[j], t[i]) :: Before(t[i], t[j], s)
    ensures KeepsTies(Insert(s[0], t, le), s, le)
  {
    var x := s[0];
    if t != [] && !le(x, t[0]) {
      var tail := Insert(x, t[1..], le);
      InsertKeepsTies(s, t[1..], le);
      forall j | 0 <= j < |tail| && le(tail[j], t[0]) ensures Before(t[0], tail[j], s) {
        assert tail[j] in multiset(tail);
        assert tail[j] == x || tail[j] in t[1..];
      }
    } else {
      forall j | 0 <= j < |t| ensures Before(x, t[j], s) {
        BeforeHead(t[j], s);
      }
    }
  }

  /** The sort is stable: members that compare equal keep their order. */
  lemma {:induction false} SortByStable<T(!new)>(s: seq<T>, le: (T, T) -> bool)
    ensures KeepsTies(SortBy(s, le), s, le)
  {
    if s != [] {
      var t := SortBy(s[1..], le);
      SortByStable(s[1..], le);
      SameMembers(s[1..], t);
      forall i, j | 0 <= i < j < |t| && le(t[j], t[i]) ensures Before(t[i], t[j], s) {
        BeforeTail(t[i], t[j], s);
      }
      InsertKeepsTies(s, t, le);
    }
  }

  /** A list less one of its places. */
  function Without<T>(s: seq<T>, k: nat): seq<T>
    requires k < |s|
  {
    s[..k] + s[k + 1..]
  }

  lemma WithoutCounts<T>(s: seq<T>, k: nat)
    requires k < |s|
    ensures multiset(s) == multiset{s[k]} + multiset(Without(s, k)) && |Without(s, k)| == |s| - 1
  {
    assert s == s[..k] + [s[k]] + s[k + 1..];
  }

  lemma SameMembers<T>(a: seq<T>, b: seq<T>)
    requires multiset(a) == multiset(b)
    ensures |a| == |b| && forall x :: x in a <==> x in b
  {
    assert |multiset(a)| == |a| && |multiset(b)| == |b|;
    forall x ensures x in a <==> x in b {
      assert x in a <==> x in multiset(a);
      assert x in b <==> x in multiset(b);
    }
  }

  ghost predicate Distinct<T>(s: seq<T>) {
    forall i, j | 0 <= i < j < |s| :: s[i] != s[j]
  }

  lemma {:induction false} DistinctCounts<T>(s: seq<T>, x: T)
    requires Distinct(s)
    ensures multiset(s)[x] <= 1
  {
    if s != [] {
      assert s == s[..|s| - 1] + [s[|s| - 1]];
      DistinctCounts(s[..|s| - 1], x);
      if x == s[|s| - 1] {
        assert x !in s[..|s| - 1];
      }
    }
  }

  lemma PermutationDistinct<T>(a: seq<T>, b: seq<T>)
    requires Distinct(a) && multiset(a) == multiset(b)
    ensures Distinct(b)
  {
    forall i, j | 0 <= i < j < |b| ensures b[i] != b[j] {
      if b[i] == b[j] {
        assert b == b[..i] + [b[i]] + b[i + 1..j] + [b[j]] + b[j + 1..];
        assert multiset(b)[b[i]] >= 2;
        DistinctCounts(a, b[i]);
      }
    }
  }
}
