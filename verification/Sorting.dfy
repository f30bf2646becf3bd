/**
 Stable sorting, as the source's `sorted` and `list.sort` do it: elements that compare equal keep their
 input order.  Sorting is determined by the elements alone whenever no two of them compare equal.
 */
module Sorting {

  ghost predicate TotalPreorder<T(!new)>(leq: (T, T) -> bool) {
    && (forall x, y :: leq(x, y) || leq(y, x))
    && (forall x, y, z :: leq(x, y) && leq(y, z) ==> leq(x, z))
  }

  ghost predicate SortedBy<T>(leq: (T, T) -> bool, s: seq<T>) {
    forall i, j :: 0 <= i < j < |s| ==> leq(s[i], s[j])
  }

  /** No two elements at different places compare equal. */
  ghost predicate DistinctBy<T>(leq: (T, T) -> bool, s: seq<T>) {
    forall i, j :: 0 <= i < j < |s| ==> !(leq(s[i], s[j]) && leq(s[j], s[i]))
  }

  /** Put `x` behind everything that does not exceed it. */
  function Insert<T>(leq: (T, T) -> bool, s: seq<T>, x: T): (r: seq<T>)
    ensures multiset(r) == multiset(s) + multiset{x}
  {
    if s == [] then [x]
    else
      var n := |s| - 1;
      assert s == s[..n] + [s[n]];
      if leq(s[n], x) then s + [x] else Insert(leq, s[..n], x) + [s[n]]
  }

  function Sort<T>(leq: (T, T) -> bool, s: seq<T>): (r: seq<T>)
    ensures multiset(r) == multiset(s)
  {
    if s == [] then []
    else
      var n := |s| - 1;
      assert s == s[..n] + [s[n]];
      Insert(leq, Sort(leq, s[..n]), s[n])
  }

  lemma SameElements<T>(a: seq<T>, b: seq<T>)
    requires multiset(a) == multiset(b)
    ensures |a| == |b|
    ensures forall x :: x in a <==> x in b
  {
    assert |multiset(a)| == |a| && |multiset(b)| == |b|;
    forall x
      ensures x in a <==> x in b
    {
      assert x in a <==> x in multiset(a);
      assert x in b <==> x in multiset(b);
    }
  }

  lemma Place<T>(a: seq<T>, b: seq<T>, i: nat) returns (k: nat)
    requires multiset(a) == multiset(b) && i < |b|
    ensures k < |a| && a[k] == b[i]
  {
    SameElements(a, b);
    assert b[i] in a;
    k :| 0 <= k < |a| && a[k] == b[i];
  }

  lemma DropLast<T>(s: seq<T>)
    requires s != []
    ensures multiset(s[..|s| - 1]) == multiset(s) - multiset{s[|s| - 1]}
  {
    assert s == s[..|s| - 1] + [s[|s| - 1]];
  }

  lemma {:induction false} InsertKeepsSorted<T(!new)>(leq: (T, T) -> bool, s: seq<T>, x: T)
    requires TotalPreorder(leq) && SortedBy(leq, s)
    ensures SortedBy(leq, Insert(leq, s, x))
  {
    if s != [] {
      var n := |s| - 1;
      if leq(s[n], x) {
        forall i | 0 <= i < n
          ensures leq(s[i], x)
        {
          assert leq(s[i], s[n]);
        }
      } else {
        InsertKeepsSorted(leq, s[..n], x);
        var front := Insert(leq, s[..n], x);
        forall i | 0 <= i < |front|
          ensures leq(front[i], s[n])
        {
          assert front[i] in multiset(front);
          assert front[i] == x || front[i] in s[..n];
        }
      }
    }
  }

  lemma {:induction false} SortSorts<T(!new)>(leq: (T, T) -> bool, s: seq<T>)
    requires TotalPreorder(leq)
    ensures SortedBy(leq, Sort(leq, s))
  {
    if s != [] {
      SortSorts(leq, s[..|s| - 1]);
      InsertKeepsSorted(leq, Sort(leq, s[..|s| - 1]), s[|s| - 1]);
    }
  }

  /** An element that none exceeds, put last, stays last. */
  lemma SortAppendsGreatest<T(!new)>(leq: (T, T) -> bool, s: seq<T>, x: T)
    requires forall i :: 0 <= i < |s| ==> leq(s[i], x)
    ensures Sort(leq, s + [x]) == Sort(leq, s) + [x]
  {
    var sorted := Sort(leq, s);
    assert (s + [x])[..|s|] == s;
    assert Sort(leq, s + [x]) == Insert(leq, sorted, x);
    hide Sort;
    if sorted != [] {
      SameElements(s, sorted);
      assert sorted[|sorted| - 1] in s;
    }
  }

  /** Distinctness only depends on the elements. */
  lemma DistinctByPermutes<T(!new)>(leq: (T, T) -> bool, a: seq<T>, b: seq<T>)
    requires TotalPreorder(leq) && multiset(a) == multiset(b) && DistinctBy(leq, a)
    ensures DistinctBy(leq, b)
  {
    SameElements(a, b);
    forall i, j | 0 <= i < j < |b|
      ensures !(leq(b[i], b[j]) && leq(b[j], b[i]))
    {
      var k := Place(a, b, i);
      var l := Place(a, b, j);
      if b[i] == b[j] {
        TwiceIn(b, i, j);
        OnceIn(leq, a, k);
      }
    }
  }

  lemma TwiceIn<T>(s: seq<T>, i: nat, j: nat)
    requires i < j < |s| && s[i] == s[j]
    ensures multiset(s)[s[i]] >= 2
  {
    assert s == s[..j] + [s[j]] + s[j + 1..];
    assert s[i] in s[..j];
  }

  lemma {:induction false} OnceIn<T(!new)>(leq: (T, T) -> bool, s: seq<T>, k: nat)
    requires TotalPreorder(leq) && DistinctBy(leq, s) && k < |s|
    ensures multiset(s)[s[k]] == 1
  {
    assert s == s[..k] + [s[k]] + s[k + 1..];
    assert leq(s[k], s[k]);
    assert s[k] !in s[..k] && s[k] !in s[k + 1..];
  }

  lemma LastIsShared<T(!new)>(leq: (T, T) -> bool, a: seq<T>, b: seq<T>)
    requires TotalPreorder(leq) && SortedBy(leq, a) && SortedBy(leq, b) && DistinctBy(leq, a)
    requires multiset(a) == multiset(b) && a != []
    ensures |a| == |b| && a[|a| - 1] == b[|b| - 1]
  {
    SameElements(a, b);
    var n := |a| - 1;
    var k := Place(a, b, n);
    var l := Place(b, a, n);
    assert leq(a[n], a[n]);
    assert leq(a[k], a[n]) && leq(b[l], b[n]);
    assert k == n;
  }

  lemma PrefixStaysSorted<T>(leq: (T, T) -> bool, s: seq<T>, n: nat)
    requires SortedBy(leq, s) && n <= |s|
    ensures SortedBy(leq, s[..n]) && (DistinctBy(leq, s) ==> DistinctBy(leq, s[..n]))
  {
  }

  /** A sorted sequence without ties is determined by its elements. */
  lemma {:induction false} SortedIsUnique<T(!new)>(leq: (T, T) -> bool, a: seq<T>, b: seq<T>)
    requires TotalPreorder(leq) && SortedBy(leq, a) && SortedBy(leq, b) && DistinctBy(leq, a)
    requires multiset(a) == multiset(b)
    ensures a == b
  {
    if a == [] {
      SameElements(a, b);
    } else {
      hide SortedBy, DistinctBy, TotalPreorder;
      var n := |a| - 1;
      LastIsShared(leq, a, b);
      PrefixStaysSorted(leq, a, n);
      PrefixStaysSorted(leq, b, n);
      FrontsMatch(a, b, n);
      SortedIsUnique(leq, a[..n], b[..n]);
      RestoreLast(a, b, n);
    }
  }

  lemma FrontsMatch<T>(a: seq<T>, b: seq<T>, n: nat)
    requires |a| == |b| == n + 1 && a[n] == b[n] && multiset(a) == multiset(b)
    ensures multiset(a[..n]) == multiset(b[..n])
  {
    DropLast(a);
    DropLast(b);
  }

  lemma RestoreLast<T>(a: seq<T>, b: seq<T>, n: nat)
    requires |a| == |b| == n + 1 && a[n] == b[n] && a[..n] == b[..n]
    ensures a == b
  {
    assert a == a[..n] + [a[n]] && b == b[..n] + [b[n]];
  }

  /** Sorting forgets the input order when nothing ties. */
  lemma SortIgnoresOrder<T(!new)>(leq: (T, T) -> bool, a: seq<T>, b: seq<T>)
    requires TotalPreorder(leq) && multiset(a) == multiset(b) && DistinctBy(leq, a)
    ensures Sort(leq, a) == Sort(leq, b)
  {
    SortSorts(leq, a);
    SortSorts(leq, b);
    DistinctByPermutes(leq, a, Sort(leq, a));
    SortedIsUnique(leq, Sort(leq, a), Sort(leq, b));
  }

  lemma InsertAtEnd<T>(leq: (T, T) -> bool, s: seq<T>, x: T)
    requires SortedBy(leq, s + [x])
    ensures Insert(leq, s, x) == s + [x]
  {
    if s != [] {
      var all := s + [x];
      assert leq(all[|s| - 1], all[|s|]);
    }
  }

  /** A sorted sequence is left alone. */
  lemma {:induction false} SortFixesSorted<T>(leq: (T, T) -> bool, s: seq<T>)
    requires SortedBy(leq, s)
    ensures Sort(leq, s) == s
  {
    hide SortedBy, Insert;
    if s != [] {
      var n := |s| - 1;
      assert s == s[..n] + [s[n]];
      PrefixStaysSorted(leq, s, n);
      SortFixesSorted(leq, s[..n]);
      InsertAtEnd(leq, s[..n], s[n]);
    }
  }
}
