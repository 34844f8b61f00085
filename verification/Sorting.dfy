/** The library sort: a permutation of the input in the order of a key. */
module Sorting {

  ghost predicate Ordering<T(!new)>(leq: (T, T) -> bool) {
    && (forall x, y :: leq(x, y) || leq(y, x))
    && (forall x, y, z :: leq(x, y) && leq(y, z) ==> leq(x, z))
  }

  predicate SortedBy<T>(s: seq<T>, leq: (T, T) -> bool) {
    forall i, j :: 0 <= i < j < |s| ==> leq(s[i], s[j])
  }

  /** `s` with `x` put after the elements that may precede it. */
  function Inserted<T>(s: seq<T>, x: T, leq: (T, T) -> bool): seq<T> {
    if s == [] then [x]
    else if leq(s[|s| - 1], x) then s + [x]
    else Inserted(s[..|s| - 1], x, leq) + [s[|s| - 1]]
  }

  function Sort<T>(s: seq<T>, leq: (T, T) -> bool): seq<T> {
    if s == [] then [] else Inserted(Sort(s[..|s| - 1], leq), s[|s| - 1], leq)
  }

  lemma {:induction false} InsertedMultiset<T>(s: seq<T>, x: T, leq: (T, T) -> bool)
    ensures multiset(Inserted(s, x, leq)) == multiset(s) + multiset{x}
  {
    if s != [] && !leq(s[|s| - 1], x) {
      InsertedMultiset(s[..|s| - 1], x, leq);
      assert s == s[..|s| - 1] + [s[|s| - 1]];
    }
  }

  lemma InsertedFrom<T>(s: seq<T>, x: T, leq: (T, T) -> bool, i: nat)
    requires i < |Inserted(s, x, leq)|
    ensures Inserted(s, x, leq)[i] == x || Inserted(s, x, leq)[i] in s
  {
    InsertedMultiset(s, x, leq);
    assert Inserted(s, x, leq)[i] in multiset(Inserted(s, x, leq));
  }

  lemma {:induction false} InsertedSorted<T(!new)>(s: seq<T>, x: T, leq: (T, T) -> bool)
    requires Ordering(leq) && SortedBy(s, leq)
    ensures SortedBy(Inserted(s, x, leq), leq)
  {
    if s != [] && !leq(s[|s| - 1], x) {
      var before, last := s[..|s| - 1], s[|s| - 1];
      InsertedSorted(before, x, leq);
      var r := Inserted(before, x, leq);
      forall i | 0 <= i < |r| ensures leq(r[i], last) {
        InsertedFrom(before, x, leq, i);
      }
    }
  }

  lemma {:induction false} SortIs<T(!new)>(s: seq<T>, leq: (T, T) -> bool)
    requires Ordering(leq)
    ensures SortedBy(Sort(s, leq), leq) && multiset(Sort(s, leq)) == multiset(s) && |Sort(s, leq)| == |s|
  {
    if s != [] {
      SortIs(s[..|s| - 1], leq);
      InsertedSorted(Sort(s[..|s| - 1], leq), s[|s| - 1], leq);
      InsertedMultiset(Sort(s[..|s| - 1], leq), s[|s| - 1], leq);
      assert s == s[..|s| - 1] + [s[|s| - 1]];
    }
    assert |multiset(Sort(s, leq))| == |multiset(s)|;
  }

  lemma SortMembers<T(!new)>(s: seq<T>, leq: (T, T) -> bool)
    requires Ordering(leq)
    ensures forall x :: x in Sort(s, leq) <==> x in s
  {
    SortIs(s, leq);
    forall x ensures x in Sort(s, leq) <==> x in s {
      assert x in Sort(s, leq) <==> x in multiset(Sort(s, leq));
      assert x in s <==> x in multiset(s);
    }
  }

  /** A sequence in order stays as it is. */
  lemma {:induction false} SortedStays<T>(s: seq<T>, leq: (T, T) -> bool)
    requires SortedBy(s, leq)
    ensures Sort(s, leq) == s
  {
    if s != [] {
      SortedStays(s[..|s| - 1], leq);
      assert s == s[..|s| - 1] + [s[|s| - 1]];
    }
  }
  predicate Distinct<T(==)>(s: seq<T>) { forall i, j :: 0 <= i < j < |s| ==> s[i] != s[j] }

  lemma {:induction false} DistinctCounts<T>(s: seq<T>, n: nat, x: T)
    requires n <= |s| && Distinct(s)
    ensures multiset(s[..n])[x] == if x in s[..n] then 1 else 0
  {
    if n > 0 {
      DistinctCounts(s, n - 1, x);
      assert s[..n] == s[..n - 1] + [s[n - 1]];
      assert s[n - 1] !in s[..n - 1];
    }
  }

  lemma AtMostOnce<T>(s: seq<T>, x: T)
    requires Distinct(s)
    ensures multiset(s)[x] <= 1
  {
    DistinctCounts(s, |s|, x);
    assert s[..|s|] == s;
  }

  lemma TwiceCounts<T>(s: seq<T>, i: nat, j: nat)
    requires i < j < |s| && s[i] == s[j]
    ensures 2 <= multiset(s)[s[i]]
  {
    assert s == s[..j] + [s[j]] + s[j + 1..];
    assert s[i] in s[..j];
    assert 1 <= multiset(s[..j])[s[i]];
  }

  /** Sorting keeps elements apart that were apart. */
  lemma SortDistinct<T(!new)>(s: seq<T>, leq: (T, T) -> bool)
    requires Ordering(leq) && Distinct(s)
    ensures Distinct(Sort(s, leq))
  {
    var t := Sort(s, leq);
    SortIs(s, leq);
    forall i, j | 0 <= i < j < |t| ensures t[i] != t[j] {
      if t[i] == t[j] {
        AtMostOnce(s, t[i]);
        TwiceCounts(t, i, j);
      }
    }
  }
}
