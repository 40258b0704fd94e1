// Stable sorting by a comparison, and why the sorted order of a batch does not depend on the order
// in which its elements arrived.

module Sorting {
  import opened Wrappers

  ghost predicate StrictOrder<T(!new)>(less: (T, T) -> bool) {
    && (forall a :: !less(a, a))
    && (forall a, b, c :: less(a, b) && less(b, c) ==> less(a, c))
  }

  ghost predicate StrictlySorted<T>(less: (T, T) -> bool, s: seq<T>) {
    forall i, j :: 0 <= i < j < |s| ==> less(s[i], s[j])
  }

  /** Any two different elements of the sequence compare one way or the other. */
  ghost predicate Comparable<T>(less: (T, T) -> bool, s: seq<T>) {
    && Distinct(s)
    && forall a, b :: a in s && b in s && a != b ==> less(a, b) || less(b, a)
  }

  /** Puts `x` after everything that does not come later than it. */
  function Insert<T>(less: (T, T) -> bool, sorted: seq<T>, x: T): (r: seq<T>)
    ensures multiset(r) == multiset(sorted) + multiset{x}
  {
    if sorted == [] then [x]
    else if less(x, sorted[|sorted| - 1]) then
      assert sorted == sorted[..|sorted| - 1] + [sorted[|sorted| - 1]];
      Insert(less, sorted[..|sorted| - 1], x) + [sorted[|sorted| - 1]]
    else sorted + [x]
  }

  function SortBy<T>(less: (T, T) -> bool, s: seq<T>): (r: seq<T>)
    ensures multiset(r) == multiset(s)
  {
    if s == [] then []
    else
      assert s == s[..|s| - 1] + [s[|s| - 1]];
      Insert(less, SortBy(less, s[..|s| - 1]), s[|s| - 1])
  }

  lemma SameElements<T>(s: seq<T>, r: seq<T>)
    requires multiset(s) == multiset(r)
    ensures Elements(s) == Elements(r) && |s| == |r|
  {
    forall x ensures x in s <==> x in r {
      assert x in s <==> x in multiset(s);
      assert x in r <==> x in multiset(r);
    }
    assert |multiset(s)| == |s| && |multiset(r)| == |r|;
  }

  lemma {:induction false} InsertSorts<T(!new)>(less: (T, T) -> bool, sorted: seq<T>, x: T)
    requires StrictOrder(less) && StrictlySorted(less, sorted)
    requires forall y :: y in sorted ==> less(x, y) || less(y, x)
    ensures StrictlySorted(less, Insert(less, sorted, x))
  {
    if sorted != [] {
      var init, last := sorted[..|sorted| - 1], sorted[|sorted| - 1];
      if less(x, last) {
        InsertSorts(less, init, x);
        var r := Insert(less, init, x);
        SameElements(r, init + [x]);
        forall i | 0 <= i < |r| ensures less(r[i], last) {
          assert r[i] in Elements(init + [x]);
        }
      }
    }
  }

  lemma {:induction false} SortSorts<T(!new)>(less: (T, T) -> bool, s: seq<T>)
    requires StrictOrder(less) && Comparable(less, s)
    ensures StrictlySorted(less, SortBy(less, s))
    ensures Elements(SortBy(less, s)) == Elements(s)
  {
    SameElements(s, SortBy(less, s));
    if s != [] {
      var init, last := s[..|s| - 1], s[|s| - 1];
      SortSorts(less, init);
      forall y | y in SortBy(less, init) ensures less(last, y) || less(y, last) {
        assert y in Elements(init) && last in s;
      }
      InsertSorts(less, SortBy(less, init), last);
    }
  }

  /** A strictly sorted sequence is determined by the set of its elements. */
  lemma {:induction false} SortedIsUnique<T(!new)>(less: (T, T) -> bool, a: seq<T>, b: seq<T>)
    requires StrictOrder(less) && StrictlySorted(less, a) && StrictlySorted(less, b)
    requires Elements(a) == Elements(b)
    ensures a == b
  {
    EmptyElements(a);
    EmptyElements(b);
    if a != [] {
      SameHead(less, a, b);
      TailElements(less, a);
      TailElements(less, b);
      SortedIsUnique(less, a[1..], b[1..]);
      assert a == [a[0]] + a[1..] && b == [b[0]] + b[1..];
    }
  }

  lemma EmptyElements<T>(s: seq<T>)
    ensures Elements(s) == {} <==> s == []
  {
    if s != [] {
      assert s[0] in Elements(s);
    }
  }

  lemma SameHead<T(!new)>(less: (T, T) -> bool, a: seq<T>, b: seq<T>)
    requires StrictOrder(less) && StrictlySorted(less, a) && StrictlySorted(less, b)
    requires a != [] && b != [] && Elements(a) == Elements(b)
    ensures a[0] == b[0]
  {
    assert a[0] in Elements(b) && b[0] in Elements(a);
    HeadIsFirst(less, a, b[0]);
    HeadIsFirst(less, b, a[0]);
  }

  lemma HeadIsFirst<T>(less: (T, T) -> bool, s: seq<T>, x: T)
    requires StrictlySorted(less, s) && x in s
    ensures x == s[0] || less(s[0], x)
  {
  }

  lemma TailElements<T(!new)>(less: (T, T) -> bool, s: seq<T>)
    requires StrictOrder(less) && StrictlySorted(less, s) && s != []
    ensures Elements(s[1..]) == Elements(s) - {s[0]}
  {
  }

  /** Batches with the same elements sort to the same sequence, in whatever order they came. */
  lemma ArrivalOrderDoesNotMatter<T(!new)>(less: (T, T) -> bool, s: seq<T>, r: seq<T>)
    requires StrictOrder(less) && Comparable(less, s) && Comparable(less, r)
    requires Elements(s) == Elements(r)
    ensures SortBy(less, s) == SortBy(less, r)
  {
    SortSorts(less, s);
    SortSorts(less, r);
    SortedIsUnique(less, SortBy(less, s), SortBy(less, r));
  }
}
