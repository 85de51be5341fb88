/** Sorting by an integer key, as a subtracting comparator does. */
module IntSort {
  import Sorting

  function Before<T>(key: T -> int): (T, T) -> bool {
    (x, y) => key(x) < key(y)
  }

  function SortBy<T>(key: T -> int, s: seq<T>): seq<T> {
    Sorting.Sort(Before(key), s)
  }

  predicate Increasing<T>(key: T -> int, s: seq<T>) {
    forall i, j :: 0 <= i < j < |s| ==> key(s[i]) < key(s[j])
  }

  predicate DistinctKeys<T>(key: T -> int, s: seq<T>) {
    forall i, j :: 0 <= i < j < |s| ==> key(s[i]) != key(s[j])
  }

  /** A list that is in order already stays as it is. */
  lemma SortedStays<T(!new)>(key: T -> int, s: seq<T>)
    requires Increasing(key, s)
    ensures SortBy(key, s) == s
  {
    Sorting.SortedStays(Before(key), s);
  }

  /** Lists with distinct keys sort alike in whatever order they come. */
  lemma SortIgnoresOrder<T(!new)>(key: T -> int, a: seq<T>, b: seq<T>)
    requires DistinctKeys(key, a) && DistinctKeys(key, b) && forall x :: x in a <==> x in b
    ensures SortBy(key, a) == SortBy(key, b)
  {
    Sorting.SortIgnoresOrder(Before(key), a, b);
  }

  lemma SortKeepsDistinct<T>(key: T -> int, s: seq<T>)
    ensures DistinctKeys(key, SortBy(key, s)) <==> DistinctKeys(key, s)
  {
    Sorting.SortKeeps(Before(key), s);
    DistinctIsApart(key, s);
    DistinctIsApart(key, SortBy(key, s));
  }

  lemma DistinctIsApart<T>(key: T -> int, s: seq<T>)
    ensures DistinctKeys(key, s) <==> Sorting.Apart(Before(key), s)
  {
    forall i, j | 0 <= i < j < |s| ensures key(s[i]) != key(s[j]) <==> Sorting.Comparable(Before(key), s[i], s[j]) {
    }
  }

  /** With distinct keys the sorted list rises, and holds what the list holds. */
  lemma SortRises<T(!new)>(key: T -> int, s: seq<T>)
    ensures DistinctKeys(key, s) ==> Increasing(key, SortBy(key, s))
    ensures forall x :: x in SortBy(key, s) <==> x in s
  {
    Sorting.SortKeeps(Before(key), s);
    if DistinctKeys(key, s) {
      Sorting.SortAscending(Before(key), s);
    }
  }
}
