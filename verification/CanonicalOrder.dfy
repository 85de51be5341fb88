/** Sorting the names of an object: the sorted entries depend only on which entries there are. */
module CanonicalOrder {
  import opened JsStrings
  import opened JsonGrammar
  import opened Canonical
  import Sorting

  predicate HasName<T>(s: seq<Named<T>>, name: JsString) {
    exists i :: 0 <= i < |s| && s[i].name == name
  }

  lemma DistinctCons<T>(e: Named<T>, s: seq<Named<T>>)
    ensures DistinctNames([e] + s) <==> !HasName(s, e.name) && DistinctNames(s)
  {
    var all := [e] + s;
    if HasName(s, e.name) {
      var i :| 0 <= i < |s| && s[i].name == e.name;
      assert all[0].name == all[i + 1].name;
    } else if !DistinctNames(s) {
      var i, j :| 0 <= i < j < |s| && s[i].name == s[j].name;
      assert all[i + 1].name == all[j + 1].name;
    } else {
      assert forall i :: 0 < i < |all| ==> all[i] == s[i - 1];
    }
  }

  lemma NamesAreOrdered<T(!new)>()
    ensures Sorting.StrictOrder(ByName<T>)
  {
    forall x: Named<T> ensures !ByName(x, x) {
      LessIsTotalOrder(x.name, x.name, x.name);
    }
    forall x: Named<T>, y: Named<T>, z: Named<T> | ByName(x, y) && ByName(y, z) ensures ByName(x, z) {
      LessIsTotalOrder(x.name, y.name, z.name);
    }
  }

  lemma DistinctIsApart<T>(s: seq<Named<T>>)
    ensures DistinctNames(s) <==> Sorting.Apart(ByName, s)
  {
    hide Less;
    forall i, j | 0 <= i < j < |s| ensures s[i].name != s[j].name <==> Sorting.Comparable(ByName, s[i], s[j]) {
      LessIsTotalOrder(s[i].name, s[j].name, s[i].name);
      LessIsTotalOrder(s[i].name, s[i].name, s[i].name);
    }
  }

  lemma SortDistinct<T>(s: seq<Named<T>>)
    ensures DistinctNames(Sort(s)) <==> DistinctNames(s)
    ensures forall x :: x in Sort(s) <==> x in s
  {
    Sorting.SortKeeps(ByName, s);
    DistinctIsApart(s);
    DistinctIsApart(Sort(s));
  }

  /** Entries with distinct names sort to the same list in whatever order they come. */
  lemma SortIgnoresOrder<T(!new)>(a: seq<Named<T>>, b: seq<Named<T>>)
    requires DistinctNames(a) && DistinctNames(b) && forall x :: x in a <==> x in b
    ensures Sort(a) == Sort(b)
  {
    NamesAreOrdered<T>();
    DistinctIsApart(a);
    DistinctIsApart(b);
    Sorting.SortIgnoresOrder(ByName, a, b);
  }

  /** Lists that sort alike have the same entries. */
  lemma SortedFromSame<T>(a: seq<Named<T>>, b: seq<Named<T>>)
    requires Sort(a) == Sort(b)
    ensures forall x :: x in a <==> x in b
  {
    Sorting.SortKeeps(ByName, a);
    Sorting.SortKeeps(ByName, b);
    forall x ensures x in a <==> x in b {
      assert x in Sort(a) <==> x in a;
      assert x in Sort(b) <==> x in b;
    }
  }

  /** The names of a sorted list rise strictly. */
  predicate Rising<T>(s: seq<Named<T>>) {
    forall i, j :: 0 <= i < j < |s| ==> Less(s[i].name, s[j].name)
  }

  lemma SortRises<T(!new)>(s: seq<Named<T>>)
    requires DistinctNames(s)
    ensures Rising(Sort(s))
  {
    hide Less;
    NamesAreOrdered<T>();
    DistinctIsApart(s);
    Sorting.SortAscending(ByName, s);
  }

  /** A rising list is its entries sorted, however they are listed. */
  lemma RisingIsSorted<T(!new)>(s: seq<Named<T>>, rising: seq<Named<T>>)
    requires DistinctNames(s) && Rising(rising) && forall x :: x in rising <==> x in s
    ensures rising == Sort(s)
  {
    hide Less;
    NamesAreOrdered<T>();
    DistinctIsApart(s);
    Sorting.AscendingIsSorted(ByName, s, rising);
  }
}
