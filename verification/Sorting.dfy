/** The stable sort that Array.prototype.sort performs, over an order on the elements. */
module Sorting {

  type Order<!T> = (T, T) -> bool

  function Insert<T>(before: Order<T>, e: T, s: seq<T>): seq<T> {
    if s == [] || !before(s[0], e) then [e] + s else [s[0]] + Insert(before, e, s[1..])
  }

  function Sort<T>(before: Order<T>, s: seq<T>): seq<T> {
    if s == [] then [] else Insert(before, s[0], Sort(before, s[1..]))
  }

  ghost predicate StrictOrder<T(!new)>(before: Order<T>) {
    && (forall x :: !before(x, x))
    && (forall x, y, z :: before(x, y) && before(y, z) ==> before(x, z))
  }

  predicate Ascending<T>(before: Order<T>, s: seq<T>) {
    forall i, j :: 0 <= i < j < |s| ==> before(s[i], s[j])
  }

  predicate Comparable<T>(before: Order<T>, x: T, y: T) {
    before(x, y) || before(y, x)
  }

  /** No two elements are equal as far as the order goes. */
  predicate Apart<T>(before: Order<T>, s: seq<T>) {
    forall i, j :: 0 <= i < j < |s| ==> Comparable(before, s[i], s[j])
  }

  ghost predicate AllComparable<T>(before: Order<T>, e: T, s: seq<T>) {
    forall x :: x in s ==> Comparable(before, e, x)
  }

  lemma ApartCons<T>(before: Order<T>, e: T, s: seq<T>)
    ensures Apart(before, [e] + s) <==> Apart(before, s) && AllComparable(before, e, s)
  {
    var all := [e] + s;
    assert forall i :: 0 < i < |all| ==> all[i] == s[i - 1];
    if Apart(before, all) {
      assert forall i :: 0 <= i < |s| ==> s[i] == all[i + 1];
      forall x | x in s ensures Comparable(before, e, x) {
        var i :| 0 <= i < |s| && s[i] == x;
        assert all[0] == e && all[i + 1] == x;
      }
    }
  }

  lemma ComparableCons<T>(before: Order<T>, e: T, d: T, s: seq<T>, t: seq<T>)
    requires forall x :: x in t <==> x == d || x in s
    ensures AllComparable(before, e, t) <==> Comparable(before, e, d) && AllComparable(before, e, s)
  {
    assert d in t;
  }

  lemma {:induction false} InsertKeeps<T>(before: Order<T>, e: T, s: seq<T>)
    ensures forall x :: x in Insert(before, e, s) <==> x == e || x in s
    ensures Apart(before, Insert(before, e, s)) <==> Apart(before, s) && AllComparable(before, e, s)
  {
    ApartCons(before, e, s);
    if s != [] && before(s[0], e) {
      InsertKeeps(before, e, s[1..]);
      ApartCons(before, s[0], s[1..]);
      ApartCons(before, s[0], Insert(before, e, s[1..]));
      assert s == [s[0]] + s[1..];
      ComparableCons(before, s[0], e, s[1..], Insert(before, e, s[1..]));
      ComparableCons(before, e, s[0], s[1..], s);
    }
  }

  /** Sorting keeps the elements, and whether they are apart. */
  lemma {:induction false} SortKeeps<T>(before: Order<T>, s: seq<T>)
    ensures forall x :: x in Sort(before, s) <==> x in s
    ensures Apart(before, Sort(before, s)) <==> Apart(before, s)
  {
    if s != [] {
      SortKeeps(before, s[1..]);
      InsertKeeps(before, s[0], Sort(before, s[1..]));
      ApartCons(before, s[0], s[1..]);
      assert s == [s[0]] + s[1..];
      assert AllComparable(before, s[0], Sort(before, s[1..])) <==> AllComparable(before, s[0], s[1..]);
    }
  }

  lemma {:induction false} InsertAscending<T(!new)>(before: Order<T>, e: T, s: seq<T>)
    requires StrictOrder(before) && Ascending(before, s) && AllComparable(before, e, s)
    ensures Ascending(before, Insert(before, e, s))
  {
    if s == [] {
    } else if before(s[0], e) {
      InsertAscending(before, e, s[1..]);
      InsertKeeps(before, e, s[1..]);
      var rest := Insert(before, e, s[1..]);
      forall j | 0 <= j < |rest| ensures before(s[0], rest[j]) {
        assert rest[j] in rest;
        if rest[j] != e {
          var k :| 0 <= k < |s[1..]| && s[1..][k] == rest[j];
          assert s[k + 1] == rest[j];
        }
      }
    } else {
      assert s[0] in s && before(e, s[0]);
    }
  }

  lemma {:induction false} SortAscending<T(!new)>(before: Order<T>, s: seq<T>)
    requires StrictOrder(before) && Apart(before, s)
    ensures Ascending(before, Sort(before, s))
  {
    if s != [] {
      SortAscending(before, s[1..]);
      SortKeeps(before, s[1..]);
      ApartCons(before, s[0], s[1..]);
      assert s == [s[0]] + s[1..];
      InsertAscending(before, s[0], Sort(before, s[1..]));
    }
  }

  /** A list that is in order already stays as it is. */
  lemma {:induction false} SortedStays<T(!new)>(before: Order<T>, s: seq<T>)
    requires StrictOrder(before) && Ascending(before, s)
    ensures Sort(before, s) == s
  {
    if s != [] {
      SortedStays(before, s[1..]);
      assert s == [s[0]] + s[1..];
      assert |s| > 1 ==> before(s[0], s[1]);
    }
  }

  lemma BothOrNeither<T>(a: seq<T>, b: seq<T>)
    requires forall x :: x in a <==> x in b
    ensures a == [] <==> b == []
  {
    if a != [] {
      assert a[0] in b;
    }
    if b != [] {
      assert b[0] in a;
    }
  }

  lemma {:induction false} AscendingIsUnique<T(!new)>(before: Order<T>, a: seq<T>, b: seq<T>)
    requires StrictOrder(before) && Ascending(before, a) && Ascending(before, b) && forall x :: x in a <==> x in b
    ensures a == b
    decreases |a|
  {
    BothOrNeither(a, b);
    if a != [] {
      assert a[0] in b && b[0] in a;
      assert a[0] == b[0];
      forall x ensures x in a[1..] <==> x in b[1..] {
        assert x in a <==> x in b;
      }
      AscendingIsUnique(before, a[1..], b[1..]);
      assert a == [a[0]] + a[1..] && b == [b[0]] + b[1..];
    }
  }

  /** Lists whose elements are apart sort alike in whatever order they come. */
  lemma SortIgnoresOrder<T(!new)>(before: Order<T>, a: seq<T>, b: seq<T>)
    requires StrictOrder(before) && Apart(before, a) && Apart(before, b) && forall x :: x in a <==> x in b
    ensures Sort(before, a) == Sort(before, b)
  {
    SortAscending(before, a);
    SortAscending(before, b);
    SortKeeps(before, a);
    SortKeeps(before, b);
    AscendingIsUnique(before, Sort(before, a), Sort(before, b));
  }

  /** A list that is in order is what its elements sort to. */
  lemma AscendingIsSorted<T(!new)>(before: Order<T>, s: seq<T>, ascending: seq<T>)
    requires StrictOrder(before) && Apart(before, s) && Ascending(before, ascending) && forall x :: x in ascending <==> x in s
    ensures ascending == Sort(before, s)
  {
    SortAscending(before, s);
    SortKeeps(before, s);
    AscendingIsUnique(before, ascending, Sort(before, s));
  }
}
