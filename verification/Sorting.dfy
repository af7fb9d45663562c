/**
 * Stable sorting by a comparison, and what a second sort by another comparison does.
 */
module Sorting {
  function Insert<T>(less: (T, T) -> bool, x: T, s: seq<T>): seq<T> {
    if s == [] then [x]
    else if less(x, s[0]) then [x] + s
    else [s[0]] + Insert(less, x, s[1..])
  }

  // The stable sort: an element comes after the ones before it that are not greater.
  function SortBy<T>(less: (T, T) -> bool, rows: seq<T>): seq<T> {
    if rows == [] then [] else Insert(less, rows[|rows| - 1], SortBy(less, rows[..|rows| - 1]))
  }

  ghost predicate Strict<T(!new)>(less: (T, T) -> bool, rows: seq<T>) {
    (forall x, y :: x in rows && y in rows ==> !(less(x, y) && less(y, x))) &&
    (forall x, y, z :: x in rows && y in rows && z in rows && less(x, y) && less(y, z) ==> less(x, z))
  }

  // Elements that compare as equal are interchangeable.
  ghost predicate Weak<T(!new)>(less: (T, T) -> bool, rows: seq<T>) {
    Strict(less, rows) &&
    forall x, y, z :: x in rows && y in rows && z in rows && less(x, z) ==> less(x, y) || less(y, z)
  }

  ghost predicate TotalOn<T(!new)>(less: (T, T) -> bool, rows: seq<T>) {
    Strict(less, rows) && forall x, y :: x in rows && y in rows && x != y ==> less(x, y) || less(y, x)
  }

  ghost predicate Distinct<T(!new)>(rows: seq<T>) {
    forall i, j :: 0 <= i < j < |rows| ==> rows[i] != rows[j]
  }

  ghost predicate Sorted<T(!new)>(less: (T, T) -> bool, s: seq<T>) {
    forall i, j :: 0 <= i < j < |s| ==> less(s[i], s[j])
  }

  // First by one comparison, then by the other.
  function Then<T>(first: (T, T) -> bool, second: (T, T) -> bool): (T, T) -> bool {
    (x, y) => first(x, y) || (!first(y, x) && second(x, y))
  }

  // --- The sort is a sort ---------------------------------------------------------------------

  lemma {:induction false} InsertElements<T>(less: (T, T) -> bool, x: T, s: seq<T>)
    ensures multiset(Insert(less, x, s)) == multiset(s) + multiset{x}
  {
    if s != [] {
      assert s == [s[0]] + s[1..];
      if !less(x, s[0]) { InsertElements(less, x, s[1..]); }
    }
  }

  lemma {:induction false} SortElements<T>(less: (T, T) -> bool, rows: seq<T>)
    ensures multiset(SortBy(less, rows)) == multiset(rows) && |SortBy(less, rows)| == |rows|
  {
    if rows != [] {
      var n := |rows| - 1;
      SortElements(less, rows[..n]);
      InsertElements(less, rows[n], SortBy(less, rows[..n]));
      assert rows == rows[..n] + [rows[n]];
      assert |multiset(SortBy(less, rows))| == |SortBy(less, rows)|;
    }
  }

  lemma SameElements<T>(a: seq<T>, b: seq<T>)
    requires multiset(a) == multiset(b)
    ensures forall x :: x in a <==> x in b
  {
    forall x ensures x in a <==> x in b {
      assert x in a <==> x in multiset(a);
      assert x in b <==> x in multiset(b);
    }
  }

  lemma {:induction false} InsertSorted<T(!new)>(less: (T, T) -> bool, x: T, s: seq<T>)
    requires Sorted(less, s) && x !in s && TotalOn(less, s + [x])
    ensures Sorted(less, Insert(less, x, s))
  {
    if s != [] {
      if less(x, s[0]) {
        assert forall j :: 0 <= j < |s| ==> s[j] in s + [x];
        assert x in s + [x];
      } else {
        var t := Insert(less, x, s[1..]);
        SmallerTotal(less, s[1..] + [x], s + [x]);
        InsertSorted(less, x, s[1..]);
        InsertElements(less, x, s[1..]);
        assert x in s + [x] && s[0] in s + [x] && less(s[0], x);
        forall j | 0 <= j < |t| ensures less(s[0], t[j]) {
          assert t[j] in multiset(t);
          assert t[j] == x || t[j] in s[1..];
        }
      }
    }
  }

  lemma SmallerTotal<T(!new)>(less: (T, T) -> bool, part: seq<T>, rows: seq<T>)
    requires TotalOn(less, rows) && forall x :: x in part ==> x in rows
    ensures TotalOn(less, part)
  {
  }

  lemma {:induction false} SortIsSorted<T(!new)>(less: (T, T) -> bool, rows: seq<T>)
    requires TotalOn(less, rows) && Distinct(rows)
    ensures Sorted(less, SortBy(less, rows))
  {
    if rows != [] {
      var n := |rows| - 1;
      var s := SortBy(less, rows[..n]);
      SmallerTotal(less, rows[..n], rows);
      SortIsSorted(less, rows[..n]);
      SortElements(less, rows[..n]);
      SameElements(s, rows[..n]);
      SmallerTotal(less, s + [rows[n]], rows);
      InsertSorted(less, rows[n], s);
    }
  }

  // Equal elements may stand in any order, but no later one is smaller.
  ghost predicate WeaklySorted<T(!new)>(less: (T, T) -> bool, s: seq<T>) {
    forall i, j :: 0 <= i < j < |s| ==> !less(s[j], s[i])
  }

  lemma {:induction false} InsertWeaklySorted<T(!new)>(less: (T, T) -> bool, x: T, s: seq<T>)
    requires WeaklySorted(less, s) && Weak(less, s + [x])
    ensures WeaklySorted(less, Insert(less, x, s))
  {
    if s != [] {
      assert x in s + [x] && s[0] in s + [x] && forall k :: 0 <= k < |s| ==> s[k] in s + [x];
      if !less(x, s[0]) {
        var t := Insert(less, x, s[1..]);
        assert forall y :: y in s[1..] + [x] ==> y in s + [x];
        InsertWeaklySorted(less, x, s[1..]);
        InsertElements(less, x, s[1..]);
        forall j | 0 <= j < |t| ensures !less(t[j], s[0]) {
          assert t[j] in multiset(t);
          assert t[j] == x || t[j] in s[1..];
        }
      }
    }
  }

  lemma {:induction false} SortIsWeaklySorted<T(!new)>(less: (T, T) -> bool, rows: seq<T>)
    requires Weak(less, rows)
    ensures WeaklySorted(less, SortBy(less, rows))
  {
    if rows != [] {
      var n := |rows| - 1;
      var s := SortBy(less, rows[..n]);
      SortIsWeaklySorted(less, rows[..n]);
      SortElements(less, rows[..n]);
      SameElements(s, rows[..n]);
      assert forall y :: y in s + [rows[n]] ==> y in rows;
      InsertWeaklySorted(less, rows[n], s);
    }
  }

  /** There is only one way to sort distinct elements by a strict total order. */
  lemma {:induction false} SortedIsUnique<T(!new)>(less: (T, T) -> bool, a: seq<T>, b: seq<T>)
    requires Sorted(less, a) && Sorted(less, b) && multiset(a) == multiset(b) && Strict(less, a)
    ensures a == b
    decreases |a|
  {
    assert |a| == |multiset(a)| == |multiset(b)| == |b|;
    if a != [] {
      SameElements(a, b);
      FirstIsLeast(less, a, b);
      TailElements(a);
      TailElements(b);
      SmallerStrict(less, a[1..], a);
      SortedIsUnique(less, a[1..], b[1..]);
    }
  }

  lemma TailElements<T>(a: seq<T>)
    requires a != []
    ensures multiset(a[1..]) == multiset(a) - multiset{a[0]} && a == [a[0]] + a[1..]
  {
    assert a == [a[0]] + a[1..];
  }

  lemma SmallerStrict<T(!new)>(less: (T, T) -> bool, part: seq<T>, rows: seq<T>)
    requires Strict(less, rows) && forall x :: x in part ==> x in rows
    ensures Strict(less, part)
  {
  }

  lemma FirstIsLeast<T(!new)>(less: (T, T) -> bool, a: seq<T>, b: seq<T>)
    requires Sorted(less, a) && Sorted(less, b) && Strict(less, a) && a != [] && b != []
    requires forall x :: x in a <==> x in b
    ensures a[0] == b[0]
  {
    assert a[0] in a && b[0] in b;
    assert a[0] in b && b[0] in a;
    var i :| 0 <= i < |b| && b[i] == a[0];
    var j :| 0 <= j < |a| && a[j] == b[0];
  }

  // --- Two passes -----------------------------------------------------------------------------

  lemma {:induction false} SameInsert<T>(less: (T, T) -> bool, other: (T, T) -> bool, x: T, s: seq<T>)
    requires forall y :: y in s ==> less(x, y) == other(x, y)
    ensures Insert(less, x, s) == Insert(other, x, s)
  {
    if s != [] { SameInsert(less, other, x, s[1..]); }
  }

  /** Comparisons that agree on the rows sort them alike. */
  lemma {:induction false} SameSort<T(!new)>(less: (T, T) -> bool, other: (T, T) -> bool, rows: seq<T>)
    requires forall x, y :: x in rows && y in rows ==> less(x, y) == other(x, y)
    ensures SortBy(less, rows) == SortBy(other, rows)
  {
    if rows != [] {
      var n := |rows| - 1;
      SameSort(less, other, rows[..n]);
      SortElements(less, rows[..n]);
      SameElements(SortBy(less, rows[..n]), rows[..n]);
      SameInsert(less, other, rows[n], SortBy(less, rows[..n]));
    }
  }

  // On rows that are already in the second order, the first comparison alone decides as both do.
  lemma {:induction false} SortTiedRows<T(!new)>(first: (T, T) -> bool, second: (T, T) -> bool, rows: seq<T>)
    requires Sorted(second, rows) && Strict(second, rows)
    ensures SortBy(first, rows) == SortBy(Then(first, second), rows)
  {
    if rows != [] {
      var n := |rows| - 1;
      var x, s := rows[n], SortBy(first, rows[..n]);
      SortTiedRows(first, second, rows[..n]);
      SortElements(first, rows[..n]);
      SameElements(s, rows[..n]);
      forall y | y in s ensures first(x, y) == Then(first, second)(x, y) {
        var k :| 0 <= k < n && rows[..n][k] == y;
        assert second(rows[k], rows[n]);
        assert y in rows && x in rows;
      }
      SameInsert(first, Then(first, second), x, s);
    }
  }

  lemma ThenIsTotal<T(!new)>(first: (T, T) -> bool, second: (T, T) -> bool, rows: seq<T>)
    requires Weak(first, rows) && TotalOn(second, rows)
    ensures TotalOn(Then(first, second), rows)
  {
    var both := Then(first, second);
    forall x, y, z | x in rows && y in rows && z in rows && both(x, y) && both(y, z) ensures both(x, z) {
      ThenTransitive(first, second, rows, x, y, z);
    }
  }

  lemma ThenTransitive<T(!new)>(first: (T, T) -> bool, second: (T, T) -> bool, rows: seq<T>, x: T, y: T, z: T)
    requires Weak(first, rows) && TotalOn(second, rows) && x in rows && y in rows && z in rows
    requires Then(first, second)(x, y) && Then(first, second)(y, z)
    ensures Then(first, second)(x, z)
  {
    if first(x, y) {
      if !first(y, z) { assert first(x, z) || first(z, y); }
    } else if first(y, z) {
      assert first(y, x) || first(x, z);
    } else {
      assert first(z, x) ==> first(z, y) || first(y, x);
    }
  }

  /** Sorting by a tie-break and then stably by a primary key is one sort by both. */
  lemma TwoPassesAreOne<T(!new)>(first: (T, T) -> bool, second: (T, T) -> bool, rows: seq<T>)
    requires Weak(first, rows) && TotalOn(second, rows) && Distinct(rows)
    ensures SortBy(first, SortBy(second, rows)) == SortBy(Then(first, second), rows)
    ensures Sorted(Then(first, second), SortBy(Then(first, second), rows))
  {
    var both, tied := Then(first, second), SortBy(second, rows);
    SortElements(second, rows);
    SameElements(tied, rows);
    SortIsSorted(second, rows);
    SortTiedRows(first, second, tied);
    ThenIsTotal(first, second, rows);
    DistinctSorted(second, tied);
    SortOfSame(both, tied, rows);
  }

  /** The order in which distinct rows arrive does not matter. */
  lemma SortOfSame<T(!new)>(less: (T, T) -> bool, a: seq<T>, b: seq<T>)
    requires TotalOn(less, b) && Distinct(a) && Distinct(b) && multiset(a) == multiset(b)
    ensures SortBy(less, a) == SortBy(less, b) && Sorted(less, SortBy(less, b))
  {
    SameElements(a, b);
    SmallerTotal(less, a, b);
    SortIsSorted(less, a);
    SortIsSorted(less, b);
    SortElements(less, a);
    SortElements(less, b);
    SameElements(SortBy(less, a), a);
    SortedIsUnique(less, SortBy(less, a), SortBy(less, b));
  }

  lemma DistinctSorted<T(!new)>(less: (T, T) -> bool, s: seq<T>)
    requires Sorted(less, s) && Strict(less, s)
    ensures Distinct(s)
  {
    forall i, j | 0 <= i < j < |s| ensures s[i] != s[j] {
      assert less(s[i], s[j]) && s[i] in s && s[j] in s;
    }
  }

  /** Two total orders sort the same rows alike exactly if they agree on every two of them. */
  lemma SortsAgreeIff<T(!new)>(less: (T, T) -> bool, other: (T, T) -> bool, rows: seq<T>)
    requires TotalOn(less, rows) && TotalOn(other, rows) && Distinct(rows)
    ensures SortBy(less, rows) == SortBy(other, rows) <==> forall x, y :: x in rows && y in rows ==> less(x, y) == other(x, y)
  {
    if SortBy(less, rows) == SortBy(other, rows) {
      var s := SortBy(less, rows);
      SortIsSorted(less, rows);
      SortIsSorted(other, rows);
      SortElements(less, rows);
      SameElements(rows, s);
      forall x, y | x in rows && y in rows ensures less(x, y) == other(x, y) {
        var i :| 0 <= i < |s| && s[i] == x;
        var j :| 0 <= j < |s| && s[j] == y;
        if i < j { assert less(s[i], s[j]) && other(s[i], s[j]); }
        if j < i { assert less(s[j], s[i]) && other(s[j], s[i]); }
      }
    } else if forall x, y :: x in rows && y in rows ==> less(x, y) == other(x, y) {
      SameSort(less, other, rows);
    }
  }
}
