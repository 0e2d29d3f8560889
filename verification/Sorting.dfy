/** Ordered insertion, the meaning of a stable sort, and uniqueness of strictly sorted sequences.
    Both the scheduler buckets and the duplicate groups are ordered this way. */
module Sorting {

  /** `less` is a strict total order on the elements of `s`. */
  ghost predicate StrictOrderOn<T>(less: (T, T) -> bool, s: seq<T>) {
    && (forall a, b | a in s && b in s :: !(less(a, b) && less(b, a)))
    && (forall a, b, c | a in s && b in s && c in s && less(a, b) && less(b, c) :: less(a, c))
    && (forall a, b | a in s && b in s && a != b :: less(a, b) || less(b, a))
  }

  ghost predicate Distinct<T>(s: seq<T>) {
    forall i, j | 0 <= i < j < |s| :: s[i] != s[j]
  }

  ghost predicate Sorted<T>(less: (T, T) -> bool, s: seq<T>) {
    forall i, j | 0 <= i < j < |s| :: less(s[i], s[j])
  }

  /** Puts `x` after every leading element that is not greater than it. */
  function Insert<T>(less: (T, T) -> bool, x: T, s: seq<T>): seq<T> {
    if s == [] || less(x, s[0]) then [x] + s else [s[0]] + Insert(less, x, s[1..])
  }

  /** A stable sort: equal elements keep the order in which they stood. */
  function StableSort<T>(less: (T, T) -> bool, s: seq<T>): seq<T> {
    if s == [] then [] else Insert(less, s[|s| - 1], StableSort(less, s[..|s| - 1]))
  }

  lemma {:induction false} InsertKeepsElements<T>(less: (T, T) -> bool, x: T, s: seq<T>)
    ensures multiset(Insert(less, x, s)) == multiset(s) + multiset{x}
  {
    if s != [] && !less(x, s[0]) {
      InsertKeepsElements(less, x, s[1..]);
      assert s == [s[0]] + s[1..];
    }
  }

  lemma {:induction false} InsertSorted<T>(less: (T, T) -> bool, x: T, s: seq<T>)
    requires StrictOrderOn(less, s + [x]) && Sorted(less, s) && x !in s
    ensures Sorted(less, Insert(less, x, s))
  {
    InsertKeepsElements(less, x, s);
    assert x in s + [x];
    assert forall y | y in s :: y in s + [x];
    if s == [] {
    } else if less(x, s[0]) {
      assert forall i | 0 <= i < |s| :: less(x, s[i]);
    } else {
      var rest := Insert(less, x, s[1..]);
      assert forall y | y in s[1..] + [x] :: y in s + [x];
      InsertSorted(less, x, s[1..]);
      InsertKeepsElements(less, x, s[1..]);
      forall i | 0 <= i < |rest|
        ensures less(s[0], rest[i])
      {
        assert rest[i] in multiset(rest);
        assert rest[i] == x || rest[i] in multiset(s[1..]);
      }
    }
  }

  lemma {:induction false} SortKeepsElements<T>(less: (T, T) -> bool, s: seq<T>)
    ensures multiset(StableSort(less, s)) == multiset(s)
    ensures |StableSort(less, s)| == |s|
    ensures forall i | 0 <= i < |s| :: StableSort(less, s)[i] in s
    ensures forall i | 0 <= i < |s| :: s[i] in StableSort(less, s)
  {
    if s != [] {
      var n := |s| - 1;
      SortKeepsElements(less, s[..n]);
      InsertKeepsElements(less, s[n], StableSort(less, s[..n]));
      assert s == s[..n] + [s[n]];
    }
    var r := StableSort(less, s);
    assert |multiset(r)| == |multiset(s)|;
    forall i | 0 <= i < |s|
      ensures r[i] in s && s[i] in r
    {
      assert r[i] in multiset(r) && s[i] in multiset(s);
    }
  }

  lemma {:induction false} SortSorts<T>(less: (T, T) -> bool, s: seq<T>)
    requires StrictOrderOn(less, s) && Distinct(s)
    ensures Sorted(less, StableSort(less, s))
  {
    if s != [] {
      var n := |s| - 1;
      var front := s[..n];
      SortKeepsElements(less, front);
      SortSorts(less, front);
      var sorted := StableSort(less, front);
      forall y | y in sorted + [s[n]]
        ensures y in s
      {
        var k :| 0 <= k <= n && (sorted + [s[n]])[k] == y;
      }
      InsertSorted(less, s[n], sorted);
    }
  }

  lemma HasElement<T>(s: seq<T>)
    requires s != []
    ensures exists x :: x in s
  {
    assert s[0] in s;
  }

  /** A strictly sorted sequence is determined by the set of its elements. */
  lemma {:induction false} SortedUnique<T>(less: (T, T) -> bool, a: seq<T>, b: seq<T>)
    requires StrictOrderOn(less, a) && Sorted(less, a) && Sorted(less, b)
    requires forall x :: x in a <==> x in b
    ensures a == b
  {
    if a == [] {
      if b != [] {
        HasElement(b);
      }
    } else {
      assert a[0] in b;
      assert b[0] in a;
      assert a[0] == b[0];
      forall x
        ensures x in a[1..] <==> x in b[1..]
      {
        if x in a[1..] {
          assert x in b && less(a[0], x);
          assert !less(x, x);
        }
        if x in b[1..] {
          assert x in a && less(b[0], x);
          assert !less(x, x);
        }
      }
      assert forall y | y in a[1..] :: y in a;
      SortedUnique(less, a[1..], b[1..]);
      assert a == [a[0]] + a[1..];
      assert b == [b[0]] + b[1..];
    }
  }
}
