/** `ORDER BY` and `list.sort(key=...)`: a stable sort on a real-valued key. */
module Sorting {

  ghost predicate SortedBy<T>(xs: seq<T>, key: T -> real) {
    forall i, j | 0 <= i < j < |xs| :: key(xs[i]) <= key(xs[j])
  }

  ghost predicate Distinct<T>(xs: seq<T>) {
    forall i, j | 0 <= i < j < |xs| :: xs[i] != xs[j]
  }

  function Insert<T>(x: T, xs: seq<T>, key: T -> real): seq<T> {
    if xs == [] || key(x) <= key(xs[0]) then [x] + xs
    else [xs[0]] + Insert(x, xs[1..], key)
  }

  function SortBy<T>(xs: seq<T>, key: T -> real): seq<T> {
    if xs == [] then [] else Insert(xs[0], SortBy(xs[1..], key), key)
  }

  lemma {:induction false} InsertKeeps<T>(x: T, xs: seq<T>, key: T -> real)
    ensures multiset(Insert(x, xs, key)) == multiset{x} + multiset(xs)
  {
    if xs != [] && key(x) > key(xs[0]) {
      InsertKeeps(x, xs[1..], key);
      assert xs == [xs[0]] + xs[1..];
    }
  }

  lemma InsertedFrom<T>(x: T, xs: seq<T>, key: T -> real, y: T)
    requires y in Insert(x, xs, key)
    ensures y == x || y in xs
  {
    InsertKeeps(x, xs, key);
    assert y in multiset(Insert(x, xs, key));
  }

  lemma {:induction false} InsertSorts<T>(x: T, xs: seq<T>, key: T -> real)
    requires SortedBy(xs, key)
    ensures SortedBy(Insert(x, xs, key), key)
  {
    if xs != [] && key(x) > key(xs[0]) {
      var rest := Insert(x, xs[1..], key);
      InsertSorts(x, xs[1..], key);
      forall j | 0 <= j < |rest|
        ensures key(xs[0]) <= key(rest[j])
      {
        InsertedFrom(x, xs[1..], key, rest[j]);
      }
    }
  }

  /** The sort orders the elements and neither loses nor repeats one. */
  lemma {:induction false} SortBySorts<T>(xs: seq<T>, key: T -> real)
    ensures SortedBy(SortBy(xs, key), key)
    ensures multiset(SortBy(xs, key)) == multiset(xs)
  {
    if xs != [] {
      SortBySorts(xs[1..], key);
      InsertSorts(xs[0], SortBy(xs[1..], key), key);
      InsertKeeps(xs[0], SortBy(xs[1..], key), key);
      assert xs == [xs[0]] + xs[1..];
    }
  }

  lemma SortKeepsMembers<T>(xs: seq<T>, key: T -> real)
    ensures |SortBy(xs, key)| == |xs|
    ensures forall x :: x in SortBy(xs, key) <==> x in xs
  {
    SortBySorts(xs, key);
    assert |multiset(SortBy(xs, key))| == |multiset(xs)|;
    assert forall x :: x in SortBy(xs, key) <==> x in multiset(SortBy(xs, key));
  }

  lemma {:induction false} InsertDistinct<T>(x: T, xs: seq<T>, key: T -> real)
    requires Distinct(xs) && x !in xs
    ensures Distinct(Insert(x, xs, key))
  {
    if xs != [] && key(x) > key(xs[0]) {
      var rest := Insert(x, xs[1..], key);
      InsertDistinct(x, xs[1..], key);
      forall j | 0 <= j < |rest|
        ensures rest[j] != xs[0]
      {
        InsertedFrom(x, xs[1..], key, rest[j]);
      }
    }
  }

  lemma {:induction false} SortKeepsDistinct<T>(xs: seq<T>, key: T -> real)
    requires Distinct(xs)
    ensures Distinct(SortBy(xs, key))
  {
    if xs != [] {
      SortKeepsDistinct(xs[1..], key);
      SortKeepsMembers(xs[1..], key);
      InsertDistinct(xs[0], SortBy(xs[1..], key), key);
    }
  }

  lemma DistinctConcat<T>(xs: seq<T>, ys: seq<T>)
    requires Distinct(xs) && Distinct(ys) && forall y | y in ys :: y !in xs
    ensures Distinct(xs + ys)
  {
    forall i, j | 0 <= i < j < |xs + ys|
      ensures (xs + ys)[i] != (xs + ys)[j]
    {
      if i < |xs| <= j {
        assert ys[j - |xs|] in ys && xs[i] in xs;
      }
    }
  }

  /** A sequence of distinct elements is as long as its set of elements. */
  lemma {:induction false} DistinctLength<T>(xs: seq<T>, all: set<T>)
    requires Distinct(xs) && forall x :: x in xs <==> x in all
    ensures |xs| == |all|
  {
    if xs != [] {
      var rest := xs[1..];
      assert xs == [xs[0]] + rest;
      assert forall x :: x in rest <==> x in all - {xs[0]};
      DistinctLength(rest, all - {xs[0]});
    }
  }
}
