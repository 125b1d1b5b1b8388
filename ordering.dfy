/**
 * An insertion sort into descending order of an integer key: the order that
 * `order_by('-field')` produces. The database leaves the order of ties open,
 * and so does every contract here.
 */
module Ordering {

  predicate SortedDesc<T>(xs: seq<T>, key: T -> int) {
    forall i, j | 0 <= i < j < |xs| :: key(xs[i]) >= key(xs[j])
  }

  /** No two elements of `xs` share the same image under `f`. */
  ghost predicate DistinctBy<T, U>(xs: seq<T>, f: T -> U) {
    forall i, j | 0 <= i < j < |xs| :: f(xs[i]) != f(xs[j])
  }

  /** Inserts `x` before the first element whose key is not larger than `x`'s. */
  function InsertDesc<T>(x: T, xs: seq<T>, key: T -> int): (r: seq<T>)
    ensures |r| == |xs| + 1
    ensures multiset(r) == multiset(xs) + multiset{x}
  {
    if xs == [] || key(x) >= key(xs[0]) then [x] + xs
    else
      var rest := InsertDesc(x, xs[1..], key);
      assert xs == [xs[0]] + xs[1..];
      [xs[0]] + rest
  }

  lemma {:induction false} InsertDescSorted<T>(x: T, xs: seq<T>, key: T -> int)
    requires SortedDesc(xs, key)
    ensures SortedDesc(InsertDesc(x, xs, key), key)
  {
    if xs != [] && key(x) < key(xs[0]) {
      var tail := xs[1..];
      assert SortedDesc(tail, key) by {
        forall i, j | 0 <= i < j < |tail| ensures key(tail[i]) >= key(tail[j]) {
          assert tail[i] == xs[i + 1] && tail[j] == xs[j + 1];
        }
      }
      InsertDescSorted(x, tail, key);
      var rest := InsertDesc(x, tail, key);
      var r := [xs[0]] + rest;
      forall j | 0 <= j < |rest| ensures key(xs[0]) >= key(rest[j]) {
        assert rest[j] in multiset(rest);
        if rest[j] != x {
          assert rest[j] in multiset(tail);
          var m :| 0 <= m < |tail| && tail[m] == rest[j];
          assert tail[m] == xs[m + 1];
        }
      }
      forall i, j | 0 <= i < j < |r| ensures key(r[i]) >= key(r[j]) {
        if i > 0 { assert r[i] == rest[i - 1] && r[j] == rest[j - 1]; }
        else { assert r[j] == rest[j - 1]; }
      }
    } else if xs != [] {
      var r := [x] + xs;
      forall i, j | 0 <= i < j < |r| ensures key(r[i]) >= key(r[j]) {
        assert r[j] == xs[j - 1];
        if i > 0 { assert r[i] == xs[i - 1]; }
      }
    }
  }

  lemma {:induction false} InsertDescDistinct<T, U>(x: T, xs: seq<T>, key: T -> int, f: T -> U)
    requires DistinctBy(xs, f)
    requires forall y | y in xs :: f(y) != f(x)
    ensures DistinctBy(InsertDesc(x, xs, key), f)
  {
    var r := InsertDesc(x, xs, key);
    if xs == [] || key(x) >= key(xs[0]) {
      forall i, j | 0 <= i < j < |r| ensures f(r[i]) != f(r[j]) {
        assert r[j] == xs[j - 1];
        if i > 0 { assert r[i] == xs[i - 1]; }
      }
    } else {
      var tail := xs[1..];
      assert DistinctBy(tail, f) by {
        forall i, j | 0 <= i < j < |tail| ensures f(tail[i]) != f(tail[j]) {
          assert tail[i] == xs[i + 1] && tail[j] == xs[j + 1];
        }
      }
      InsertDescDistinct(x, tail, key, f);
      var rest := InsertDesc(x, tail, key);
      forall j | 0 <= j < |rest| ensures f(xs[0]) != f(rest[j]) {
        assert rest[j] in multiset(rest);
        if rest[j] != x {
          assert rest[j] in multiset(tail);
          var m :| 0 <= m < |tail| && tail[m] == rest[j];
          assert tail[m] == xs[m + 1];
        } else {
          assert xs[0] in xs;
        }
      }
      forall i, j | 0 <= i < j < |r| ensures f(r[i]) != f(r[j]) {
        if i > 0 { assert r[i] == rest[i - 1] && r[j] == rest[j - 1]; }
        else { assert r[j] == rest[j - 1]; }
      }
    }
  }

  /** The elements of `xs`, rearranged into non-increasing key order. */
  function SortDesc<T>(xs: seq<T>, key: T -> int): (r: seq<T>)
    ensures |r| == |xs|
    ensures multiset(r) == multiset(xs)
    ensures SortedDesc(r, key)
  {
    if xs == [] then []
    else
      var rest := SortDesc(xs[1..], key);
      assert xs == [xs[0]] + xs[1..];
      InsertDescSorted(xs[0], rest, key);
      InsertDesc(xs[0], rest, key)
  }

  /** Sorting keeps a projection injective when it was injective on the input. */
  lemma {:induction false} SortDescDistinct<T, U>(xs: seq<T>, key: T -> int, f: T -> U)
    requires DistinctBy(xs, f)
    ensures DistinctBy(SortDesc(xs, key), f)
  {
    if xs != [] {
      var tail := xs[1..];
      assert DistinctBy(tail, f) by {
        forall i, j | 0 <= i < j < |tail| ensures f(tail[i]) != f(tail[j]) {
          assert tail[i] == xs[i + 1] && tail[j] == xs[j + 1];
        }
      }
      SortDescDistinct(tail, key, f);
      var rest := SortDesc(tail, key);
      forall y | y in rest ensures f(y) != f(xs[0]) {
        assert y in multiset(rest);
        var m :| 0 <= m < |tail| && tail[m] == y;
        assert tail[m] == xs[m + 1];
      }
      InsertDescDistinct(xs[0], rest, key, f);
    }
  }
}
