/** Python's ordering of strings, the two sorts the QC scripts use
    (`sorted(list_of_ints)` and pandas' `sort_values(by=column)` on a string column)
    and the distinct values of a column. */
module Sorting {

  /** `a <= b` on Python strings: lexicographic on code points. */
  predicate StrLe(a: string, b: string)
    decreases |a|
  {
    a == [] || (b != [] && (a[0] < b[0] || (a[0] == b[0] && StrLe(a[1..], b[1..]))))
  }

  lemma {:induction false} StrLeTotal(a: string, b: string)
    ensures StrLe(a, b) || StrLe(b, a)
    decreases |a|
  {
    if a != [] && b != [] && a[0] == b[0] {
      StrLeTotal(a[1..], b[1..]);
    }
  }

  lemma {:induction false} StrLeTransitive(a: string, b: string, c: string)
    requires StrLe(a, b) && StrLe(b, c)
    ensures StrLe(a, c)
    decreases |a|
  {
    if a != [] && b != [] && c != [] && a[0] == b[0] && b[0] == c[0] {
      StrLeTransitive(a[1..], b[1..], c[1..]);
    }
  }

  lemma {:induction false} StrLeAntisymmetric(a: string, b: string)
    requires StrLe(a, b) && StrLe(b, a)
    ensures a == b
    decreases |a|
  {
    if a != [] && b != [] {
      StrLeAntisymmetric(a[1..], b[1..]);
      assert a == [a[0]] + a[1..] && b == [b[0]] + b[1..];
    }
  }

  // ---------------------------------------------------------------------------
  // Sorting rows by a string key

  ghost predicate SortedBy<T>(xs: seq<T>, key: T -> string) {
    forall i, j :: 0 <= i < j < |xs| ==> StrLe(key(xs[i]), key(xs[j]))
  }

  /** Inserts `x` before the first element whose key is not smaller. */
  function InsertBy<T(==)>(x: T, xs: seq<T>, key: T -> string): (r: seq<T>)
    ensures multiset(r) == multiset(xs) + multiset{x}
    decreases |xs|
  {
    if xs == [] || StrLe(key(x), key(xs[0])) then [x] + xs
    else
      assert xs == [xs[0]] + xs[1..];
      [xs[0]] + InsertBy(x, xs[1..], key)
  }

  /** Insertion sort on the key. */
  function SortBy<T(==)>(xs: seq<T>, key: T -> string): (r: seq<T>)
    ensures multiset(r) == multiset(xs)
    decreases |xs|
  {
    if xs == [] then []
    else
      assert xs == [xs[0]] + xs[1..];
      InsertBy(xs[0], SortBy(xs[1..], key), key)
  }

  lemma {:induction false} InsertBySorted<T>(x: T, xs: seq<T>, key: T -> string)
    requires SortedBy(xs, key)
    ensures SortedBy(InsertBy(x, xs, key), key)
    decreases |xs|
  {
    if xs == [] {
    } else if StrLe(key(x), key(xs[0])) {
      forall j | 0 <= j < |xs| ensures StrLe(key(x), key(xs[j])) {
        if j > 0 { StrLeTransitive(key(x), key(xs[0]), key(xs[j])); }
      }
    } else {
      StrLeTotal(key(x), key(xs[0]));
      var rest := InsertBy(x, xs[1..], key);
      InsertBySorted(x, xs[1..], key);
      forall k | 0 <= k < |rest| ensures StrLe(key(xs[0]), key(rest[k])) {
        assert rest[k] in multiset(rest);
        if rest[k] != x {
          assert rest[k] in multiset(xs[1..]);
          var j :| 0 <= j < |xs[1..]| && xs[1..][j] == rest[k];
          assert xs[j + 1] == rest[k];
        }
      }
    }
  }

  /** `sort_values` yields the rows in ascending key order, as a permutation of the input. */
  lemma {:induction false} SortBySorted<T>(xs: seq<T>, key: T -> string)
    ensures SortedBy(SortBy(xs, key), key)
    ensures multiset(SortBy(xs, key)) == multiset(xs)
    decreases |xs|
  {
    if xs != [] {
      SortBySorted(xs[1..], key);
      InsertBySorted(xs[0], SortBy(xs[1..], key), key);
    }
  }

  // ---------------------------------------------------------------------------
  // sorted() on integers

  ghost predicate Ascending(xs: seq<int>) {
    forall i, j :: 0 <= i < j < |xs| ==> xs[i] <= xs[j]
  }

  /** Inserts `x` before the first element that is not smaller. */
  function InsertInt(x: int, xs: seq<int>): (r: seq<int>)
    ensures multiset(r) == multiset(xs) + multiset{x}
    decreases |xs|
  {
    if xs == [] || x <= xs[0] then [x] + xs
    else
      assert xs == [xs[0]] + xs[1..];
      [xs[0]] + InsertInt(x, xs[1..])
  }

  /** `sorted(xs)` */
  function SortInts(xs: seq<int>): (r: seq<int>)
    ensures multiset(r) == multiset(xs)
    decreases |xs|
  {
    if xs == [] then []
    else
      assert xs == [xs[0]] + xs[1..];
      InsertInt(xs[0], SortInts(xs[1..]))
  }

  lemma {:induction false} InsertIntAscending(x: int, xs: seq<int>)
    requires Ascending(xs)
    ensures Ascending(InsertInt(x, xs))
    decreases |xs|
  {
    if xs != [] && x > xs[0] {
      var rest := InsertInt(x, xs[1..]);
      InsertIntAscending(x, xs[1..]);
      forall k | 0 <= k < |rest| ensures xs[0] <= rest[k] {
        assert rest[k] in multiset(rest);
        if rest[k] != x {
          assert rest[k] in multiset(xs[1..]);
          var j :| 0 <= j < |xs[1..]| && xs[1..][j] == rest[k];
          assert xs[j + 1] == rest[k];
        }
      }
    }
  }

  /** `sorted(xs)` is ascending and a permutation of `xs`. */
  lemma {:induction false} SortIntsAscending(xs: seq<int>)
    ensures Ascending(SortInts(xs))
    ensures multiset(SortInts(xs)) == multiset(xs)
    decreases |xs|
  {
    if xs != [] {
      SortIntsAscending(xs[1..]);
      InsertIntAscending(xs[0], SortInts(xs[1..]));
    }
  }

  // ---------------------------------------------------------------------------
  // Distinct values

  /** Each distinct value once, in order of first occurrence: the keys of
      `collections.Counter(xs)` and the result of pandas' `Series.unique()`. */
  function FirstOccurrences(xs: seq<string>): (r: seq<string>)
    ensures forall x :: x in r <==> x in xs
    ensures forall i, j :: 0 <= i < j < |r| ==> r[i] != r[j]
    decreases |xs|
  {
    if xs == [] then []
    else
      var n := |xs| - 1;
      assert xs == xs[..n] + [xs[n]];
      var keys := FirstOccurrences(xs[..n]);
      if xs[n] in keys then keys else keys + [xs[n]]
  }

  /** A sequence without repeats holds each value at most once. */
  lemma {:induction false} DistinctCountsAtMostOne<T>(xs: seq<T>, x: T)
    requires forall i, j :: 0 <= i < j < |xs| ==> xs[i] != xs[j]
    ensures multiset(xs)[x] <= 1
    decreases |xs|
  {
    if xs != [] {
      var n := |xs| - 1;
      assert xs == xs[..n] + [xs[n]];
      DistinctCountsAtMostOne(xs[..n], x);
      if x == xs[n] {
        assert x !in xs[..n];
      }
    }
  }
}
