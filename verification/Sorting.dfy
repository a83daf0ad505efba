/** Stable insertion sort, the specification of Python's `sorted`. */
module Sorting {

  function Insert<T>(x: T, xs: seq<T>, le: (T, T) -> bool): (ys: seq<T>)
    ensures |ys| == |xs| + 1
  {
    if xs == [] || le(x, xs[0]) then [x] + xs else [xs[0]] + Insert(x, xs[1..], le)
  }

  function Sort<T>(xs: seq<T>, le: (T, T) -> bool): (ys: seq<T>)
    ensures |ys| == |xs|
  {
    if xs == [] then [] else Insert(xs[0], Sort(xs[1..], le), le)
  }

  predicate Ascending<T>(xs: seq<T>, le: (T, T) -> bool) {
    forall i, j | 0 <= i < j < |xs| :: le(xs[i], xs[j])
  }

  ghost predicate Total<T(!new)>(le: (T, T) -> bool) {
    && (forall x, y :: le(x, y) || le(y, x))
    && (forall x, y, z :: le(x, y) && le(y, z) ==> le(x, z))
  }

  lemma {:induction false} InsertKeeps<T>(x: T, xs: seq<T>, le: (T, T) -> bool)
    ensures multiset(Insert(x, xs, le)) == multiset(xs) + multiset{x}
  {
    if xs != [] && !le(x, xs[0]) {
      InsertKeeps(x, xs[1..], le);
      assert xs == [xs[0]] + xs[1..];
    }
  }

  lemma {:induction false} SortKeeps<T>(xs: seq<T>, le: (T, T) -> bool)
    ensures multiset(Sort(xs, le)) == multiset(xs)
  {
    if xs != [] {
      SortKeeps(xs[1..], le);
      InsertKeeps(xs[0], Sort(xs[1..], le), le);
      assert xs == [xs[0]] + xs[1..];
    }
  }

  lemma {:induction false} InsertAscends<T(!new)>(x: T, xs: seq<T>, le: (T, T) -> bool)
    requires Total(le) && Ascending(xs, le)
    ensures Ascending(Insert(x, xs, le), le)
  {
    var ys := Insert(x, xs, le);
    if xs != [] && !le(x, xs[0]) {
      InsertAscends(x, xs[1..], le);
      InsertKeeps(x, xs[1..], le);
      assert multiset(ys[1..]) == multiset(xs[1..]) + multiset{x};
      forall j | 1 <= j < |ys| ensures le(ys[0], ys[j]) {
        assert ys[j] == ys[1..][j - 1] && ys[1..][j - 1] in multiset(ys[1..]);
        assert ys[j] == x || ys[j] in xs[1..];
      }
    } else if xs != [] {
      forall j | 1 <= j < |ys| ensures le(x, ys[j]) {
        assert ys[j] == xs[j - 1];
        assert j - 1 > 0 ==> le(xs[0], xs[j - 1]);
      }
    }
  }

  lemma {:induction false} SortAscends<T(!new)>(xs: seq<T>, le: (T, T) -> bool)
    requires Total(le)
    ensures Ascending(Sort(xs, le), le)
  {
    if xs != [] {
      SortAscends(xs[1..], le);
      InsertAscends(xs[0], Sort(xs[1..], le), le);
    }
  }

  /** What is in order already stays as it is. */
  lemma {:induction false} SortIsIdle<T>(xs: seq<T>, le: (T, T) -> bool)
    requires Ascending(xs, le)
    ensures Sort(xs, le) == xs
  {
    if xs != [] {
      SortIsIdle(xs[1..], le);
      assert |xs| > 1 ==> le(xs[0], xs[1]);
    }
  }

  predicate DistinctBy<T, K(==)>(xs: seq<T>, key: T -> K) {
    forall i, j | 0 <= i < j < |xs| :: key(xs[i]) != key(xs[j])
  }

  lemma {:induction false} InsertDistinct<T, K>(x: T, xs: seq<T>, le: (T, T) -> bool, key: T -> K)
    requires DistinctBy(xs, key) && forall i | 0 <= i < |xs| :: key(xs[i]) != key(x)
    ensures DistinctBy(Insert(x, xs, le), key)
  {
    if xs != [] && !le(x, xs[0]) {
      var rest := Insert(x, xs[1..], le);
      InsertDistinct(x, xs[1..], le, key);
      InsertKeeps(x, xs[1..], le);
      forall j | 0 <= j < |rest| ensures key(rest[j]) != key(xs[0]) {
        assert rest[j] in multiset(rest);
        assert rest[j] == x || rest[j] in xs[1..];
      }
    }
  }

  lemma {:induction false} SortDistinct<T, K>(xs: seq<T>, le: (T, T) -> bool, key: T -> K)
    requires DistinctBy(xs, key)
    ensures DistinctBy(Sort(xs, le), key)
  {
    if xs != [] {
      var rest := Sort(xs[1..], le);
      SortDistinct(xs[1..], le, key);
      SortKeeps(xs[1..], le);
      forall i | 0 <= i < |rest| ensures key(rest[i]) != key(xs[0]) {
        assert rest[i] in multiset(rest);
        assert rest[i] in xs[1..];
      }
      InsertDistinct(xs[0], rest, le, key);
    }
  }

  lemma SortMembers<T>(xs: seq<T>, le: (T, T) -> bool, x: T)
    ensures x in Sort(xs, le) <==> x in xs
  {
    SortKeeps(xs, le);
    assert x in multiset(xs) <==> x in xs;
    assert x in multiset(Sort(xs, le)) <==> x in Sort(xs, le);
  }

  // ---- strings by code point ----

  predicate Leq(a: string, b: string) {
    a == "" || (b != "" && (a[0] < b[0] || (a[0] == b[0] && Leq(a[1..], b[1..]))))
  }

  lemma {:induction false} LeqEither(a: string, b: string)
    ensures Leq(a, b) || Leq(b, a)
    ensures Leq(a, b) && Leq(b, a) ==> a == b
  {
    if a != "" && b != "" && a[0] == b[0] {
      LeqEither(a[1..], b[1..]);
      assert a == [a[0]] + a[1..] && b == [b[0]] + b[1..];
    }
  }

  lemma {:induction false} LeqChain(a: string, b: string, c: string)
    requires Leq(a, b) && Leq(b, c)
    ensures Leq(a, c)
  {
    if a != "" && a[0] == b[0] && b[0] == c[0] {
      LeqChain(a[1..], b[1..], c[1..]);
    }
  }
}
