// The result of std::sort, as a value: a permutation of its input ordered by the
// given comparator. Under a strict total order that value is unique, which is what
// makes every sorted container in the runtime independent of insertion order.
module Sorting {

  predicate Sorted<T>(less: (T, T) -> bool, s: seq<T>) {
    forall i, j | 0 <= i < j < |s| :: !less(s[j], s[i])
  }

  // `less` is a strict total order on the elements of `m`.
  ghost predicate StrictTotal<T>(less: (T, T) -> bool, m: multiset<T>) {
    && (forall x | x in m :: !less(x, x))
    && (forall x, y | x in m && y in m && x != y :: less(x, y) || less(y, x))
    && (forall x, y, z | x in m && y in m && z in m && less(x, y) && less(y, z) :: less(x, z))
  }

  // What std::sort asks of a comparator: equivalent elements may still differ.
  ghost predicate StrictWeak<T>(less: (T, T) -> bool, m: multiset<T>) {
    && (forall x, y | x in m && y in m && less(x, y) :: !less(y, x))
    && (forall x, y, z | x in m && y in m && z in m && !less(x, y) && !less(y, z) :: !less(x, z))
  }

  lemma {:induction false} TotalIsWeak<T>(less: (T, T) -> bool, m: multiset<T>)
    requires StrictTotal(less, m)
    ensures StrictWeak(less, m)
  {
    forall x, y, z | x in m && y in m && z in m && !less(x, y) && !less(y, z) ensures !less(x, z) {
      assert x == y || less(y, x);
      assert y == z || less(z, y);
    }
  }

  function InsertSorted<T>(less: (T, T) -> bool, x: T, s: seq<T>): (r: seq<T>)
    ensures multiset(r) == multiset{x} + multiset(s)
    ensures |r| == |s| + 1
  {
    if s == [] then [x]
    else if less(s[0], x) then
      assert s == [s[0]] + s[1..];
      [s[0]] + InsertSorted(less, x, s[1..])
    else [x] + s
  }

  function SortBy<T>(less: (T, T) -> bool, s: seq<T>): (r: seq<T>)
    ensures multiset(r) == multiset(s)
    ensures |r| == |s|
  {
    if s == [] then []
    else
      assert s == [s[0]] + s[1..];
      InsertSorted(less, s[0], SortBy(less, s[1..]))
  }

  lemma {:induction false} SameElements<T>(a: seq<T>, b: seq<T>)
    requires multiset(a) == multiset(b)
    ensures forall x :: x in a <==> x in b
    ensures |a| == |b|
  {
    forall x ensures x in a <==> x in b {
      assert x in a <==> x in multiset(a);
      assert x in b <==> x in multiset(b);
    }
    assert |a| == |multiset(a)| && |b| == |multiset(b)|;
  }

  lemma {:induction false} SortedCons<T>(less: (T, T) -> bool, x: T, s: seq<T>)
    requires Sorted(less, s) && forall k | 0 <= k < |s| :: !less(s[k], x)
    ensures Sorted(less, [x] + s)
  {
  }

  lemma {:induction false} HeadStaysBelow<T>(less: (T, T) -> bool, h: T, x: T, t: seq<T>)
    requires less(h, x) && !less(x, h)
    requires forall k | 0 <= k < |t| :: !less(t[k], h)
    ensures forall k | 0 <= k < |t| + 1 :: !less(InsertSorted(less, x, t)[k], h)
  {
    var r := InsertSorted(less, x, t);
    forall k | 0 <= k < |r| ensures !less(r[k], h) {
      assert r[k] in multiset(r);
      if r[k] != x {
        assert r[k] in multiset(t);
      }
    }
  }

  lemma {:induction false} NothingBelow<T>(less: (T, T) -> bool, x: T, s: seq<T>)
    requires s != [] && !less(s[0], x) && Sorted(less, s)
    requires StrictWeak(less, multiset{x} + multiset(s))
    ensures forall k | 0 <= k < |s| :: !less(s[k], x)
  {
    forall k | 0 <= k < |s| ensures !less(s[k], x) {
      assert s[k] in multiset(s) && s[0] in multiset(s);
    }
  }

  lemma {:induction false} InsertKeepsSorted<T>(less: (T, T) -> bool, x: T, s: seq<T>)
    requires StrictWeak(less, multiset{x} + multiset(s)) && Sorted(less, s)
    ensures Sorted(less, InsertSorted(less, x, s))
  {
    if s == [] {
    } else if less(s[0], x) {
      var t := s[1..];
      assert s == [s[0]] + t;
      assert s[0] in multiset(s);
      InsertKeepsSorted(less, x, t);
      HeadStaysBelow(less, s[0], x, t);
      SortedCons(less, s[0], InsertSorted(less, x, t));
    } else {
      NothingBelow(less, x, s);
      SortedCons(less, x, s);
    }
  }

  lemma {:induction false} SortByWeak<T>(less: (T, T) -> bool, s: seq<T>)
    requires StrictWeak(less, multiset(s))
    ensures Sorted(less, SortBy(less, s))
  {
    if s != [] {
      assert s == [s[0]] + s[1..];
      SortByWeak(less, s[1..]);
      InsertKeepsSorted(less, s[0], SortBy(less, s[1..]));
    }
  }

  lemma {:induction false} SortBySorts<T>(less: (T, T) -> bool, s: seq<T>)
    requires StrictTotal(less, multiset(s))
    ensures Sorted(less, SortBy(less, s))
  {
    TotalIsWeak(less, multiset(s));
    SortByWeak(less, s);
  }

  lemma {:induction false} TailElements<T>(s: seq<T>)
    requires s != []
    ensures multiset(s[1..]) == multiset(s) - multiset{s[0]}
  {
    assert s == [s[0]] + s[1..];
  }

  lemma {:induction false} LeastComesFirst<T>(less: (T, T) -> bool, m: multiset<T>, a: seq<T>, b: seq<T>)
    requires StrictTotal(less, m) && multiset(a) <= m && Sorted(less, a) && Sorted(less, b)
    requires multiset(a) == multiset(b) && a != [] && b != []
    ensures a[0] == b[0]
  {
    assert a[0] in multiset(b) && b[0] in multiset(a);
    var i :| 0 <= i < |b| && b[i] == a[0];
    var j :| 0 <= j < |a| && a[j] == b[0];
    assert j > 0 ==> !less(a[j], a[0]);
    assert i > 0 ==> !less(b[i], b[0]);
  }

  lemma {:induction false} TailsAgree<T>(a: seq<T>, b: seq<T>)
    requires multiset(a) == multiset(b) && a != [] && b != [] && a[0] == b[0]
    ensures multiset(a[1..]) == multiset(b[1..]) <= multiset(a)
  {
    TailElements(a);
    TailElements(b);
  }

  // Two ordered permutations of the same elements are the same sequence.
  lemma {:induction false} SortedIsUnique<T>(less: (T, T) -> bool, m: multiset<T>, a: seq<T>, b: seq<T>)
    requires StrictTotal(less, m) && multiset(a) <= m && Sorted(less, a) && Sorted(less, b)
    requires multiset(a) == multiset(b)
    ensures a == b
  {
    hide StrictTotal;
    assert |a| == |multiset(a)| == |multiset(b)| == |b|;
    if a != [] {
      LeastComesFirst(less, m, a, b);
      TailsAgree(a, b);
      SortedIsUnique(less, m, a[1..], b[1..]);
      assert a == [a[0]] + a[1..] && b == [b[0]] + b[1..];
    }
  }

  // Sorting forgets the order its input arrived in.
  lemma {:induction false} SortIgnoresOrder<T>(less: (T, T) -> bool, a: seq<T>, b: seq<T>)
    requires StrictTotal(less, multiset(a)) && multiset(a) == multiset(b)
    ensures SortBy(less, a) == SortBy(less, b)
  {
    SortBySorts(less, a);
    SortBySorts(less, b);
    SortedIsUnique(less, multiset(a), SortBy(less, a), SortBy(less, b));
  }

  // An ordered sequence is its own sort.
  lemma {:induction false} SortOfSorted<T>(less: (T, T) -> bool, s: seq<T>)
    requires StrictTotal(less, multiset(s)) && Sorted(less, s)
    ensures SortBy(less, s) == s
  {
    SortBySorts(less, s);
    SortedIsUnique(less, multiset(s), SortBy(less, s), s);
  }
}
