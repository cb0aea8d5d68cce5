// Totals over sequences, and the ways of regrouping them that keep the total.
module Sums {

  function SumBy<T>(f: T -> nat, s: seq<T>): (r: nat) {
    if s == [] then 0 else f(s[0]) + SumBy(f, s[1..])
  }

  function Filter<T>(p: T -> bool, s: seq<T>): (r: seq<T>)
    ensures forall x | x in r :: x in s && p(x)
  {
    if s == [] then []
    else if p(s[0]) then [s[0]] + Filter(p, s[1..])
    else Filter(p, s[1..])
  }

  lemma {:induction false} SumAppend<T>(f: T -> nat, a: seq<T>, b: seq<T>)
    ensures SumBy(f, a + b) == SumBy(f, a) + SumBy(f, b)
  {
    if a == [] {
      assert a + b == b;
    } else {
      SumAppend(f, a[1..], b);
      assert (a + b)[1..] == a[1..] + b;
    }
  }

  lemma {:induction false} SumRemove<T>(f: T -> nat, s: seq<T>, i: nat)
    requires i < |s|
    ensures SumBy(f, s) == f(s[i]) + SumBy(f, s[..i] + s[i + 1..])
  {
    SumAppend(f, s[..i], s[i..]);
    SumAppend(f, s[..i], s[i + 1..]);
    assert s == s[..i] + s[i..];
    assert s[i..][1..] == s[i + 1..];
  }

  lemma {:induction false} RemoveElement<T>(s: seq<T>, i: nat)
    requires i < |s|
    ensures multiset(s[..i] + s[i + 1..]) == multiset(s) - multiset{s[i]}
  {
    assert s == s[..i] + ([s[i]] + s[i + 1..]);
    assert multiset([s[i]] + s[i + 1..]) == multiset{s[i]} + multiset(s[i + 1..]);
  }

  // Where the first element of a stands in a rearrangement of it, and what is left.
  lemma {:induction false} MatchFirst<T>(a: seq<T>, b: seq<T>) returns (i: nat)
    requires a != [] && multiset(a) == multiset(b)
    ensures i < |b| && b[i] == a[0] && multiset(a[1..]) == multiset(b[..i] + b[i + 1..])
  {
    assert a[0] in multiset(b);
    i :| 0 <= i < |b| && b[i] == a[0];
    RemoveElement(a, 0);
    RemoveElement(b, i);
    assert a[..0] + a[1..] == a[1..];
  }

  // A total does not depend on order.
  lemma {:induction false} SumPermutes<T>(f: T -> nat, a: seq<T>, b: seq<T>)
    requires multiset(a) == multiset(b)
    ensures SumBy(f, a) == SumBy(f, b)
  {
    if a == [] {
      assert |b| == |multiset(b)| == 0;
    } else {
      var i := MatchFirst(a, b);
      SumRemove(f, b, i);
      SumPermutes(f, a[1..], b[..i] + b[i + 1..]);
    }
  }

  lemma {:induction false} SumAgrees<T>(f: T -> nat, g: T -> nat, s: seq<T>)
    requires forall x | x in s :: f(x) == g(x)
    ensures SumBy(f, s) == SumBy(g, s)
  {
    if s != [] { SumAgrees(f, g, s[1..]); }
  }

  // Elements that contribute nothing may be left out.
  lemma {:induction false} SumFiltered<T>(f: T -> nat, p: T -> bool, s: seq<T>)
    requires forall x | x in s && !p(x) :: f(x) == 0
    ensures SumBy(f, s) == SumBy(f, Filter(p, s))
  {
    if s != [] {
      SumFiltered(f, p, s[1..]);
      if p(s[0]) {
        assert Filter(p, s)[1..] == Filter(p, s[1..]);
      }
    }
  }

  // A total splits over a predicate and its complement.
  lemma {:induction false} SumSplit<T>(f: T -> nat, p: T -> bool, q: T -> bool, s: seq<T>)
    requires forall x | x in s :: p(x) ==> !q(x)
    requires forall x | x in s && !p(x) && !q(x) :: f(x) == 0
    ensures SumBy(f, s) == SumBy(f, Filter(p, s)) + SumBy(f, Filter(q, s))
  {
    if s != [] {
      SumSplit(f, p, q, s[1..]);
      if p(s[0]) {
        assert Filter(p, s)[1..] == Filter(p, s[1..]);
      } else if q(s[0]) {
        assert Filter(q, s)[1..] == Filter(q, s[1..]);
      }
    }
  }

  lemma {:induction false} FilterKeepsAll<T>(p: T -> bool, s: seq<T>)
    ensures forall x :: x in Filter(p, s) <==> x in s && p(x)
  {
    if s != [] { FilterKeepsAll(p, s[1..]); }
  }

  lemma {:induction false} FilterAppend<T>(p: T -> bool, a: seq<T>, b: seq<T>)
    ensures Filter(p, a + b) == Filter(p, a) + Filter(p, b)
  {
    if a == [] {
      assert a + b == b;
    } else {
      FilterAppend(p, a[1..], b);
      assert (a + b)[1..] == a[1..] + b;
    }
  }
}
