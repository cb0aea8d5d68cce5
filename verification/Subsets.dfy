// Sub-collections of a list. A sub-collection is a sequence whose elements, counted
// with multiplicity, all come from the list; it is the common ground between the
// index sequences of one solver, the bit masks of another and the sorted demand
// prefix of the certificate.
module Subsets {
  import opened Sorting
  import opened Sums
  import Selections

  ghost predicate SubOf<T>(chosen: seq<T>, xs: seq<T>) {
    multiset(chosen) <= multiset(xs)
  }

  // The elements at the given positions.
  function Chosen<T>(xs: seq<T>, sel: seq<nat>): (r: seq<T>)
    requires forall i | 0 <= i < |sel| :: sel[i] < |xs|
    ensures |r| == |sel|
  {
    seq(|sel|, i requires 0 <= i < |sel| => xs[sel[i]])
  }

  lemma {:induction false} ChosenPush<T>(xs: seq<T>, sel: seq<nat>, k: nat)
    requires k < |xs| && forall i | 0 <= i < |sel| :: sel[i] < |xs|
    ensures Chosen(xs, sel + [k]) == Chosen(xs, sel) + [xs[k]]
  {
  }

  lemma {:induction false} ChosenOfPrefix<T>(xs: seq<T>, n: nat, sel: seq<nat>)
    requires n <= |xs| && Selections.Within(sel, 0, n)
    ensures Chosen(xs[..n], sel) == Chosen(xs, sel)
  {
  }

  lemma {:induction false} WithoutLast(sel: seq<nat>, n: nat)
    requires Selections.Within(sel, 0, n + 1)
    ensures sel != [] && sel[|sel| - 1] == n ==> Selections.Within(sel[..|sel| - 1], 0, n)
    ensures sel == [] || sel[|sel| - 1] != n ==> Selections.Within(sel, 0, n)
  {
    forall i | 0 <= i < |sel| ensures sel[i] < n || i == |sel| - 1 {
      assert i < |sel| - 1 ==> sel[i] < sel[|sel| - 1];
    }
  }

  // A selection of positions picks a sub-collection...
  lemma {:induction false} ChosenIsSub<T>(xs: seq<T>, sel: seq<nat>)
    requires Selections.Within(sel, 0, |xs|)
    ensures SubOf(Chosen(xs, sel), xs)
    decreases |xs|
  {
    if sel != [] {
      assert sel[0] < |xs|;
      var n := |xs| - 1;
      assert xs == xs[..n] + [xs[n]];
      WithoutLast(sel, n);
      if sel[|sel| - 1] == n {
        var front := sel[..|sel| - 1];
        ChosenIsSub(xs[..n], front);
        ChosenOfPrefix(xs, n, front);
        ChosenPush(xs, front, n);
        assert sel == front + [n];
      } else {
        ChosenIsSub(xs[..n], sel);
        ChosenOfPrefix(xs, n, sel);
      }
    }
  }

  // ...and every sub-collection is picked by one.
  lemma {:induction false} Realise<T>(xs: seq<T>, m: multiset<T>) returns (sel: seq<nat>)
    requires m <= multiset(xs)
    ensures Selections.Within(sel, 0, |xs|) && multiset(Chosen(xs, sel)) == m
    decreases |xs|
  {
    if xs == [] {
      sel := [];
    } else {
      var n := |xs| - 1;
      assert xs == xs[..n] + [xs[n]];
      if xs[n] in m {
        var front := Realise(xs[..n], m - multiset{xs[n]});
        ChosenOfPrefix(xs, n, front);
        ChosenPush(xs, front, n);
        Selections.AppendWithin(front, n, 0, |xs|);
        sel := front + [n];
      } else {
        sel := Realise(xs[..n], m);
        ChosenOfPrefix(xs, n, sel);
      }
    }
  }

  function Mapped<T, U>(f: T -> U, s: seq<T>): (r: seq<U>)
    ensures |r| == |s|
  {
    seq(|s|, i requires 0 <= i < |s| => f(s[i]))
  }

  // Totals by position are totals over what was picked.
  lemma {:induction false} SumOfChosen<T>(f: T -> nat, xs: seq<T>, sel: seq<nat>)
    requires forall i | 0 <= i < |sel| :: sel[i] < |xs|
    ensures Selections.Sum(Mapped(f, xs), sel) == SumBy(f, Chosen(xs, sel))
  {
    if sel != [] {
      SumOfChosen(f, xs, sel[1..]);
      assert Chosen(xs, sel)[1..] == Chosen(xs, sel[1..]);
    }
  }

  lemma {:induction false} RemoveFirst<T>(chosen: seq<T>, xs: seq<T>) returns (i: nat)
    requires SubOf(chosen, xs) && chosen != []
    ensures i < |xs| && xs[i] == chosen[0] && SubOf(chosen[1..], xs[..i] + xs[i + 1..])
  {
    assert chosen[0] in multiset(chosen);
    assert chosen[0] in multiset(xs);
    i :| 0 <= i < |xs| && xs[i] == chosen[0];
    RemoveElement(xs, i);
    assert chosen == [chosen[0]] + chosen[1..];
  }

  lemma {:induction false} MappedRemove<T, U>(f: T -> U, s: seq<T>, i: nat)
    requires i < |s|
    ensures multiset(Mapped(f, s)) == multiset{f(s[i])} + multiset(Mapped(f, s[..i] + s[i + 1..]))
  {
    var m := Mapped(f, s);
    assert m[..i] + m[i + 1..] == Mapped(f, s[..i] + s[i + 1..]);
    RemoveElement(m, i);
    assert m[i] in multiset(m);
  }

  // Mapping keeps sub-collections.
  lemma {:induction false} MappedSub<T, U>(f: T -> U, chosen: seq<T>, xs: seq<T>)
    requires SubOf(chosen, xs)
    ensures SubOf(Mapped(f, chosen), Mapped(f, xs))
    decreases |chosen|
  {
    if chosen != [] {
      var i := RemoveFirst(chosen, xs);
      MappedSub(f, chosen[1..], xs[..i] + xs[i + 1..]);
      MappedRemove(f, xs, i);
      MappedRemove(f, chosen, 0);
      assert chosen[..0] + chosen[1..] == chosen[1..];
    }
  }

  // Mapping and filtering commute.
  lemma {:induction false} FilterMapped<T, U>(g: T -> U, p: T -> bool, q: U -> bool, s: seq<T>)
    requires forall i | 0 <= i < |s| :: p(s[i]) <==> q(g(s[i]))
    ensures Filter(q, Mapped(g, s)) == Mapped(g, Filter(p, s))
  {
    if s != [] {
      FilterMapped(g, p, q, s[1..]);
      assert Mapped(g, s)[0] == g(s[0]) && Mapped(g, s)[1..] == Mapped(g, s[1..]);
      assert Mapped(g, [s[0]] + Filter(p, s[1..])) == [g(s[0])] + Mapped(g, Filter(p, s[1..]));
    }
  }

  lemma {:induction false} FilterTwice<T>(p: T -> bool, q: T -> bool, both: T -> bool, s: seq<T>)
    requires forall i | 0 <= i < |s| :: both(s[i]) <==> p(s[i]) && q(s[i])
    ensures Filter(p, Filter(q, s)) == Filter(both, s)
  {
    if s != [] {
      FilterTwice(p, q, both, s[1..]);
      if q(s[0]) {
        assert ([s[0]] + Filter(q, s[1..]))[1..] == Filter(q, s[1..]);
      }
    }
  }

  // A sub-collection of the images comes from a sub-collection.
  lemma {:induction false} LiftChoice<T, U>(g: T -> U, s: seq<T>, chosen: seq<U>) returns (lifted: seq<T>)
    requires SubOf(chosen, Mapped(g, s))
    ensures SubOf(lifted, s) && multiset(Mapped(g, lifted)) == multiset(chosen)
  {
    var sel := Realise(Mapped(g, s), multiset(chosen));
    lifted := Chosen(s, sel);
    ChosenIsSub(s, sel);
    assert Mapped(g, lifted) == Chosen(Mapped(g, s), sel);
  }

  lemma {:induction false} SumOfMapped<T, U>(g: T -> U, f: U -> nat, h: T -> nat, s: seq<T>)
    requires forall x | x in s :: f(g(x)) == h(x)
    ensures SumBy(f, Mapped(g, s)) == SumBy(h, s)
  {
    if s != [] {
      SumOfMapped(g, f, h, s[1..]);
      assert Mapped(g, s)[1..] == Mapped(g, s[1..]);
    }
  }

  // Inserting by a key and then reading the keys is inserting the key.
  lemma {:induction false} InsertByKey<T, U>(f: T -> U, less: (T, T) -> bool, below: (U, U) -> bool, x: T, s: seq<T>)
    requires forall y | y in s :: less(y, x) == below(f(y), f(x))
    ensures InsertSorted(below, f(x), Mapped(f, s)) == Mapped(f, InsertSorted(less, x, s))
  {
    if s != [] {
      var keys := Mapped(f, s);
      assert keys[0] == f(s[0]) && keys[1..] == Mapped(f, s[1..]);
      if less(s[0], x) {
        InsertByKey(f, less, below, x, s[1..]);
        assert Mapped(f, [s[0]] + InsertSorted(less, x, s[1..])) ==
          [f(s[0])] + Mapped(f, InsertSorted(less, x, s[1..]));
      } else {
        assert Mapped(f, [x] + s) == [f(x)] + keys;
      }
    }
  }

  lemma {:induction false} SubSize<T>(chosen: seq<T>, xs: seq<T>)
    requires SubOf(chosen, xs)
    ensures |chosen| <= |xs|
    decreases |chosen|
  {
    if chosen != [] {
      var i := RemoveFirst(chosen, xs);
      SubSize(chosen[1..], xs[..i] + xs[i + 1..]);
    }
  }

  lemma {:induction false} FilterIsSub<T>(p: T -> bool, xs: seq<T>)
    ensures SubOf(Filter(p, xs), xs)
  {
    if xs != [] {
      FilterIsSub(p, xs[1..]);
      assert xs == [xs[0]] + xs[1..];
    }
  }

  lemma {:induction false} FilterPermutes<T>(p: T -> bool, a: seq<T>, b: seq<T>)
    requires multiset(a) == multiset(b)
    ensures multiset(Filter(p, a)) == multiset(Filter(p, b))
    decreases |a|
  {
    if a == [] {
      assert |b| == |multiset(b)| == 0;
    } else {
      var i := MatchFirst(a, b);
      FilterPermutes(p, a[1..], b[..i] + b[i + 1..]);
      FilterAround(p, b, i);
    }
  }

  lemma {:induction false} FilterAround<T>(p: T -> bool, b: seq<T>, i: nat)
    requires i < |b|
    ensures multiset(Filter(p, b)) ==
      multiset(Filter(p, b[..i] + b[i + 1..])) + (if p(b[i]) then multiset{b[i]} else multiset{})
  {
    FilterAppend(p, b[..i], b[i..]);
    FilterAppend(p, b[..i], b[i + 1..]);
    assert b == b[..i] + b[i..];
    assert b[i..][1..] == b[i + 1..];
  }

  lemma {:induction false} FilterAgrees<T>(p: T -> bool, q: T -> bool, s: seq<T>)
    requires forall x | x in s :: p(x) <==> q(x)
    ensures Filter(p, s) == Filter(q, s)
  {
    if s != [] {
      assert s[0] in s;
      FilterAgrees(p, q, s[1..]);
    }
  }

  lemma {:induction false} FilterPush<T>(p: T -> bool, s: seq<T>, x: T)
    ensures Filter(p, s + [x]) == Filter(p, s) + (if p(x) then [x] else [])
  {
    FilterAppend(p, s, [x]);
    assert [x][1..] == [];
  }

  lemma {:induction false} FilterNone<T>(p: T -> bool, s: seq<T>)
    requires forall x | x in s :: !p(x)
    ensures Filter(p, s) == []
  {
    if s != [] {
      assert s[0] in s;
      FilterNone(p, s[1..]);
    }
  }

  lemma {:induction false} MappedPush<T, U>(f: T -> U, s: seq<T>, x: T)
    ensures Mapped(f, s + [x]) == Mapped(f, s) + [f(x)]
  {
  }

  lemma {:induction false} MappedPermutes<T, U>(f: T -> U, a: seq<T>, b: seq<T>)
    requires multiset(a) == multiset(b)
    ensures multiset(Mapped(f, a)) == multiset(Mapped(f, b))
  {
    MappedSub(f, a, b);
    MappedSub(f, b, a);
  }

  ghost predicate Distinct<T>(s: seq<T>) {
    forall i, j | 0 <= i < j < |s| :: s[i] != s[j]
  }

  ghost predicate DistinctBy<T, U>(f: T -> U, s: seq<T>) {
    forall i, j | 0 <= i < j < |s| :: f(s[i]) != f(s[j])
  }

  // A sub-collection of a list without repeated keys has none either.
  lemma {:induction false} DistinctBySub<T, U>(f: T -> U, sub: seq<T>, s: seq<T>)
    requires SubOf(sub, s) && DistinctBy(f, s)
    ensures DistinctBy(f, sub)
    decreases |sub|
  {
    if sub != [] {
      var k := RemoveFirst(sub, s);
      var rest := s[..k] + s[k + 1..];
      assert forall i | 0 <= i < |rest| :: rest[i] == s[if i < k then i else i + 1];
      DistinctBySub(f, sub[1..], rest);
      forall j | 0 < j < |sub| ensures f(sub[0]) != f(sub[j]) {
        assert sub[1..][j - 1] in multiset(rest);
        assert sub[j] in rest;
      }
      assert forall i | 0 <= i < |sub[1..]| :: sub[1..][i] == sub[i + 1];
    }
  }

  // Comparing by a key that never repeats is a strict total order.
  lemma {:induction false} KeyOrderTotal<T>(f: T -> nat, less: (T, T) -> bool, s: seq<T>)
    requires DistinctBy(f, s) && forall x, y | x in s && y in s :: less(x, y) <==> f(x) < f(y)
    ensures StrictTotal(less, multiset(s))
  {
    forall x | x in multiset(s) ensures x in s {
    }
    forall x, y | x in s && y in s && x != y ensures f(x) != f(y) {
      var i :| 0 <= i < |s| && s[i] == x;
      var j :| 0 <= j < |s| && s[j] == y;
      assert i < j || j < i;
    }
  }

  lemma {:induction false} DistinctTail<T, U>(f: T -> U, xs: seq<T>)
    requires xs != [] && Distinct(Mapped(f, xs))
    ensures Mapped(f, xs) == [f(xs[0])] + Mapped(f, xs[1..])
    ensures Distinct(Mapped(f, xs[1..])) && f(xs[0]) !in multiset(Mapped(f, xs[1..]))
  {
    var tail := Mapped(f, xs[1..]);
    assert Mapped(f, xs)[0] == f(xs[0]);
    forall i | 0 <= i < |tail| ensures tail[i] == Mapped(f, xs)[i + 1] {
      assert xs[1..][i] == xs[i + 1];
    }
    assert f(xs[0]) !in tail;
  }

  lemma {:induction false} TakeOut<U>(m: multiset<U>, u: U, tail: seq<U>)
    requires m <= multiset([u] + tail) && u !in multiset(tail)
    ensures m - multiset{u} <= multiset(tail) && u !in m - multiset{u}
    ensures forall v | v != u :: v in m - multiset{u} <==> v in m
    ensures m == (if u in m then multiset{u} else multiset{}) + (m - multiset{u})
  {
    assert multiset([u] + tail) == multiset{u} + multiset(tail);
  }

  lemma {:induction false} MembersOfRest<T, U>(f: T -> U, p: T -> bool, xs: seq<T>, m: multiset<U>)
    requires xs != [] && Distinct(Mapped(f, xs)) && m <= multiset(Mapped(f, xs))
    requires forall x | x in xs :: p(x) <==> f(x) in m
    ensures forall y | y in xs[1..] :: p(y) <==> f(y) in m - multiset{f(xs[0])}
    ensures m - multiset{f(xs[0])} <= multiset(Mapped(f, xs[1..]))
  {
    DistinctTail(f, xs);
    TakeOut(m, f(xs[0]), Mapped(f, xs[1..]));
    forall y | y in xs[1..] ensures p(y) <==> f(y) in m - multiset{f(xs[0])} {
      MappedMember(f, xs[1..], y);
    }
  }

  lemma {:induction false} FilterStep<T, U>(f: T -> U, p: T -> bool, xs: seq<T>, rest: multiset<U>)
    requires xs != [] && multiset(Mapped(f, Filter(p, xs[1..]))) == rest
    ensures multiset(Mapped(f, Filter(p, xs))) == (if p(xs[0]) then multiset{f(xs[0])} else multiset{}) + rest
  {
    var x, kept := xs[0], Filter(p, xs[1..]);
    if p(x) {
      assert Mapped(f, [x] + kept) == [f(x)] + Mapped(f, kept);
    }
  }

  // A sub-collection of distinct elements is what membership in it filters out.
  lemma {:induction false} FilterRecovers<T, U>(f: T -> U, p: T -> bool, xs: seq<T>, m: multiset<U>)
    requires Distinct(Mapped(f, xs)) && m <= multiset(Mapped(f, xs))
    requires forall x | x in xs :: p(x) <==> f(x) in m
    ensures multiset(Mapped(f, Filter(p, xs))) == m
    decreases |xs|
  {
    if xs != [] {
      var x := xs[0];
      var less := m - multiset{f(x)};
      assert p(x) <==> f(x) in m;
      DistinctTail(f, xs);
      MembersOfRest(f, p, xs, m);
      TakeOut(m, f(x), Mapped(f, xs[1..]));
      FilterRecovers(f, p, xs[1..], less);
      hide Distinct, Filter, Mapped;
      FilterStep(f, p, xs, less);
    }
  }

  lemma {:induction false} MappedMember<T, U>(f: T -> U, xs: seq<T>, x: T)
    requires x in xs
    ensures f(x) in multiset(Mapped(f, xs))
  {
    var i :| 0 <= i < |xs| && xs[i] == x;
    assert Mapped(f, xs)[i] == f(x);
  }

  // --------------------------------------------------------------------------
  // The cheapest sub-collection of a given size
  // --------------------------------------------------------------------------

  ghost predicate Ascending<T>(f: T -> nat, s: seq<T>) {
    forall i, j | 0 <= i < j < |s| :: f(s[i]) <= f(s[j])
  }

  lemma {:induction false} DropOne<T>(chosen: seq<T>, xs: seq<T>) returns (k: nat)
    requires SubOf(chosen, xs) && chosen != [] && xs != []
    ensures k < |chosen| && SubOf(chosen[..k] + chosen[k + 1..], xs[1..])
    ensures chosen[k] in xs
  {
    assert xs == [xs[0]] + xs[1..];
    if xs[0] in chosen {
      k :| 0 <= k < |chosen| && chosen[k] == xs[0];
    } else {
      k := 0;
      assert chosen[0] in multiset(chosen);
      assert chosen[0] in multiset(xs);
      assert multiset(chosen)[xs[0]] == 0;
    }
    RemoveElement(chosen, k);
  }

  // In a list sorted by cost the first k elements are a cheapest choice of k.
  lemma {:induction false} PrefixIsCheapest<T>(f: T -> nat, xs: seq<T>, chosen: seq<T>)
    requires Ascending(f, xs) && SubOf(chosen, xs) && |chosen| <= |xs|
    ensures SumBy(f, xs[..|chosen|]) <= SumBy(f, chosen)
    decreases |chosen|
  {
    if chosen != [] {
      var k := DropOne(chosen, xs);
      var rest := chosen[..k] + chosen[k + 1..];
      SubSize(rest, xs[1..]);
      PrefixIsCheapest(f, xs[1..], rest);
      SumRemove(f, chosen, k);
      assert xs[..|chosen|][1..] == xs[1..][..|rest|];
    }
  }
}
