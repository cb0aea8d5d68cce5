// Subsets of an item list, written as strictly increasing index sequences, and
// their totals. This is the vocabulary in which both solvers are specified.
module Selections {

  ghost predicate Within(sel: seq<nat>, lo: nat, hi: nat) {
    && (forall i | 0 <= i < |sel| :: lo <= sel[i] < hi)
    && (forall i, j | 0 <= i < j < |sel| :: sel[i] < sel[j])
  }

  // The total of xs over the selected positions; positions past the end add nothing.
  function Sum(xs: seq<nat>, sel: seq<nat>): (r: nat) {
    if sel == [] then 0
    else (if sel[0] < |xs| then xs[sel[0]] else 0) + Sum(xs, sel[1..])
  }

  function SumFrom(xs: seq<nat>, lo: nat): (r: nat)
    decreases |xs| - lo
  {
    if lo >= |xs| then 0 else xs[lo] + SumFrom(xs, lo + 1)
  }

  lemma {:induction false} SumAppend(xs: seq<nat>, a: seq<nat>, b: seq<nat>)
    ensures Sum(xs, a + b) == Sum(xs, a) + Sum(xs, b)
  {
    if a == [] {
      assert a + b == b;
    } else {
      SumAppend(xs, a[1..], b);
      assert (a + b)[1..] == a[1..] + b;
    }
  }

  lemma {:induction false} SumPush(xs: seq<nat>, a: seq<nat>, i: nat)
    requires i < |xs|
    ensures Sum(xs, a + [i]) == Sum(xs, a) + xs[i]
  {
    SumAppend(xs, a, [i]);
    assert Sum(xs, [i]) == xs[i] + Sum(xs, [i][1..]);
  }

  // A selection either starts at lo or avoids it altogether.
  lemma {:induction false} SplitFirst(sel: seq<nat>, lo: nat, hi: nat)
    requires Within(sel, lo, hi)
    ensures sel != [] && sel[0] == lo ==> Within(sel[1..], lo + 1, hi)
    ensures sel == [] || sel[0] != lo ==> Within(sel, lo + 1, hi)
  {
    if sel != [] && sel[0] == lo {
      var t := sel[1..];
      forall i | 0 <= i < |t| ensures lo + 1 <= t[i] < hi {
        assert t[i] == sel[i + 1] && sel[0] < sel[i + 1];
      }
    } else if sel != [] {
      forall i | 0 <= i < |sel| ensures lo + 1 <= sel[i] < hi {
        assert sel[0] <= sel[i];
      }
    }
  }

  lemma {:induction false} CountBounded(sel: seq<nat>, lo: nat, hi: nat)
    requires Within(sel, lo, hi) && lo <= hi
    ensures |sel| <= hi - lo
    decreases hi - lo
  {
    if sel != [] {
      SplitFirst(sel, lo, hi);
      CountBounded(if sel[0] == lo then sel[1..] else sel, lo + 1, hi);
    }
  }

  lemma {:induction false} SumBounded(xs: seq<nat>, sel: seq<nat>, lo: nat)
    requires Within(sel, lo, |xs|) && lo <= |xs|
    ensures Sum(xs, sel) <= SumFrom(xs, lo)
    decreases |xs| - lo
  {
    if sel != [] {
      SplitFirst(sel, lo, |xs|);
      SumBounded(xs, if sel[0] == lo then sel[1..] else sel, lo + 1);
    }
  }

  lemma {:induction false} AppendWithin(a: seq<nat>, i: nat, lo: nat, hi: nat)
    requires Within(a, lo, i) && lo <= i < hi
    ensures Within(a + [i], lo, i + 1) && Within(a + [i], lo, hi)
  {
  }

  // std::vector comparison: lexicographic, a proper prefix being smaller.
  predicate LexLess(a: seq<nat>, b: seq<nat>) {
    if b == [] then false
    else if a == [] then true
    else if a[0] != b[0] then a[0] < b[0]
    else LexLess(a[1..], b[1..])
  }

  lemma {:induction false} LexTrichotomy(a: seq<nat>, b: seq<nat>)
    ensures a == b || LexLess(a, b) || LexLess(b, a)
  {
    if a != [] && b != [] && a[0] == b[0] {
      LexTrichotomy(a[1..], b[1..]);
      assert a == [a[0]] + a[1..] && b == [b[0]] + b[1..];
    }
  }

  lemma {:induction false} LexTransitive(a: seq<nat>, b: seq<nat>, c: seq<nat>)
    requires LexLess(a, b) && LexLess(b, c)
    ensures LexLess(a, c)
  {
    if a != [] && a[0] == b[0] == c[0] {
      LexTransitive(a[1..], b[1..], c[1..]);
    }
  }

  // a is preferred to b: more members, then a larger priority sum, then the
  // lexicographically smaller index sequence.
  predicate NotWorse(priorities: seq<nat>, a: seq<nat>, b: seq<nat>) {
    || a == b
    || |a| > |b|
    || (|a| == |b| && Sum(priorities, a) > Sum(priorities, b))
    || (|a| == |b| && Sum(priorities, a) == Sum(priorities, b) && LexLess(a, b))
  }

  lemma {:induction false} NotWorseTransitive(p: seq<nat>, a: seq<nat>, b: seq<nat>, c: seq<nat>)
    requires NotWorse(p, a, b) && NotWorse(p, b, c)
    ensures NotWorse(p, a, c)
  {
    if LexLess(a, b) && LexLess(b, c) {
      LexTransitive(a, b, c);
    }
  }
}
