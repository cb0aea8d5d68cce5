// The exhaustive reference solver (src/engine/reference_solver.cpp): every subset of
// the rigid candidates, enumerated as bit masks. It shares nothing with the branch
// and bound, and an OPTIMAL plan agrees with it.
module ReferenceSolver {
  import opened Core
  import opened Contracts
  import opened Allocator
  import opened Sorting
  import opened Sums
  import opened Selections
  import opened Subsets
  import opened PlanOptimality
  import opened PlanAcceptance
  import BB = BranchAndBound

  datatype Solution = Solution(count: nat, priority: nat, served: seq<u64>, examined: nat)

  // --------------------------------------------------------------------------
  // Masks and selections
  // --------------------------------------------------------------------------

  function Bit(mask: nat, i: nat): bool {
    mask / BB.Pow2(i) % 2 == 1
  }

  // The positions below n whose bit is set.
  function Bits(mask: nat, n: nat): (sel: seq<nat>)
    ensures Within(sel, 0, n)
  {
    if n == 0 then []
    else if Bit(mask, n - 1) then Bits(mask, n - 1) + [n - 1]
    else Bits(mask, n - 1)
  }

  lemma {:induction false} AddMultiple(m: nat, p: nat, k: nat)
    requires p > 0
    ensures (m + p * (2 * k)) / p == m / p + 2 * k
  {
    var q, rest := m / p, m % p;
    assert m + p * (2 * k) == p * (q + 2 * k) + rest;
    QuotientIs(m + p * (2 * k), p, q + 2 * k, rest);
  }

  lemma {:induction false} QuotientIs(x: nat, p: nat, q: nat, rest: nat)
    requires p > 0 && x == p * q + rest && rest < p
    ensures x / p == q
  {
    var d := x / p;
    assert x == p * d + x % p;
    assert d < q ==> p * (d + 1) <= p * q;
    assert q < d ==> p * (q + 1) <= p * d;
  }

  lemma {:induction false} Doubled(p: nat, k: nat)
    ensures (2 * p) * k == p * (2 * k)
  {
  }

  // Higher bits do not disturb lower ones.
  lemma {:induction false} HighBitsIgnored(mask: nat, k: nat, n: nat)
    ensures Bits(mask + BB.Pow2(n) * k, n) == Bits(mask, n)
    decreases n
  {
    if n > 0 {
      var p := BB.Pow2(n - 1);
      Doubled(p, k);
      assert Bit(mask + p * (2 * k), n - 1) == Bit(mask, n - 1) by { AddMultiple(mask, p, k); }
      hide Bit;
      HighBitsIgnored(mask, 2 * k, n - 1);
    }
  }

  // Every selection is some mask.
  lemma {:induction false} MaskOf(sel: seq<nat>, n: nat) returns (mask: nat)
    requires Within(sel, 0, n)
    ensures mask < BB.Pow2(n) && Bits(mask, n) == sel
  {
    if n == 0 {
      mask := 0;
      assert sel == [];
    } else {
      WithoutLast(sel, n - 1);
      var p := BB.Pow2(n - 1);
      if sel != [] && sel[|sel| - 1] == n - 1 {
        var low := MaskOf(sel[..|sel| - 1], n - 1);
        mask := low + p * 1;
        HighBitsIgnored(low, 1, n - 1);
        QuotientIs(mask, p, 1, low);
        assert sel == sel[..|sel| - 1] + [n - 1];
      } else {
        mask := MaskOf(sel, n - 1);
        QuotientIs(mask, p, 0, mask);
      }
    }
  }

  // --------------------------------------------------------------------------
  // The specification
  // --------------------------------------------------------------------------

  function IdOf(c: ServiceContract): u64 {
    c.id
  }

  ghost predicate FitsIn(cs: seq<ServiceContract>, capacity: nat, sel: seq<nat>) {
    Within(sel, 0, |cs|) && Sum(Mapped(Demand, cs), sel) <= capacity
  }

  function IdsOf(cs: seq<ServiceContract>, sel: seq<nat>): seq<u64>
    requires forall i | 0 <= i < |sel| :: sel[i] < |cs|
  {
    Mapped(IdOf, Chosen(cs, sel))
  }

  // a is no worse than b: more contracts, then more priority, then no larger an identity
  // list.
  ghost predicate Preferred(cs: seq<ServiceContract>, a: seq<nat>, b: seq<nat>)
    requires Within(a, 0, |cs|) && Within(b, 0, |cs|)
  {
    var pa, pb := Sum(Mapped(Priority, cs), a), Sum(Mapped(Priority, cs), b);
    || |a| > |b|
    || (|a| == |b| && pa > pb)
    || (|a| == |b| && pa == pb && !LexLess(IdsOf(cs, b), IdsOf(cs, a)))
  }

  // A selection that fits and is no worse than any other that fits.
  ghost predicate Optimum(cs: seq<ServiceContract>, capacity: nat, sel: seq<nat>) {
    FitsIn(cs, capacity, sel) && forall other | FitsIn(cs, capacity, other) :: Preferred(cs, sel, other)
  }

  lemma {:induction false} PreferredTransitive(cs: seq<ServiceContract>, a: seq<nat>, b: seq<nat>, c: seq<nat>)
    requires Within(a, 0, |cs|) && Within(b, 0, |cs|) && Within(c, 0, |cs|)
    requires Preferred(cs, a, b) && Preferred(cs, b, c)
    ensures Preferred(cs, a, c)
  {
    hide LexLess, Sum, IdsOf;
    var x, y, z := IdsOf(cs, a), IdsOf(cs, b), IdsOf(cs, c);
    LexTrichotomy(x, y);
    LexTrichotomy(y, z);
    if LexLess(x, y) && LexLess(y, z) { LexTransitive(x, y, z); }
    if LexLess(x, z) { LexAsymmetric(x, z); }
    if x == z { LexIrreflexive(x); }
  }

  lemma {:induction false} LexIrreflexive(a: seq<nat>)
    ensures !LexLess(a, a)
  {
    if a != [] { LexIrreflexive(a[1..]); }
  }

  lemma {:induction false} LexAsymmetric(a: seq<nat>, b: seq<nat>)
    requires LexLess(a, b)
    ensures !LexLess(b, a)
  {
    if LexLess(b, a) {
      LexTransitive(a, b, a);
      LexIrreflexive(a);
    }
  }

  // Repeated identities or not, all optima serve the same number, the same priority and
  // the same identities.
  lemma {:induction false} OneOptimum(cs: seq<ServiceContract>, capacity: nat, a: seq<nat>, b: seq<nat>)
    requires Optimum(cs, capacity, a) && Optimum(cs, capacity, b)
    ensures |a| == |b| && Sum(Mapped(Priority, cs), a) == Sum(Mapped(Priority, cs), b) && IdsOf(cs, a) == IdsOf(cs, b)
  {
    hide LexLess, Sum, IdsOf;
    LexTrichotomy(IdsOf(cs, a), IdsOf(cs, b));
    assert Preferred(cs, a, b) && Preferred(cs, b, a);
  }

  // --------------------------------------------------------------------------
  // The solver
  // --------------------------------------------------------------------------

  // One subset: its totals, or the overflow that stopped the addition.
  method Measure(cs: seq<ServiceContract>, mask: nat)
    returns (overflow: bool, weight: nat, served: nat, priority: nat, ids: seq<u64>)
    requires |cs| < 63
    ensures overflow ==> Sum(Mapped(Demand, cs), Bits(mask, |cs|)) > U64_MAX
    ensures !overflow ==> weight == Sum(Mapped(Demand, cs), Bits(mask, |cs|)) && served == |Bits(mask, |cs|)|
    ensures !overflow ==> priority == Sum(Mapped(Priority, cs), Bits(mask, |cs|))
    ensures !overflow ==> ids == Mapped(IdOf, Chosen(cs, Bits(mask, |cs|)))
  {
    hide ServiceContract.Demand, Bit;
    overflow, weight, served, priority, ids := false, 0, 0, 0, [];
    for bit := 0 to |cs|
      invariant !overflow && served == |Bits(mask, bit)| && priority <= bit * U32_MAX
      invariant weight == Sum(Mapped(Demand, cs), Bits(mask, bit))
      invariant priority == Sum(Mapped(Priority, cs), Bits(mask, bit))
      invariant ids == Mapped(IdOf, Chosen(cs, Bits(mask, bit)))
    {
      if !Bit(mask, bit) { continue; }
      ghost var sel := Bits(mask, bit);
      SumPush(Mapped(Demand, cs), sel, bit);
      SumPush(Mapped(Priority, cs), sel, bit);
      ChosenPush(cs, sel, bit);
      MappedPush(IdOf, Chosen(cs, sel), cs[bit]);
      assert Mapped(Demand, cs)[bit] == Demand(cs[bit]) && Mapped(Priority, cs)[bit] == Priority(cs[bit]);
      var nextWeight := CheckedAdd(weight, cs[bit].Demand());
      if nextWeight.None? {
        overflow := true;
        MoreBitsWeighMore(Mapped(Demand, cs), mask, bit + 1, |cs|);
        return;
      }
      weight, served := nextWeight.value, served + 1;
      // At most 62 priorities below 2^32: this addition cannot overflow.
      var nextPriority := CheckedAdd(priority, cs[bit].priority);
      priority := nextPriority.value;
      ids := ids + [cs[bit].id];
    }
  }

  lemma {:induction false} MoreBitsWeighMore(xs: seq<nat>, mask: nat, lo: nat, hi: nat)
    requires lo <= hi <= |xs|
    ensures Sum(xs, Bits(mask, lo)) <= Sum(xs, Bits(mask, hi))
    decreases hi
  {
    if lo < hi {
      MoreBitsWeighMore(xs, mask, lo, hi - 1);
      if Bit(mask, hi - 1) { SumPush(xs, Bits(mask, hi - 1), hi - 1); }
    }
  }

  // `best` is the preferred selection among the masks below `mask`.
  ghost predicate BestBelow(cs: seq<ServiceContract>, capacity: nat, best: seq<nat>, mask: nat) {
    && FitsIn(cs, capacity, best)
    && forall m | 0 <= m < mask && FitsIn(cs, capacity, Bits(m, |cs|)) :: Preferred(cs, best, Bits(m, |cs|))
  }

  lemma {:induction false} AllMasksSeen(cs: seq<ServiceContract>, capacity: nat, best: seq<nat>)
    requires BestBelow(cs, capacity, best, BB.Pow2(|cs|))
    ensures Optimum(cs, capacity, best)
  {
    hide Preferred;
    forall other | FitsIn(cs, capacity, other) ensures Preferred(cs, best, other) {
      var m := MaskOf(other, |cs|);
      assert FitsIn(cs, capacity, Bits(m, |cs|));
    }
  }

  lemma {:induction false} StepBest(cs: seq<ServiceContract>, capacity: nat, best: seq<nat>, next: seq<nat>, mask: nat)
    requires BestBelow(cs, capacity, best, mask) && FitsIn(cs, capacity, next)
    requires Preferred(cs, next, best) && Preferred(cs, next, Bits(mask, |cs|))
    ensures BestBelow(cs, capacity, next, mask + 1)
  {
    forall m | 0 <= m < mask + 1 && FitsIn(cs, capacity, Bits(m, |cs|))
      ensures Preferred(cs, next, Bits(m, |cs|))
    {
      if m < mask { PreferredTransitive(cs, next, best, Bits(m, |cs|)); }
    }
  }

  lemma {:induction false} SkipMask(cs: seq<ServiceContract>, capacity: nat, best: seq<nat>, mask: nat)
    requires BestBelow(cs, capacity, best, mask) && !FitsIn(cs, capacity, Bits(mask, |cs|))
    ensures BestBelow(cs, capacity, best, mask + 1)
  {
    hide Preferred;
  }

  // What the running best says about the selection it stands for.
  ghost predicate Records(cs: seq<ServiceContract>, sel: seq<nat>, count: nat, priority: nat, ids: seq<u64>) {
    && Within(sel, 0, |cs|)
    && count == |sel|
    && priority == Sum(Mapped(Priority, cs), sel)
    && ids == Mapped(IdOf, Chosen(cs, sel))
  }

  lemma {:induction false} CompareRecords(cs: seq<ServiceContract>, a: seq<nat>, ca: nat, pa: nat, ia: seq<u64>,
                                          b: seq<nat>, cb: nat, pb: nat, ib: seq<u64>)
    requires Records(cs, a, ca, pa, ia) && Records(cs, b, cb, pb, ib)
    ensures var better := ca > cb || (ca == cb && pa > pb) || (ca == cb && pa == pb && LexLess(ia, ib));
      Preferred(cs, if better then a else b, a) && Preferred(cs, if better then a else b, b)
  {
    hide LexLess, Sum;
    LexIrreflexive(ia);
    LexIrreflexive(ib);
    if LexLess(ia, ib) { LexAsymmetric(ia, ib); }
  }

  // Enumerates every mask and keeps the preferred subset that fits.
  method SolveOver(cs: seq<ServiceContract>, capacity: u64) returns (s: Solution, ghost sel: seq<nat>)
    requires |cs| < 63
    ensures Optimum(cs, capacity, sel) && Records(cs, sel, s.count, s.priority, s.served)
    ensures s.examined == BB.Pow2(|cs|)
  {
    hide Preferred, BestBelow, Sum, LexLess, Bits, Optimum;
    var subsets := BB.Pow2(|cs|);
    var count, priority, ids := 0, 0, [];
    sel := [];
    assert Records(cs, sel, count, priority, ids) by { EmptyRecord(cs); }
    NothingBelow(cs, capacity);
    for mask := 0 to subsets
      invariant Records(cs, sel, count, priority, ids) && BestBelow(cs, capacity, sel, mask)
    {
      var overflow, weight, served, total, names := Measure(cs, mask);
      ghost var here := Bits(mask, |cs|);
      if overflow || weight > capacity {
        SkipMask(cs, capacity, sel, mask);
        continue;
      }
      CompareRecords(cs, here, served, total, names, sel, count, priority, ids);
      BestFits(cs, capacity, sel, mask);
      if served > count || (served == count && total > priority)
        || (served == count && total == priority && LexLess(names, ids)) {
        StepBest(cs, capacity, sel, here, mask);
        count, priority, ids, sel := served, total, names, here;
      } else {
        StepBest(cs, capacity, sel, sel, mask);
      }
    }
    AllMasksSeen(cs, capacity, sel);
    s := Solution(count, priority, ids, subsets);
  }

  lemma {:induction false} EmptyRecord(cs: seq<ServiceContract>)
    ensures Records(cs, [], 0, 0, [])
  {
  }

  lemma {:induction false} NothingBelow(cs: seq<ServiceContract>, capacity: nat)
    ensures BestBelow(cs, capacity, [], 0)
  {
  }

  lemma {:induction false} BestFits(cs: seq<ServiceContract>, capacity: nat, best: seq<nat>, mask: nat)
    requires BestBelow(cs, capacity, best, mask)
    ensures FitsIn(cs, capacity, best)
  {
  }

  // --------------------------------------------------------------------------
  // The request
  // --------------------------------------------------------------------------

  ghost function ReferenceCandidates(r: Request): seq<ServiceContract> {
    SortBy(ById, Filter((c: ServiceContract) => Supportable(c, r), r.contracts))
  }

  method Solve(r: Request, maxSubsets: nat) returns (s: Result<Solution>, ghost sel: seq<nat>)
    ensures s == Err(SearchLimitReached) <==>
      |ReferenceCandidates(r)| >= 63 || BB.Pow2(|ReferenceCandidates(r)|) > maxSubsets
    ensures s.Err? ==> s == Err(SearchLimitReached)
    ensures s.Ok? ==> Optimum(ReferenceCandidates(r), r.capability.bandwidth, sel)
    ensures s.Ok? ==> Records(ReferenceCandidates(r), sel, s.value.count, s.value.priority, s.value.served)
  {
    hide Supportable, Repeats, SortBy, Optimum, Records;
    var found: seq<ServiceContract> := [];
    ghost var keep := (c: ServiceContract) => Supportable(c, r);
    for i := 0 to |r.contracts|
      invariant found == Filter(keep, r.contracts[..i])
    {
      var c := r.contracts[i];
      FilterPush(keep, r.contracts[..i], c);
      assert r.contracts[..i + 1] == r.contracts[..i] + [c];
      if Supportable(c, r) { found := found + [c]; }
    }
    assert r.contracts[..|r.contracts|] == r.contracts;
    var cs := SortBy(ById, found);
    sel := [];
    if |cs| >= 63 { return Err(SearchLimitReached), sel; }
    if BB.Pow2(|cs|) > maxSubsets { return Err(SearchLimitReached), sel; }
    var solution;
    solution, sel := SolveOver(cs, r.capability.bandwidth);
    s := Ok(solution);
  }

  lemma {:induction false} SortedContractsDistinct(cs: seq<ServiceContract>)
    requires !Repeats(SortBy(ById, cs))
    ensures DistinctBy(IdOf, cs)
  {
    SortedContracts(cs);
    DistinctBySub(IdOf, cs, SortBy(ById, cs));
  }

  // --------------------------------------------------------------------------
  // Agreement
  // --------------------------------------------------------------------------

  lemma {:induction false} OptimumIsBest(cs: seq<ServiceContract>, capacity: nat, sel: seq<nat>)
    requires Optimum(cs, capacity, sel)
    ensures BestChoice(Chosen(cs, sel), cs, capacity)
    ensures SumBy(Priority, Chosen(cs, sel)) == Sum(Mapped(Priority, cs), sel)
  {
    hide SumBy, Sum, Demand;
    ChosenIsSub(cs, sel);
    SumOfChosen(Demand, cs, sel);
    SumOfChosen(Priority, cs, sel);
    var best := Chosen(cs, sel);
    forall other | SubOf(other, cs) && SumBy(Demand, other) <= capacity ensures Outdone(other, best) {
      var alt := Realise(cs, multiset(other));
      SumOfChosen(Demand, cs, alt);
      SumOfChosen(Priority, cs, alt);
      SumPermutes(Demand, Chosen(cs, alt), other);
      SumPermutes(Priority, Chosen(cs, alt), other);
      SameElements(Chosen(cs, alt), other);
      assert Preferred(cs, sel, alt);
    }
  }

  lemma {:induction false} BestChoicesAgree(a: seq<ServiceContract>, b: seq<ServiceContract>, cs: seq<ServiceContract>,
                                            ds: seq<ServiceContract>, capacity: nat)
    requires BestChoice(a, cs, capacity) && BestChoice(b, ds, capacity) && multiset(cs) == multiset(ds)
    ensures |a| == |b| && SumBy(Priority, a) == SumBy(Priority, b)
  {
    hide SumBy, Demand;
    assert Outdone(a, b) && Outdone(b, a);
  }

  ghost predicate ProfiledThroughout(r: Request) {
    forall c | c in r.contracts && Supportable(c, r) :: ProfileFor(r.policy.profiles, c.serviceClass).Some?
  }

  lemma {:induction false} SameCandidates(r: Request)
    requires ProfiledThroughout(r)
    ensures multiset(Candidates(r)) == multiset(ReferenceCandidates(r))
  {
    hide Supportable, SortBy;
    var admissible := (c: ServiceContract) => AdmissibleRigid(c, r);
    var supportable := (c: ServiceContract) => Supportable(c, r);
    FilterPermutes(admissible, SortBy(ById, r.contracts), r.contracts);
    FilterAgrees(admissible, supportable, r.contracts);
  }

  lemma {:induction false} CandidatesValid(r: Request)
    ensures forall c | c in Candidates(r) :: ValidContract(c)
  {
    hide ContractFault, SortBy;
  }

  // An OPTIMAL plan serves as many rigid contracts, with the same priority sum, as
  // the best subset found by exhaustive enumeration.
  lemma {:induction false} OptimalPlanMatchesReference(r: Request, sel: seq<nat>)
    requires Allocate(r).Ok? && Allocate(r).value.status.Optimal? && ProfiledThroughout(r)
    requires |ReferenceCandidates(r)| < 63
    requires Optimum(ReferenceCandidates(r), r.capability.bandwidth, sel)
    ensures |ServedContracts(Allocate(r).value, r)| == |sel|
    ensures SumBy(Priority, ServedContracts(Allocate(r).value, r)) == Sum(Mapped(Priority, ReferenceCandidates(r)), sel)
  {
    hide Allocate, ServedContracts, SumBy, Sum, Candidates, ReferenceCandidates, BestChoice, ExactlyComparable,
         ProfiledThroughout;
    SameCandidates(r);
    SameElements(Candidates(r), ReferenceCandidates(r));
    CandidatesValid(r);
    SmallRequestsComparable(Candidates(r));
    OptimalPlanServesBest(r);
    OptimumIsBest(ReferenceCandidates(r), r.capability.bandwidth, sel);
    BestChoicesAgree(ServedContracts(Allocate(r).value, r), Chosen(ReferenceCandidates(r), sel),
                     Candidates(r), ReferenceCandidates(r), r.capability.bandwidth);
  }
}
