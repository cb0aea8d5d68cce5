// The infeasibility certificate (src/engine/allocator.cpp): adding up the smallest
// rigid demands decides exactly whether the protected minimum can be met.
module Certificates {
  import opened Core
  import opened Assessments
  import opened Allocator
  import opened Sorting
  import opened Sums
  import opened Subsets

  predicate DemandLess(a: Assessment, b: Assessment) {
    DemandOf(a) < DemandOf(b)
  }

  // --------------------------------------------------------------------------
  // Sorting the demands is sorting the contracts by demand
  // --------------------------------------------------------------------------

  lemma {:induction false} SortCommutes(s: seq<Assessment>)
    ensures SortBy<nat>(Less, Mapped(DemandOf, s)) == Mapped(DemandOf, SortBy(DemandLess, s))
  {
    if s != [] {
      SortCommutes(s[1..]);
      assert Mapped(DemandOf, s)[1..] == Mapped(DemandOf, s[1..]);
      InsertByKey<Assessment, nat>(DemandOf, DemandLess, Less, s[0], SortBy(DemandLess, s[1..]));
    }
  }

  lemma {:induction false} DemandsOfSorted(rigid: seq<Assessment>)
    ensures SortedDemands(rigid) == Mapped(DemandOf, SortBy(DemandLess, rigid))
    ensures Ascending(DemandOf, SortBy(DemandLess, rigid))
  {
    SortCommutes(rigid);
    assert Mapped(DemandOf, rigid) == seq(|rigid|, i requires 0 <= i < |rigid| => DemandOf(rigid[i]));
    SortByWeak(DemandLess, rigid);
  }

  // --------------------------------------------------------------------------
  // The checked running sum
  // --------------------------------------------------------------------------

  lemma {:induction false} DemandUpToMeaning(s: seq<Assessment>, n: nat)
    requires n <= |s|
    ensures var (sum, overflow) := DemandUpTo(Mapped(DemandOf, s), n);
      if overflow then SumBy(DemandOf, s[..n]) > U64_MAX else sum == SumBy(DemandOf, s[..n]) <= U64_MAX
  {
    if n > 0 {
      DemandUpToMeaning(s, n - 1);
      assert s[..n] == s[..n - 1] + [s[n - 1]];
      SumAppend(DemandOf, s[..n - 1], [s[n - 1]]);
      assert SumBy(DemandOf, [s[n - 1]]) == DemandOf(s[n - 1]);
    }
  }

  lemma {:induction false} ImpossibleMeaning(s: seq<Assessment>, required: nat, capacity: nat)
    requires capacity <= U64_MAX
    ensures Impossible(Mapped(DemandOf, s), required, capacity) <==>
      required > |s| || SumBy(DemandOf, s[..required]) > capacity
  {
    if required <= |s| { DemandUpToMeaning(s, required); }
  }

  // --------------------------------------------------------------------------
  // Soundness and completeness
  // --------------------------------------------------------------------------

  // `required` of the given contracts can be served together.
  ghost predicate CanServe(rigid: seq<Assessment>, required: nat, capacity: nat) {
    exists chosen :: SubOf(chosen, rigid) && |chosen| == required && SumBy(DemandOf, chosen) <= capacity
  }

  lemma {:induction false} PrefixServes(s: seq<Assessment>, rigid: seq<Assessment>, required: nat, capacity: nat)
    requires multiset(s) == multiset(rigid) && required <= |s| && SumBy(DemandOf, s[..required]) <= capacity
    ensures CanServe(rigid, required, capacity)
  {
    hide SumBy, DemandOf;
    assert s == s[..required] + s[required..];
    assert SubOf(s[..required], rigid);
  }

  lemma {:induction false} CheapestDecides(rigid: seq<Assessment>, required: nat, capacity: nat)
    ensures var s := SortBy(DemandLess, rigid);
      CanServe(rigid, required, capacity) <==> required <= |s| && SumBy(DemandOf, s[..required]) <= capacity
  {
    hide SumBy, DemandOf, SortBy;
    var s := SortBy(DemandLess, rigid);
    DemandsOfSorted(rigid);
    if CanServe(rigid, required, capacity) {
      var chosen :| SubOf(chosen, rigid) && |chosen| == required && SumBy(DemandOf, chosen) <= capacity;
      SubSize(chosen, s);
      PrefixIsCheapest(DemandOf, s, chosen);
    }
    if required <= |s| && SumBy(DemandOf, s[..required]) <= capacity {
      PrefixServes(s, rigid, required, capacity);
    }
  }

  // The certificate is issued exactly when no `required` admissible rigid contracts
  // fit the capacity together.
  lemma {:induction false} CertificateIsExact(assessed: seq<Assessment>, r: Request)
    ensures Infeasible(assessed, r) <==>
      !CanServe(Filter(IsRigid, assessed), r.policy.minimumProtectedServed, r.capability.bandwidth)
  {
    var rigid := Filter(IsRigid, assessed);
    DemandsOfSorted(rigid);
    ImpossibleMeaning(SortBy(DemandLess, rigid), r.policy.minimumProtectedServed, r.capability.bandwidth);
    CheapestDecides(rigid, r.policy.minimumProtectedServed, r.capability.bandwidth);
  }
}
