// What the validator's acceptance of a plan says (src/engine/validator.cpp), for any plan
// whatever made it.
module AcceptedPlans {
  import opened Core
  import opened Guarantees
  import opened Envelopes
  import opened Contracts
  import opened Assessments
  import opened Allocator
  import opened Validator
  import opened Sorting
  import opened Sums
  import opened Subsets

  // An entry does right by its contract. Served, it promises no kind that was not asked for
  // and none more strongly, within the envelope in force, says what it gives up, gives up
  // nothing of a rigid contract, and holds nothing or between the floor and the demand.
  // Refused, it promises and holds nothing.
  ghost predicate Faithful(e: Entry, c: ServiceContract, p: Policy) {
    && e.contractGeneration == c.generation && e.scope == c.scope
    && (e.admitted ==>
          && Weakens(c.original, e.approved)
          && e.delta == DeltaOf(c.original, e.approved, ConcessionWithinEnvelope)
          && EffectiveEnvelope(p, c).Ok? && Permits(EffectiveEnvelope(p, c).value, c.original, e.approved)
          && (e.full <==> SameValues(c.original, e.approved))
          && (c.nonDegradable || c.serviceClass.Protected? || c.envelope.maxConcessions == 0 ==> e.full)
          && (e.granted == 0 || c.Floor() <= e.granted) && e.granted <= c.Demand())
    && (!e.admitted ==> e.approved == [] && e.granted == 0
                        && (e.outcome == RefusedService || e.outcome == EscalatedService
                            || e.outcome == UnsupportedService || e.outcome == IndeterminateService
                            || e.outcome == InvalidInputs))
  }

  lemma {:induction false} LawfulIsFaithful(e: Entry, c: ServiceContract, p: Policy)
    ensures EntryLawful(e, c, p) <==> Faithful(e, c, p)
  {
    hide Weakens, DeltaOf, EffectiveEnvelope, Permits, SameValues, ServiceContract.Floor, ServiceContract.Demand;
    if Weakens(c.original, e.approved) {
      EmptyDeltaMeansSameValues(c.original, e.approved, ConcessionWithinEnvelope);
    }
  }

  // --------------------------------------------------------------------------
  // One entry each
  // --------------------------------------------------------------------------

  // As many different names as there are things to name, all of them names of things, leave
  // none out.
  lemma {:induction false} AllNamed(xs: seq<nat>, ys: seq<nat>)
    requires Distinct(xs) && |xs| == |ys| && forall x | x in xs :: x in ys
    ensures forall y | y in ys :: y in xs
    decreases |xs|
  {
    if xs != [] {
      assert xs[0] in xs;
      var j :| 0 <= j < |ys| && ys[j] == xs[0];
      var rest, fewer := xs[1..], ys[..j] + ys[j + 1..];
      assert ys == ys[..j] + [ys[j]] + ys[j + 1..];
      assert xs == [xs[0]] + rest;
      forall x | x in rest ensures x in fewer {
        var i :| 0 <= i < |rest| && rest[i] == x;
        assert x == xs[i + 1] && x in xs && x != xs[0];
      }
      AllNamed(rest, fewer);
    }
  }

  function EntryName(e: Entry): nat { e.contract }
  function ContractName(c: ServiceContract): nat { c.id }

  lemma {:induction false} MappedIn<T>(f: T -> nat, s: seq<T>, x: T)
    requires x in s
    ensures f(x) in Mapped(f, s)
  {
    var i :| 0 <= i < |s| && s[i] == x;
    assert Mapped(f, s)[i] == f(x);
  }

  lemma {:induction false} MappedFrom<T>(f: T -> nat, s: seq<T>, n: nat) returns (x: T)
    requires n in Mapped(f, s)
    ensures x in s && f(x) == n
  {
    var i :| 0 <= i < |s| && Mapped(f, s)[i] == n;
    x := s[i];
  }

  lemma {:induction false} OneEntry(entries: seq<Entry>, e: Entry, f: Entry)
    requires DistinctBy(EntryName, entries) && e in entries && f in entries && e.contract == f.contract
    ensures e == f
  {
    var i :| 0 <= i < |entries| && entries[i] == e;
    var j :| 0 <= j < |entries| && entries[j] == f;
    assert EntryName(entries[i]) == EntryName(entries[j]);
  }

  // With as many entries as contracts, and no two of a name, entries name all the contracts
  // exactly when they name nothing else.
  lemma {:induction false} NamedIff(entries: seq<Entry>, contracts: seq<ServiceContract>)
    requires DistinctBy(EntryName, entries) && DistinctBy(ContractName, contracts) && |entries| == |contracts|
    ensures (forall e | e in entries :: EntryName(e) in Mapped(ContractName, contracts)) <==>
      (forall c | c in contracts :: ContractName(c) in Mapped(EntryName, entries))
  {
    var xs, ys := Mapped(EntryName, entries), Mapped(ContractName, contracts);
    if forall e | e in entries :: EntryName(e) in ys {
      assert forall k | 0 <= k < |xs| :: entries[k] in entries && xs[k] == EntryName(entries[k]);
      AllNamed(xs, ys);
      forall c | c in contracts ensures ContractName(c) in xs { MappedIn(ContractName, contracts, c); }
    }
    if forall c | c in contracts :: ContractName(c) in xs {
      assert forall k | 0 <= k < |ys| :: contracts[k] in contracts && ys[k] == ContractName(contracts[k]);
      AllNamed(ys, xs);
      forall e | e in entries ensures EntryName(e) in ys { MappedIn(EntryName, entries, e); }
    }
  }

  lemma {:induction false} FoundIs(contracts: seq<ServiceContract>, c: ServiceContract)
    requires DistinctBy(ContractName, contracts) && c in contracts
    ensures FindContract(SortBy(ById, contracts), c.id) == Some(c)
  {
    var sorted := SortBy(ById, contracts);
    SameElements(sorted, contracts);
    var found := FindContract(sorted, c.id);
    assert c in sorted;
    assert found.Some?;
    var i :| 0 <= i < |contracts| && contracts[i] == c;
    var j :| 0 <= j < |contracts| && contracts[j] == found.value;
    assert ContractName(contracts[i]) == ContractName(contracts[j]);
  }

  // --------------------------------------------------------------------------
  // Acceptance
  // --------------------------------------------------------------------------

  lemma {:induction false} TotalIsSum(entries: seq<Entry>, n: nat)
    requires n <= |entries| && forall i | 0 <= i < n :: !entries[i].admitted ==> entries[i].granted == 0
    ensures AdmittedTotal(entries, n) == SumBy(GrantedOf, entries[..n])
  {
    if n > 0 {
      TotalIsSum(entries, n - 1);
      assert entries[..n] == entries[..n - 1] + [entries[n - 1]];
      SumAppend(GrantedOf, entries[..n - 1], [entries[n - 1]]);
    }
  }

  // The plan is of this request, and claims no more than its search or its proof shows.
  predicate Headed(plan: Plan, r: Request) {
    && plan.scope == r.scope && plan.capacityGeneration == r.capability.generation
    && plan.available == r.capability.bandwidth
    && !(plan.status.ProvenInfeasible? && !plan.certificate.valid) && !(plan.status.Optimal? && plan.work.exhausted)
  }

  // Every contract has an entry that does right by it.
  ghost predicate Served(entries: seq<Entry>, contracts: seq<ServiceContract>, p: Policy) {
    forall c | c in contracts :: exists e | e in entries :: e.contract == c.id && Faithful(e, c, p)
  }

  // The validator's own check of one entry: it finds a contract, and the entry is lawful.
  ghost predicate Passes(e: Entry, contracts: seq<ServiceContract>, p: Policy) {
    var c := FindContract(SortBy(ById, contracts), e.contract);
    c.Some? && EntryLawful(e, c.value, p)
  }

  lemma {:induction false} PassesItsOwn(e: Entry, contracts: seq<ServiceContract>, p: Policy, c: ServiceContract)
    requires DistinctBy(ContractName, contracts) && c in contracts && e.contract == c.id
    ensures Passes(e, contracts, p) <==> Faithful(e, c, p)
  {
    hide EntryLawful, Faithful, FindContract, SortBy;
    FoundIs(contracts, c);
    LawfulIsFaithful(e, c, p);
  }

  lemma {:induction false} PassingIsNamed(e: Entry, contracts: seq<ServiceContract>, p: Policy)
    requires Passes(e, contracts, p)
    ensures EntryName(e) in Mapped(ContractName, contracts)
  {
    hide EntryLawful, SortBy;
    SameElements(SortBy(ById, contracts), contracts);
    MappedIn(ContractName, contracts, FindContract(SortBy(ById, contracts), e.contract).value);
  }

  lemma {:induction false} PassingServes(entries: seq<Entry>, contracts: seq<ServiceContract>, p: Policy)
    requires DistinctBy(EntryName, entries) && DistinctBy(ContractName, contracts) && |entries| == |contracts|
    ensures Served(entries, contracts, p) <==> forall e | e in entries :: Passes(e, contracts, p)
  {
    hide Passes, Faithful, DistinctBy, Mapped;
    NamedIff(entries, contracts);
    if Served(entries, contracts, p) {
      forall c | c in contracts ensures ContractName(c) in Mapped(EntryName, entries) {
        var e :| e in entries && e.contract == c.id && Faithful(e, c, p);
        MappedIn(EntryName, entries, e);
      }
      forall e | e in entries ensures Passes(e, contracts, p) {
        var c := MappedFrom(ContractName, contracts, EntryName(e));
        var f :| f in entries && f.contract == c.id && Faithful(f, c, p);
        OneEntry(entries, e, f);
        PassesItsOwn(e, contracts, p, c);
      }
    }
    if forall e | e in entries :: Passes(e, contracts, p) {
      forall e | e in entries ensures EntryName(e) in Mapped(ContractName, contracts) {
        PassingIsNamed(e, contracts, p);
      }
      forall c | c in contracts ensures exists e | e in entries :: e.contract == c.id && Faithful(e, c, p) {
        var e := MappedFrom(EntryName, entries, ContractName(c));
        PassesItsOwn(e, contracts, p, c);
      }
    }
  }

  lemma {:induction false} EntriesPass(entries: seq<Entry>, contracts: seq<ServiceContract>, p: Policy)
    ensures EntriesLawful(entries, SortBy(ById, contracts), p, |entries|) <==>
      && (forall i, j | 0 <= i < j < |entries| :: entries[i].contract < entries[j].contract)
      && (forall e | e in entries :: Passes(e, contracts, p))
  {
    hide EntryLawful, SortBy, FindContract;
    assert (forall e | e in entries :: Passes(e, contracts, p)) <==>
      forall i | 0 <= i < |entries| :: Passes(entries[i], contracts, p) by {
      assert forall i | 0 <= i < |entries| :: entries[i] in entries;
    }
    if forall i | 1 <= i < |entries| :: entries[i - 1].contract < entries[i].contract { Climb(entries); }
  }

  lemma {:induction false} Climb(entries: seq<Entry>)
    requires forall i | 1 <= i < |entries| :: entries[i - 1].contract < entries[i].contract
    ensures forall i, j | 0 <= i < j < |entries| :: entries[i].contract < entries[j].contract
  {
    if |entries| > 1 {
      var front := entries[..|entries| - 1];
      Climb(front);
      assert forall i | 0 <= i < |front| :: entries[i].contract <= front[|front| - 1].contract;
    }
  }

  // A plan is accepted exactly when it is of this request, its entries ascend, there is one
  // for every contract and no other, each does right by its contract, and what they hold
  // adds up to what the plan says and to no more than there is.
  lemma {:induction false} AcceptedIff(plan: Plan, r: Request)
    requires DistinctBy(ContractName, r.contracts)
    ensures Accepted(plan, r) <==>
      && Headed(plan, r) && |plan.entries| == |r.contracts|
      && (forall i, j | 0 <= i < j < |plan.entries| :: plan.entries[i].contract < plan.entries[j].contract)
      && Served(plan.entries, r.contracts, r.policy)
      && SumBy(GrantedOf, plan.entries) == plan.granted <= r.capability.bandwidth
  {
    hide EntriesLawful, Passes, SortBy, Served, SumBy;
    var entries := plan.entries;
    EntriesPass(entries, r.contracts, r.policy);
    if |entries| == |r.contracts|
       && forall i, j | 0 <= i < j < |entries| :: entries[i].contract < entries[j].contract {
      PassingServes(entries, r.contracts, r.policy);
      if forall e | e in entries :: Passes(e, r.contracts, r.policy) {
        PassingTotals(entries, r.contracts, r.policy);
      }
    }
  }

  lemma {:induction false} PassingTotals(entries: seq<Entry>, contracts: seq<ServiceContract>, p: Policy)
    requires forall e | e in entries :: Passes(e, contracts, p)
    ensures AdmittedTotal(entries, |entries|) == SumBy(GrantedOf, entries)
  {
    hide SortBy, FindContract, ServiceLawful;
    assert forall i | 0 <= i < |entries| :: entries[i] in entries && Passes(entries[i], contracts, p);
    TotalIsSum(entries, |entries|);
    assert entries[..|entries|] == entries;
  }
}
