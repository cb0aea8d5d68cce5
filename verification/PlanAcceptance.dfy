// Every plan the allocator returns, judged by the independent validator.
module PlanAcceptance {
  import opened Core
  import opened Guarantees
  import opened Envelopes
  import opened Evidence
  import opened Contracts
  import opened Assessments
  import opened Allocator
  import opened Validator
  import opened Sorting
  import opened Sums
  import opened Subsets

  // --------------------------------------------------------------------------
  // The assessed request
  // --------------------------------------------------------------------------

  ghost predicate AssessedAs(a: Assessment, c: ServiceContract, r: Request) {
    && a.contract == c
    && (if Idle(c, r.scope) then a == IdleAssessment(c, r.scope)
        else ValidContract(c) && a == Assess(c, r.capability, r.policy))
  }

  ghost predicate AssessedFor(assessed: seq<Assessment>, sorted: seq<ServiceContract>, r: Request) {
    && |assessed| == |sorted|
    && forall i | 0 <= i < |sorted| :: AssessedAs(assessed[i], sorted[i], r)
  }

  lemma {:induction false} AssessAllMeaning(sorted: seq<ServiceContract>, r: Request)
    requires AssessAll(sorted, r.scope, r.capability, r.policy).Ok?
    ensures AssessedFor(AssessAll(sorted, r.scope, r.capability, r.policy).value, sorted, r)
  {
    if sorted != [] {
      AssessAllMeaning(sorted[1..], r);
    }
  }

  lemma {:induction false} AssessAllSucceeds(sorted: seq<ServiceContract>, r: Request)
    ensures AssessAll(sorted, r.scope, r.capability, r.policy).Ok? <==>
      forall i | 0 <= i < |sorted| :: Idle(sorted[i], r.scope) || ValidContract(sorted[i])
  {
    if sorted != [] {
      AssessAllSucceeds(sorted[1..], r);
      assert sorted == [sorted[0]] + sorted[1..];
    }
  }

  ghost predicate IdsAscend(sorted: seq<ServiceContract>) {
    forall i, j | 0 <= i < j < |sorted| :: sorted[i].id < sorted[j].id
  }

  lemma {:induction false} SortedContracts(cs: seq<ServiceContract>)
    ensures Sorted(ById, SortBy(ById, cs))
    ensures !Repeats(SortBy(ById, cs)) ==> IdsAscend(SortBy(ById, cs))
  {
    SortByWeak(ById, cs);
    var s := SortBy(ById, cs);
    if !Repeats(s) {
      forall i, j | 0 <= i < j < |s| ensures s[i].id < s[j].id {
        assert !ById(s[j], s[i]);
        assert !ById(s[j], s[i + 1]) || i + 1 == j;
        assert !ById(s[i + 1], s[i]);
        assert s[i + 1 - 1].id != s[i + 1].id;
      }
    }
  }

  // What a request that got past its checks looks like.
  ghost predicate Prepared(r: Request, sorted: seq<ServiceContract>, assessed: seq<Assessment>) {
    && sorted == SortBy(ById, r.contracts)
    && ValidPolicy(r.policy)
    && IdsAscend(sorted)
    && AssessedFor(assessed, sorted, r)
    && AssessAll(sorted, r.scope, r.capability, r.policy) == Ok(assessed)
  }

  lemma {:induction false} Prepare(r: Request) returns (sorted: seq<ServiceContract>, assessed: seq<Assessment>)
    requires RequestFault(r).None? && AssessAll(SortBy(ById, r.contracts), r.scope, r.capability, r.policy).Ok?
    ensures Prepared(r, sorted, assessed)
  {
    sorted := SortBy(ById, r.contracts);
    assessed := AssessAll(sorted, r.scope, r.capability, r.policy).value;
    SortedContracts(r.contracts);
    AssessAllMeaning(sorted, r);
  }

  ghost predicate NoneIdleIn(cs: seq<ServiceContract>, scope: u64) {
    forall i | 0 <= i < |cs| :: !Idle(cs[i], scope)
  }

  ghost predicate NoneIdle(r: Request) {
    NoneIdleIn(r.contracts, r.scope)
  }

  lemma {:induction false} NoneIdlePermutes(a: seq<ServiceContract>, b: seq<ServiceContract>, scope: u64)
    requires multiset(a) == multiset(b) && NoneIdleIn(a, scope)
    ensures NoneIdleIn(b, scope)
  {
    SameElements(a, b);
    forall i | 0 <= i < |b| ensures !Idle(b[i], scope) {
      assert b[i] in a;
    }
  }

  lemma {:induction false} NoneIdleSorted(r: Request)
    ensures NoneIdle(r) <==> NoneIdleIn(SortBy(ById, r.contracts), r.scope)
  {
    var s := SortBy(ById, r.contracts);
    if NoneIdle(r) { NoneIdlePermutes(r.contracts, s, r.scope); }
    if NoneIdleIn(s, r.scope) { NoneIdlePermutes(s, r.contracts, r.scope); }
  }

  lemma {:induction false} IdleEntriesCount(sorted: seq<ServiceContract>, scope: u64)
    ensures IdleEntries(sorted, scope) == [] <==> NoneIdleIn(sorted, scope)
  {
    if sorted != [] {
      IdleEntriesCount(sorted[1..], scope);
      assert sorted == [sorted[0]] + sorted[1..];
    }
  }

  // --------------------------------------------------------------------------
  // What an assessment guarantees
  // --------------------------------------------------------------------------

  // A rigid admissible contract is offered in full, or not at all.
  lemma {:induction false} RigidIsWhole(a: Assessment, c: ServiceContract, r: Request)
    requires AssessedAs(a, c, r) && ValidPolicy(r.policy) && IsRigid(a)
    ensures !Idle(c, r.scope) && ValidContract(c) && c.Rigid() && a.approved == c.original && Usable(r.capability)
    ensures Shortfalls(r.capability, c.original) == [] && EffectiveEnvelope(r.policy, c).Ok?
    ensures a.outcome == Full
  {
  }

  lemma {:induction false} FlexibleIsOffered(a: Assessment, c: ServiceContract, r: Request)
    requires AssessedAs(a, c, r) && ValidPolicy(r.policy) && IsFlexible(a)
    ensures !Idle(c, r.scope) && ValidContract(c) && !c.Rigid() && Usable(r.capability)
    ensures EffectiveEnvelope(r.policy, c).Ok? && CanonicalBounds(EffectiveEnvelope(r.policy, c).value.bounds)
    ensures var limits := EffectiveEnvelope(r.policy, c).value;
      || (a.approved == c.original && Shortfalls(r.capability, c.original) == [])
      || (AllReachable(limits, r.capability, c.original) && a.approved == SettledSet(limits, r.capability, c.original))
    ensures Canonical(a.approved)
  {
    hide ValidPolicy, EffectiveEnvelope, CanonicalBounds, SettledSet, AllReachable, Shortfalls;
    EnvelopeExists(r.policy, c);
    var limits := EffectiveEnvelope(r.policy, c).value;
    if a.approved != c.original {
      SettledMeaning(limits, r.capability, c.original);
    }
  }

  lemma {:induction false} RefusedIsSilent(a: Assessment, c: ServiceContract, r: Request)
    requires AssessedAs(a, c, r) && !a.admissible
    ensures !Authorising(a.outcome)
  {
  }

  // --------------------------------------------------------------------------
  // One entry
  // --------------------------------------------------------------------------

  lemma {:induction false} RigidEntryLawful(a: Assessment, c: ServiceContract, r: Request, v: Verdict)
    requires AssessedAs(a, c, r) && ValidPolicy(r.policy) && IsRigid(a)
    requires v == Verdict(true, DemandOf(a), a.approved, Full, OriginalObligationsSupportable)
    ensures EntryLawful(EntryFor(c, r.scope, v), c, r.policy)
    ensures EntryFor(c, r.scope, v).full && EntryFor(c, r.scope, v).outcome == Full
  {
    RigidIsWhole(a, c, r);
    WeakensReflexive(c.original);
    EmptyDeltaMeansEqual(c.original, c.original, ConcessionWithinEnvelope);
    PermitsItself(EffectiveEnvelope(r.policy, c).value, c.original);
    FloorBelowDemand(c);
  }

  lemma {:induction false} FlexVerdictMeaning(a: Assessment, remaining: nat, p: Policy)
    ensures var v := FlexVerdict(a, remaining, p);
      && (v.admitted ==>
            && EffectiveEnvelope(p, a.contract).Ok?
            && Permits(EffectiveEnvelope(p, a.contract).value, a.contract.original, v.approved)
            && OfferedSet(a, remaining) == Ok(v.approved)
            && v.granted == Offer(a, remaining) <= remaining
            && v.granted <= DemandOf(a)
            && (v.granted != 0 ==> v.granted >= a.contract.Floor()))
      && (!v.admitted ==> v == Refusal(RefusedService, v.reason))
  {
  }

  lemma {:induction false} FlexEntryLawful(a: Assessment, c: ServiceContract, r: Request, v: Verdict, remaining: nat)
    requires AssessedAs(a, c, r) && ValidPolicy(r.policy) && IsFlexible(a)
    requires v == FlexVerdict(a, remaining, r.policy)
    requires v.admitted ==> Weakens(c.original, v.approved)
    ensures EntryLawful(EntryFor(c, r.scope, v), c, r.policy)
  {
    FlexVerdictMeaning(a, remaining, r.policy);
    FlexibleIsOffered(a, c, r);
  }

  // Every verdict handed to a flexible contract came from some step of the first-fit.
  lemma {:induction false} FlexVerdictFrom(flex: seq<Assessment>, remaining: nat, p: Policy, id: nat)
    returns (i: nat, room: nat)
    requires id in ServeFlexible(flex, remaining, p)
    ensures i < |flex| && flex[i].contract.id == id && room <= remaining
    ensures ServeFlexible(flex, remaining, p)[id] == FlexVerdict(flex[i], room, p)
  {
    if flex[0].contract.id == id {
      i, room := 0, remaining;
    } else {
      i, room := FlexVerdictFrom(flex[1..], SpareAfter(flex[0], remaining, p), p, id);
      i := i + 1;
    }
  }

  lemma {:induction false} FlexServed(flex: seq<Assessment>, remaining: nat, p: Policy)
    ensures forall i | 0 <= i < |flex| :: flex[i].contract.id in ServeFlexible(flex, remaining, p)
  {
    if flex != [] { FlexServed(flex[1..], SpareAfter(flex[0], remaining, p), p); }
  }

  // Assessments of one request are told apart by contract identity.
  lemma {:induction false} SameIdSameAssessment(r: Request, sorted: seq<ServiceContract>, assessed: seq<Assessment>,
                                                a: Assessment, b: Assessment)
    requires Prepared(r, sorted, assessed) && a in assessed && b in assessed && a.contract.id == b.contract.id
    ensures a == b
  {
    hide AssessAll, SortBy, Assess, ValidPolicy, Idle, IdleAssessment;
    var i :| 0 <= i < |assessed| && assessed[i] == a;
    var j :| 0 <= j < |assessed| && assessed[j] == b;
    assert a.contract == sorted[i] && b.contract == sorted[j];
  }

  ghost function FlexList(assessed: seq<Assessment>, r: Request): seq<Assessment> {
    SortBy(FlexOrder(r.policy.protectFirst), Filter(IsFlexible, assessed))
  }

  lemma {:induction false} FlexListElements(assessed: seq<Assessment>, r: Request)
    ensures forall a :: a in FlexList(assessed, r) <==> a in assessed && IsFlexible(a)
  {
    FilterKeepsAll(IsFlexible, assessed);
    SameElements(FlexList(assessed, r), Filter(IsFlexible, assessed));
  }

  lemma {:induction false} FlexVerdictOf(r: Request, sorted: seq<ServiceContract>, assessed: seq<Assessment>, i: nat)
    returns (room: nat)
    requires Prepared(r, sorted, assessed) && i < |assessed| && IsFlexible(assessed[i])
    ensures room <= SpareFor(assessed, r)
    ensures Verdicts(assessed, r)[i] == FlexVerdict(assessed[i], room, r.policy)
  {
    var flex := FlexList(assessed, r);
    FlexListElements(assessed, r);
    FlexServed(flex, SpareFor(assessed, r), r.policy);
    assert assessed[i] in flex;
    var k;
    k, room := FlexVerdictFrom(flex, SpareFor(assessed, r), r.policy, assessed[i].contract.id);
    assert flex[k] in assessed;
    SameIdSameAssessment(r, sorted, assessed, flex[k], assessed[i]);
  }

  lemma {:induction false} RefusedEntryLawful(c: ServiceContract, r: Request, v: Verdict)
    requires !v.admitted && !Authorising(v.outcome) && c.scope == r.scope
    ensures EntryLawful(EntryFor(c, r.scope, v), c, r.policy)
  {
  }

  lemma {:induction false} EntryIsLawful(r: Request, sorted: seq<ServiceContract>, assessed: seq<Assessment>, i: nat)
    requires Prepared(r, sorted, assessed) && i < |assessed| && DeltasExist(assessed, r)
    requires !Idle(sorted[i], r.scope)
    ensures EntryLawful(EntriesFor(assessed, r)[i], sorted[i], r.policy)
  {
    hide EntryLawful, EntryFor, FlexVerdict, ServeFlexible, SearchFor, ServedFor, SpareFor, FlexFor, ValidPolicy;
    var a, c, v := assessed[i], sorted[i], Verdicts(assessed, r)[i];
    assert AssessedAs(a, c, r);
    if IsRigid(a) {
      if v.admitted { RigidEntryLawful(a, c, r, v); } else { RefusedEntryLawful(c, r, v); }
    } else if IsFlexible(a) {
      var room := FlexVerdictOf(r, sorted, assessed, i);
      FlexEntryLawful(a, c, r, v, room);
    } else {
      RefusedIsSilent(a, c, r);
      RefusedEntryLawful(c, r, v);
    }
  }

  // --------------------------------------------------------------------------
  // The whole plan
  // --------------------------------------------------------------------------

  ghost predicate NamedInOrder(entries: seq<Entry>, sorted: seq<ServiceContract>) {
    |entries| == |sorted| && forall i | 0 <= i < |sorted| :: entries[i].contract == sorted[i].id
  }

  function EntryKey(e: Entry): nat {
    e.contract
  }

  lemma {:induction false} EntriesStaySorted(entries: seq<Entry>, sorted: seq<ServiceContract>)
    requires IdsAscend(sorted) && NamedInOrder(entries, sorted)
    ensures SortBy(EntryById, entries) == entries
  {
    KeyOrderTotal(EntryKey, EntryById, entries);
    SortOfSorted(EntryById, entries);
  }

  lemma {:induction false} FindSorted(sorted: seq<ServiceContract>, i: nat)
    requires IdsAscend(sorted) && i < |sorted|
    ensures FindContract(sorted, sorted[i].id) == Some(sorted[i])
  {
  }

  lemma {:induction false} TotalOfLawful(entries: seq<Entry>, n: nat)
    requires n <= |entries| && forall i | 0 <= i < |entries| && !entries[i].admitted :: entries[i].granted == 0
    ensures AdmittedTotal(entries, n) == SumBy(GrantedOf, entries[..n])
  {
    if n > 0 {
      TotalOfLawful(entries, n - 1);
      assert entries[..n] == entries[..n - 1] + [entries[n - 1]];
      SumAppend(GrantedOf, entries[..n - 1], [entries[n - 1]]);
      assert SumBy(GrantedOf, [entries[n - 1]]) == entries[n - 1].granted;
    }
  }

  lemma {:induction false} LawfulEntries(entries: seq<Entry>, sorted: seq<ServiceContract>, p: Policy)
    requires IdsAscend(sorted) && NamedInOrder(entries, sorted)
    requires forall i | 0 <= i < |entries| :: EntryLawful(entries[i], sorted[i], p)
    ensures EntriesLawful(entries, sorted, p, |entries|)
    ensures AdmittedTotal(entries, |entries|) == SumBy(GrantedOf, entries)
  {
    forall i | 0 <= i < |entries| ensures FindContract(sorted, entries[i].contract) == Some(sorted[i]) {
      FindSorted(sorted, i);
    }
    TotalOfLawful(entries, |entries|);
    assert entries[..|entries|] == entries;
  }

  lemma {:induction false} PlanEntries(r: Request, sorted: seq<ServiceContract>, entries: seq<Entry>)
    requires sorted == SortBy(ById, r.contracts) && IdsAscend(sorted) && NoneIdle(r) && NamedInOrder(entries, sorted)
    ensures SortBy(EntryById, IdleEntries(sorted, r.scope) + entries) == entries
  {
    hide NamedInOrder, SortBy, IdleEntries, IdsAscend;
    NoneIdleSorted(r);
    IdleEntriesCount(sorted, r.scope);
    assert IdleEntries(sorted, r.scope) + entries == entries;
    EntriesStaySorted(entries, sorted);
  }

  lemma {:induction false} LawfulPlan(plan: Plan, r: Request, sorted: seq<ServiceContract>)
    requires sorted == SortBy(ById, r.contracts) && IdsAscend(sorted)
    requires HeaderLawful(plan, r) && NamedInOrder(plan.entries, sorted)
    requires forall i | 0 <= i < |plan.entries| :: EntryLawful(plan.entries[i], sorted[i], r.policy)
    requires plan.granted == SumBy(GrantedOf, plan.entries) <= plan.available
    ensures Accepted(plan, r)
  {
    LawfulEntries(plan.entries, sorted, r.policy);
  }

  lemma {:induction false} EntriesNamed(r: Request, sorted: seq<ServiceContract>, assessed: seq<Assessment>)
    requires Prepared(r, sorted, assessed)
    ensures NamedInOrder(EntriesFor(assessed, r), sorted)
  {
    var entries := EntriesFor(assessed, r);
    forall i | 0 <= i < |sorted| ensures entries[i].contract == sorted[i].id {
      assert AssessedAs(assessed[i], sorted[i], r);
    }
  }

  lemma {:induction false} ServingPlanAccepted(r: Request, sorted: seq<ServiceContract>, assessed: seq<Assessment>)
    requires Prepared(r, sorted, assessed) && NoneIdle(r) && DeltasExist(assessed, r)
    requires SumBy(GrantedOf, EntriesFor(assessed, r)) <= r.capability.bandwidth
    requires SearchFor(assessed, r).exhausted ==> Filter(IsRigid, assessed) != []
    ensures Accepted(ServingPlan(sorted, assessed, r), r)
  {
    var entries := EntriesFor(assessed, r);
    EntriesNamed(r, sorted, assessed);
    PlanEntries(r, sorted, entries);
    NoneIdleSorted(r);
    forall i | 0 <= i < |entries| ensures EntryLawful(entries[i], sorted[i], r.policy) {
      EntryIsLawful(r, sorted, assessed, i);
    }
    LawfulPlan(ServingPlan(sorted, assessed, r), r, sorted);
  }

  lemma {:induction false} InfeasiblePlanAccepted(r: Request, sorted: seq<ServiceContract>, proof: Certificate)
    requires sorted == SortBy(ById, r.contracts) && IdsAscend(sorted) && NoneIdle(r) && proof.valid
    ensures Accepted(InfeasiblePlan(sorted, proof, r), r)
  {
    hide SortBy, IdleEntries, IdsAscend;
    var entries := EscalatedEntries(sorted, r.scope);
    PlanEntries(r, sorted, entries);
    NoneIdleSorted(r);
    NothingGranted(entries);
    forall i | 0 <= i < |entries| ensures EntryLawful(entries[i], sorted[i], r.policy) {
      assert !Idle(sorted[i], r.scope);
    }
    var plan := InfeasiblePlan(sorted, proof, r);
    assert plan.entries == entries && plan.certificate.valid;
    LawfulPlan(plan, r, sorted);
  }

  lemma {:induction false} NothingGranted(entries: seq<Entry>)
    requires forall i | 0 <= i < |entries| :: entries[i].granted == 0
    ensures SumBy(GrantedOf, entries) == 0
  {
    if entries != [] { NothingGranted(entries[1..]); }
  }

  // With no rigid contract the search visits one node and stops.
  lemma {:induction false} EmptySearchCompletes(r: Request, assessed: seq<Assessment>)
    requires ValidPolicy(r.policy) && Filter(IsRigid, assessed) == []
    ensures !SearchFor(assessed, r).exhausted
  {
    assert ItemsFor(assessed) == [];
  }

  // What is known about a request that was answered with a plan.
  ghost predicate Answered(r: Request, sorted: seq<ServiceContract>, assessed: seq<Assessment>, plan: Plan) {
    && Prepared(r, sorted, assessed)
    && (if Infeasible(assessed, r) then plan == InfeasiblePlan(sorted, ProofFor(assessed, r), r)
        else
          && plan == ServingPlan(sorted, assessed, r)
          && Big(Filter(IsRigid, assessed)).Some?
          && RigidUse(assessed, r) <= r.capability.bandwidth
          && DeltasExist(assessed, r)
          && SumBy(GrantedOf, EntriesFor(assessed, r)) <= r.capability.bandwidth)
  }

  lemma {:induction false} PlanForMeaning(r: Request, sorted: seq<ServiceContract>, assessed: seq<Assessment>)
    requires Prepared(r, sorted, assessed) && PlanFor(sorted, assessed, r).Ok?
    ensures Answered(r, sorted, assessed, PlanFor(sorted, assessed, r).value)
  {
    hide Prepared, Infeasible, InfeasiblePlan, ServingPlan, DeltasExist, RigidUse, EntriesFor, Big, ValuesFit, SumBy,
         Filter;
  }

  lemma {:induction false} Returned(r: Request) returns (sorted: seq<ServiceContract>, assessed: seq<Assessment>)
    requires Allocate(r).Ok?
    ensures Answered(r, sorted, assessed, Allocate(r).value)
  {
    sorted, assessed := Prepare(r);
    PlanForMeaning(r, sorted, assessed);
  }

  lemma {:induction false} AnsweredIsAccepted(r: Request, sorted: seq<ServiceContract>, assessed: seq<Assessment>,
                                              plan: Plan)
    requires Answered(r, sorted, assessed, plan) && NoneIdle(r)
    ensures Accepted(plan, r)
  {
    if Infeasible(assessed, r) {
      InfeasiblePlanAccepted(r, sorted, ProofFor(assessed, r));
    } else {
      if Filter(IsRigid, assessed) == [] { EmptySearchCompletes(r, assessed); }
      ServingPlanAccepted(r, sorted, assessed);
    }
  }

  // An idle contract is entered twice, so the plan has one entry too many.
  lemma {:induction false} IdleIsRejected(r: Request, sorted: seq<ServiceContract>, assessed: seq<Assessment>,
                                          plan: Plan)
    requires Answered(r, sorted, assessed, plan) && !NoneIdle(r)
    ensures |plan.entries| > |r.contracts| && !Accepted(plan, r)
  {
    NoneIdleSorted(r);
    IdleEntriesCount(sorted, r.scope);
  }

  // A returned plan passes independent validation exactly when no requested
  // contract was inactive or out of scope.
  lemma {:induction false} PlanAcceptedIffNoneIdle(r: Request)
    requires Allocate(r).Ok?
    ensures Accepted(Allocate(r).value, r) <==> NoneIdle(r)
  {
    var sorted, assessed := Returned(r);
    if NoneIdle(r) {
      AnsweredIsAccepted(r, sorted, assessed, Allocate(r).value);
    } else {
      IdleIsRejected(r, sorted, assessed, Allocate(r).value);
    }
  }
}
