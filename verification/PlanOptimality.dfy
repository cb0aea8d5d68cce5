// What a returned plan means for the rigid contracts of its request: the certificate
// is exact, and an optimal plan serves the best choice of contracts that fits.
module PlanOptimality {
  import opened Core
  import opened Guarantees
  import opened Evidence
  import opened Contracts
  import opened Assessments
  import opened Allocator
  import opened Sorting
  import opened Sums
  import opened Subsets
  import opened PlanAcceptance
  import opened RigidService
  import opened Certificates
  import BB = BranchAndBound
  import DensityOrder

  function Demand(c: ServiceContract): nat {
    c.Demand()
  }

  function Priority(c: ServiceContract): nat {
    c.priority
  }

  function ContractOf(a: Assessment): ServiceContract {
    a.contract
  }

  // --------------------------------------------------------------------------
  // Candidates
  // --------------------------------------------------------------------------

  // full_service_supported, for a rigid contract the request is about.
  predicate Supportable(c: ServiceContract, r: Request) {
    && !Idle(c, r.scope) && c.Rigid()
    && Usable(r.capability) && ValidContract(c) && Shortfalls(r.capability, c.original) == []
  }

  predicate AdmissibleRigid(c: ServiceContract, r: Request) {
    Supportable(c, r) && ProfileFor(r.policy.profiles, c.serviceClass).Some?
  }

  ghost function Candidates(r: Request): seq<ServiceContract> {
    Filter((c: ServiceContract) => AdmissibleRigid(c, r), SortBy(ById, r.contracts))
  }

  lemma {:induction false} RigidIffAdmissible(a: Assessment, c: ServiceContract, r: Request)
    requires AssessedAs(a, c, r) && ValidPolicy(r.policy)
    ensures IsRigid(a) <==> AdmissibleRigid(c, r)
  {
    hide ValidPolicy, ProfileFor, Shortfalls, EffectiveEnvelope, ContractFault;
    if !Idle(c, r.scope) { EnvelopeExists(r.policy, c); }
  }

  lemma {:induction false} ContractsOfAssessed(assessed: seq<Assessment>, sorted: seq<ServiceContract>, r: Request)
    requires AssessedFor(assessed, sorted, r)
    ensures Mapped(ContractOf, assessed) == sorted
  {
    hide Assess, ContractFault;
    forall i | 0 <= i < |sorted| ensures Mapped(ContractOf, assessed)[i] == sorted[i] {
      assert AssessedAs(assessed[i], sorted[i], r);
      assert Mapped(ContractOf, assessed)[i] == ContractOf(assessed[i]);
    }
  }

  lemma {:induction false} RigidAreCandidates(r: Request, sorted: seq<ServiceContract>, assessed: seq<Assessment>)
    requires Prepared(r, sorted, assessed)
    ensures Mapped(ContractOf, Filter(IsRigid, assessed)) == Candidates(r)
  {
    hide ValidPolicy, AssessAll, AssessedAs, SortBy, IsRigid, AdmissibleRigid;
    ContractsOfAssessed(assessed, sorted, r);
    var q := (c: ServiceContract) => AdmissibleRigid(c, r);
    forall i | 0 <= i < |assessed| ensures IsRigid(assessed[i]) <==> q(ContractOf(assessed[i])) {
      assert AssessedAs(assessed[i], sorted[i], r);
      assert ContractOf(assessed[i]) == Mapped(ContractOf, assessed)[i] == sorted[i];
      RigidIffAdmissible(assessed[i], sorted[i], r);
    }
    FilterMapped(ContractOf, IsRigid, q, assessed);
  }

  lemma {:induction false} ContractTotals(s: seq<Assessment>)
    ensures SumBy(Demand, Mapped(ContractOf, s)) == SumBy(DemandOf, s)
    ensures SumBy(Priority, Mapped(ContractOf, s)) == SumBy(PriorityOf, s)
  {
    hide ServiceContract.Demand;
    SumOfMapped(ContractOf, Demand, DemandOf, s);
    SumOfMapped(ContractOf, Priority, PriorityOf, s);
  }

  // A choice among the candidates is a choice among the assessments.
  lemma {:induction false} LiftContracts(rigid: seq<Assessment>, chosen: seq<ServiceContract>)
    returns (lifted: seq<Assessment>)
    requires SubOf(chosen, Mapped(ContractOf, rigid))
    ensures SubOf(lifted, rigid) && |lifted| == |chosen|
    ensures SumBy(DemandOf, lifted) == SumBy(Demand, chosen) && SumBy(PriorityOf, lifted) == SumBy(Priority, chosen)
  {
    hide ServiceContract.Demand, DemandOf, SumBy;
    lifted := LiftChoice(ContractOf, rigid, chosen);
    SameElements(Mapped(ContractOf, lifted), chosen);
    SumPermutes(Demand, Mapped(ContractOf, lifted), chosen);
    SumPermutes(Priority, Mapped(ContractOf, lifted), chosen);
    ContractTotals(lifted);
  }

  // --------------------------------------------------------------------------
  // The certificate
  // --------------------------------------------------------------------------

  // `required` of the candidates can be served together.
  ghost predicate MinimumReachable(candidates: seq<ServiceContract>, required: nat, capacity: nat) {
    exists chosen :: SubOf(chosen, candidates) && |chosen| == required && SumBy(Demand, chosen) <= capacity
  }

  lemma {:induction false} CanServeContracts(rigid: seq<Assessment>, required: nat, capacity: nat)
    ensures CanServe(rigid, required, capacity) <==> MinimumReachable(Mapped(ContractOf, rigid), required, capacity)
  {
    hide SumBy, DemandOf;
    if CanServe(rigid, required, capacity) {
      var chosen :| SubOf(chosen, rigid) && |chosen| == required && SumBy(DemandOf, chosen) <= capacity;
      MappedSub(ContractOf, chosen, rigid);
      ContractTotals(chosen);
    }
    if MinimumReachable(Mapped(ContractOf, rigid), required, capacity) {
      var chosen :| SubOf(chosen, Mapped(ContractOf, rigid)) && |chosen| == required
        && SumBy(Demand, chosen) <= capacity;
      var lifted := LiftContracts(rigid, chosen);
    }
  }

  lemma {:induction false} InfeasibleMeaning(r: Request, sorted: seq<ServiceContract>, assessed: seq<Assessment>)
    requires Prepared(r, sorted, assessed)
    ensures Infeasible(assessed, r) <==>
      !MinimumReachable(Candidates(r), r.policy.minimumProtectedServed, r.capability.bandwidth)
  {
    hide Prepared, Candidates, Infeasible, CanServe, MinimumReachable;
    RigidAreCandidates(r, sorted, assessed);
    CertificateIsExact(assessed, r);
    CanServeContracts(Filter(IsRigid, assessed), r.policy.minimumProtectedServed, r.capability.bandwidth);
  }

  lemma {:induction false} StatusMeaning(r: Request, sorted: seq<ServiceContract>, assessed: seq<Assessment>,
                                         plan: Plan)
    requires Answered(r, sorted, assessed, plan)
    ensures plan.status.ProvenInfeasible? <==> Infeasible(assessed, r)
    ensures plan.status.Optimal? ==> !SearchFor(assessed, r).exhausted
  {
    hide Prepared, SortBy, Infeasible, IdleEntries, EscalatedEntries, EntriesFor, SearchFor, RigidUse, DeltasExist,
         SumBy;
    if !Infeasible(assessed, r) && Filter(IsRigid, assessed) == [] {
      PolicyIsValid(r, sorted, assessed);
      EmptySearchCompletes(r, assessed);
    }
  }

  lemma {:induction false} PolicyIsValid(r: Request, sorted: seq<ServiceContract>, assessed: seq<Assessment>)
    requires Prepared(r, sorted, assessed)
    ensures ValidPolicy(r.policy)
  {
  }

  // PROVEN_INFEASIBLE is returned exactly when no `minimumProtectedServed` admissible
  // rigid contracts fit the capacity together.
  lemma {:induction false} InfeasibleIffUnreachable(r: Request)
    requires Allocate(r).Ok?
    ensures Allocate(r).value.status.ProvenInfeasible? <==>
      !MinimumReachable(Candidates(r), r.policy.minimumProtectedServed, r.capability.bandwidth)
  {
    hide Allocate, Answered, Candidates, MinimumReachable;
    var sorted, assessed := Returned(r);
    StatusMeaning(r, sorted, assessed, Allocate(r).value);
    AnsweredPrepared(r, sorted, assessed, Allocate(r).value);
    InfeasibleMeaning(r, sorted, assessed);
  }

  lemma {:induction false} AnsweredPrepared(r: Request, sorted: seq<ServiceContract>, assessed: seq<Assessment>,
                                            plan: Plan)
    requires Answered(r, sorted, assessed, plan)
    ensures Prepared(r, sorted, assessed)
  {
    hide Prepared;
  }

  // --------------------------------------------------------------------------
  // Who is served
  // --------------------------------------------------------------------------

  // The plan serves the contract in full.
  ghost predicate Serves(plan: Plan, c: ServiceContract) {
    exists e | e in plan.entries :: e.contract == c.id && e.admitted && e.full
  }

  // The rigid contracts the plan serves in full.
  ghost function ServedContracts(plan: Plan, r: Request): seq<ServiceContract> {
    Filter((c: ServiceContract) => c.Rigid() && Serves(plan, c), SortBy(ById, r.contracts))
  }

  lemma {:induction false} IdleEntriesRefuse(sorted: seq<ServiceContract>, scope: u64)
    ensures forall e | e in IdleEntries(sorted, scope) :: !e.admitted
  {
    if sorted != [] { IdleEntriesRefuse(sorted[1..], scope); }
  }

  // An admitted entry of a serving plan is the entry of the contract it names.
  lemma {:induction false} EntryOf(r: Request, sorted: seq<ServiceContract>, assessed: seq<Assessment>, i: nat)
    requires Prepared(r, sorted, assessed) && i < |sorted|
    ensures Serves(ServingPlan(sorted, assessed, r), sorted[i]) <==>
      EntriesFor(assessed, r)[i].admitted && EntriesFor(assessed, r)[i].full
  {
    hide AssessedFor, AssessAll, ValidPolicy, SearchFor, Verdicts, SumBy, SomeRefused, EntryFor, IdleEntries;
    var entries, idle := EntriesFor(assessed, r), IdleEntries(sorted, r.scope);
    var plan := ServingPlan(sorted, assessed, r);
    IdleEntriesRefuse(sorted, r.scope);
    EntriesNamed(r, sorted, assessed);
    SameElements(plan.entries, idle + entries);
    if Serves(plan, sorted[i]) {
      var e :| e in plan.entries && e.contract == sorted[i].id && e.admitted && e.full;
      assert e in idle + entries;
      var j :| 0 <= j < |entries| && entries[j] == e;
    }
    if entries[i].admitted && entries[i].full {
      assert entries[i] in idle + entries;
    }
  }

  lemma {:induction false} RigidFlag(a: Assessment, c: ServiceContract, r: Request)
    requires AssessedAs(a, c, r)
    ensures IsRigid(a) ==> c.Rigid()
    ensures IsFlexible(a) ==> !c.Rigid()
  {
    hide ContractFault;
  }

  lemma {:induction false} ServesRigid(r: Request, sorted: seq<ServiceContract>, assessed: seq<Assessment>, i: nat)
    requires Prepared(r, sorted, assessed) && i < |sorted|
    ensures sorted[i].Rigid() && Serves(ServingPlan(sorted, assessed, r), sorted[i]) <==>
      IsRigid(assessed[i]) && assessed[i].contract.id in ServedFor(assessed, r)
  {
    hide AssessAll, ServingPlan, ServedFor, SpareFor, FlexFor, ServiceContract.Rigid, Serves, DeltaOf;
    EntryOf(r, sorted, assessed, i);
    assert AssessedAs(assessed[i], sorted[i], r);
    RigidFlag(assessed[i], sorted[i], r);
    var v := Verdicts(assessed, r)[i];
    if IsRigid(assessed[i]) && v.admitted {
      RigidEntryLawful(assessed[i], sorted[i], r, v);
    }
  }

  lemma {:induction false} ServedContractsMeaning(r: Request, sorted: seq<ServiceContract>, assessed: seq<Assessment>)
    requires Prepared(r, sorted, assessed)
    ensures ServedContracts(ServingPlan(sorted, assessed, r), r) ==
      Mapped(ContractOf, ServedOf(Filter(IsRigid, assessed), ItemsFor(assessed), SearchFor(assessed, r).bestSelection))
  {
    hide AssessAll, ValidPolicy, AssessedAs, ServingPlan, ItemsFor, SearchFor, ServedIds, SortBy, Serves;
    var plan, served := ServingPlan(sorted, assessed, r), ServedFor(assessed, r);
    var q := (c: ServiceContract) => c.Rigid() && Serves(plan, c);
    var both := (a: Assessment) => IsRigid(a) && a.contract.id in served;
    ContractsOfAssessed(assessed, sorted, r);
    forall i | 0 <= i < |assessed| ensures both(assessed[i]) <==> q(ContractOf(assessed[i])) {
      assert ContractOf(assessed[i]) == Mapped(ContractOf, assessed)[i] == sorted[i];
      ServesRigid(r, sorted, assessed, i);
    }
    FilterMapped(ContractOf, both, q, assessed);
    FilterTwice(WasServed(served), IsRigid, both, assessed);
  }

  lemma {:induction false} RigidDistinct(r: Request, sorted: seq<ServiceContract>, assessed: seq<Assessment>)
    requires Prepared(r, sorted, assessed)
    ensures DistinctIds(Filter(IsRigid, assessed))
  {
    hide AssessAll, ValidPolicy, SortBy, Assess, ContractFault;
    forall i, j | 0 <= i < j < |assessed| ensures assessed[i].contract.id != assessed[j].contract.id {
      assert AssessedAs(assessed[i], sorted[i], r) && AssessedAs(assessed[j], sorted[j], r);
    }
    FilterDistinctIds(IsRigid, assessed);
  }

  lemma {:induction false} FilterDistinctIds(p: Assessment -> bool, s: seq<Assessment>)
    requires DistinctIds(s)
    ensures DistinctIds(Filter(p, s))
  {
    if s != [] {
      assert s == [s[0]] + s[1..];
      FilterDistinctIds(p, s[1..]);
      forall x | x in Filter(p, s[1..]) ensures x.contract.id != s[0].contract.id {
        var k :| 0 <= k < |s[1..]| && s[1..][k] == x;
      }
    }
  }

  // --------------------------------------------------------------------------
  // Optimality
  // --------------------------------------------------------------------------

  // No choice of candidates that fits serves more contracts, nor as many with a
  // larger priority sum.
  ghost predicate BestChoice(best: seq<ServiceContract>, candidates: seq<ServiceContract>, capacity: nat) {
    && SubOf(best, candidates)
    && SumBy(Demand, best) <= capacity
    && forall other | SubOf(other, candidates) && SumBy(Demand, other) <= capacity :: Outdone(other, best)
  }

  ghost predicate Outdone(other: seq<ServiceContract>, best: seq<ServiceContract>) {
    |other| < |best| || (|other| == |best| && SumBy(Priority, other) <= SumBy(Priority, best))
  }

  // No density comparison among these contracts can overflow 64 bits.
  ghost predicate ExactlyComparable(cs: seq<ServiceContract>) {
    forall a, b | a in cs && b in cs :: (1 + SumBy(Priority, cs) + a.priority) * Demand(b) <= U64_MAX
  }

  // Contract limits alone make any 18,445 valid contracts comparable.
  lemma {:induction false} SmallRequestsComparable(cs: seq<ServiceContract>)
    requires |cs| <= DensityOrder.MAX_EXACT_ITEMS && forall c | c in cs :: ValidContract(c)
    ensures ExactlyComparable(cs)
  {
    hide ServiceContract.Demand;
    PrioritiesBounded(cs);
    forall a, b | a in cs && b in cs ensures (1 + SumBy(Priority, cs) + a.priority) * Demand(b) <= U64_MAX {
      FloorBelowDemand(b);
      DensityOrder.ProductMonotone(1 + SumBy(Priority, cs) + a.priority, 1 + 18_446 * MAX_SERVICE_PRIORITY, Demand(b),
                                   1_000_000_000);
    }
  }

  lemma {:induction false} PrioritiesBounded(cs: seq<ServiceContract>)
    requires forall c | c in cs :: ValidContract(c)
    ensures SumBy(Priority, cs) <= |cs| * MAX_SERVICE_PRIORITY
  {
    if cs != [] {
      assert cs[0] in cs;
      PrioritiesBounded(cs[1..]);
    }
  }

  lemma {:induction false} BestServiceContracts(best: seq<Assessment>, rigid: seq<Assessment>, capacity: nat)
    requires BestService(best, rigid, capacity)
    ensures BestChoice(Mapped(ContractOf, best), Mapped(ContractOf, rigid), capacity)
  {
    hide SumBy, DemandOf, Demand;
    MappedSub(ContractOf, best, rigid);
    ContractTotals(best);
    var b := Mapped(ContractOf, best);
    forall other | SubOf(other, Mapped(ContractOf, rigid)) && SumBy(Demand, other) <= capacity
      ensures Outdone(other, b) {
      var lifted := LiftContracts(rigid, other);
      assert NoBetter(lifted, best);
    }
  }

  lemma {:induction false} ItemProduct(cs: seq<ServiceContract>, a: ServiceContract, b: ServiceContract, value: nat,
                                       weight: nat)
    requires ExactlyComparable(cs) && a in cs && b in cs
    requires value == 1 + SumBy(Priority, cs) + a.priority && weight == Demand(b)
    ensures value * weight <= U64_MAX
  {
  }

  lemma {:induction false} ComparableDensities(rigid: seq<Assessment>, big: nat)
    requires ExactlyComparable(Mapped(ContractOf, rigid)) && big == SumBy(PriorityOf, rigid) + 1
    ensures ExactDensities(rigid, big)
  {
    hide SumBy, ServiceContract.Demand, ExactlyComparable;
    ContractTotals(rigid);
    var raw, cs := RawItems(rigid, big), Mapped(ContractOf, rigid);
    forall a: BB.Item, b: BB.Item | a in multiset(raw) && b in multiset(raw) ensures a.value * b.weight <= U64_MAX {
      assert a in raw && b in raw;
      var i :| 0 <= i < |rigid| && raw[i] == a;
      var j :| 0 <= j < |rigid| && raw[j] == b;
      assert cs[i] == ContractOf(rigid[i]) && cs[j] == ContractOf(rigid[j]);
      ItemProduct(cs, cs[i], cs[j], a.value, b.weight);
    }
  }

  lemma {:induction false} ServingMeaning(r: Request, sorted: seq<ServiceContract>, assessed: seq<Assessment>)
    requires Prepared(r, sorted, assessed) && Big(Filter(IsRigid, assessed)).Some?
    ensures var served := ServedContracts(ServingPlan(sorted, assessed, r), r);
      && SubOf(served, Candidates(r))
      && SumBy(Demand, served) == RigidUse(assessed, r) <= r.capability.bandwidth
      && (ExactlyComparable(Candidates(r)) && !SearchFor(assessed, r).exhausted ==>
            BestChoice(served, Candidates(r), r.capability.bandwidth))
  {
    hide Prepared, ServingPlan, SumBy, DemandOf, Demand, BB.Run, BB.Search, RigidItems, Candidates, ServedContracts,
         ExactlyComparable, ExactDensities, BestService, BestChoice, BB.Honest, DistinctIds;
    var rigid := Filter(IsRigid, assessed);
    var big := Big(rigid).value;
    BigMeaning(rigid);
    RigidDistinct(r, sorted, assessed);
    RigidAreCandidates(r, sorted, assessed);
    ServedContractsMeaning(r, sorted, assessed);
    SearchServesBest(rigid, big, r.capability.bandwidth, r.policy.searchNodeBudget);
    var best := ServedOf(rigid, ItemsFor(assessed), SearchFor(assessed, r).bestSelection);
    ContractTotals(best);
    ServedIsSub(rigid, ItemsFor(assessed), SearchFor(assessed, r).bestSelection);
    MappedSub(ContractOf, best, rigid);
    if ExactlyComparable(Candidates(r)) && !SearchFor(assessed, r).exhausted {
      ComparableDensities(rigid, big);
      BestServiceContracts(best, rigid, r.capability.bandwidth);
    }
  }

  // An OPTIMAL plan serves the best choice of candidates, and therefore never fewer
  // than the protected minimum.
  lemma {:induction false} OptimalPlanServesBest(r: Request)
    requires Allocate(r).Ok? && Allocate(r).value.status.Optimal? && ExactlyComparable(Candidates(r))
    ensures BestChoice(ServedContracts(Allocate(r).value, r), Candidates(r), r.capability.bandwidth)
    ensures |ServedContracts(Allocate(r).value, r)| >= r.policy.minimumProtectedServed
  {
    hide Allocate, Prepared, Candidates, ServedContracts, ServingPlan, ExactlyComparable, Infeasible, SumBy, SearchFor,
         InfeasiblePlan, RigidUse, DeltasExist, EntriesFor, Big;
    var plan := Allocate(r).value;
    var sorted, assessed := Returned(r);
    StatusMeaning(r, sorted, assessed, plan);
    ServingMeaning(r, sorted, assessed);
    InfeasibleMeaning(r, sorted, assessed);
    var chosen :| SubOf(chosen, Candidates(r)) && |chosen| == r.policy.minimumProtectedServed as int
      && SumBy(Demand, chosen) <= r.capability.bandwidth;
    assert Outdone(chosen, ServedContracts(plan, r));
  }

  // Even when the search was cut short, what is served is admissible and fits.
  lemma {:induction false} ServedAlwaysFits(r: Request)
    requires Allocate(r).Ok? && !Allocate(r).value.status.ProvenInfeasible?
    ensures SubOf(ServedContracts(Allocate(r).value, r), Candidates(r))
    ensures SumBy(Demand, ServedContracts(Allocate(r).value, r)) <= r.capability.bandwidth
  {
    hide Allocate, Prepared, Candidates, ServedContracts, ServingPlan, Infeasible, SumBy, SearchFor, InfeasiblePlan,
         RigidUse, DeltasExist, EntriesFor, Big;
    var sorted, assessed := Returned(r);
    StatusMeaning(r, sorted, assessed, Allocate(r).value);
    ServingMeaning(r, sorted, assessed);
  }
}
