// When the allocator answers. The internal safety exits for rigid underflow, total
// overflow and item overflow can never be taken; the one exit that can is the delta
// of a flexible contract whose bandwidth guarantee is soft.
module PlanReturned {
  import opened Core
  import opened Guarantees
  import opened Envelopes
  import opened Evidence
  import opened Contracts
  import opened Assessments
  import opened Allocator
  import opened Sorting
  import opened Sums
  import opened Subsets
  import opened PlanAcceptance
  import opened Validator
  import opened RigidService
  import opened AdmittedService
  import PlanOptimality
  import Selections
  import BB = BranchAndBound

  // --------------------------------------------------------------------------
  // Bandwidth is conserved
  // --------------------------------------------------------------------------

  function AssessmentId(a: Assessment): nat {
    a.contract.id
  }

  ghost function FlexGrant(flex: map<nat, Verdict>): Assessment -> nat {
    (a: Assessment) => if AssessmentId(a) in flex then flex[AssessmentId(a)].granted else 0
  }

  lemma {:induction false} FlexStepFits(a: Assessment, remaining: nat, p: Policy)
    ensures FlexVerdict(a, remaining, p).granted + SpareAfter(a, remaining, p) == remaining
  {
    hide FlexVerdict;
    FlexVerdictMeaning(a, remaining, p);
  }

  // First-fit never hands out more than it was given.
  lemma {:induction false} FlexTotal(flex: seq<Assessment>, remaining: nat, p: Policy)
    requires DistinctBy(AssessmentId, flex)
    ensures SumBy(FlexGrant(ServeFlexible(flex, remaining, p)), flex) <= remaining
  {
    if flex != [] {
      hide FlexVerdict, SpareAfter;
      var rest, spare := flex[1..], SpareAfter(flex[0], remaining, p);
      assert forall i | 0 <= i < |rest| :: rest[i] == flex[i + 1];
      FlexTotal(rest, spare, p);
      FlexStepFits(flex[0], remaining, p);
      var all, later := FlexGrant(ServeFlexible(flex, remaining, p)), FlexGrant(ServeFlexible(rest, spare, p));
      forall x | x in rest ensures all(x) == later(x) {
        var i :| 0 <= i < |rest| && rest[i] == x;
        assert AssessmentId(flex[0]) != AssessmentId(flex[i + 1]);
      }
      SumAgrees(all, later, rest);
    }
  }

  ghost function Grant(served: set<nat>, spare: nat, flex: map<nat, Verdict>): Assessment -> nat {
    (a: Assessment) => VerdictFor(a, served, spare, flex).granted
  }

  // Refused verdicts hold no bandwidth.
  ghost predicate Silent(flex: map<nat, Verdict>) {
    forall id | id in flex :: !flex[id].admitted ==> flex[id].granted == 0
  }

  lemma {:induction false} FlexSilent(flex: seq<Assessment>, remaining: nat, p: Policy)
    ensures Silent(ServeFlexible(flex, remaining, p))
  {
    if flex != [] {
      hide FlexVerdict, SpareAfter;
      FlexSilent(flex[1..], SpareAfter(flex[0], remaining, p), p);
      FlexVerdictMeaning(flex[0], remaining, p);
    }
  }

  lemma {:induction false} EntriesTotal(assessed: seq<Assessment>, r: Request)
    ensures SumBy(GrantedOf, EntriesFor(assessed, r)) ==
      SumBy(Grant(ServedFor(assessed, r), SpareFor(assessed, r), FlexFor(assessed, r)), assessed)
  {
    hide ServedFor, SpareFor, SumBy, ServeFlexible, DemandOf, DeltaOf, SortBy, Filter;
    var served, spare, flex := ServedFor(assessed, r), SpareFor(assessed, r), FlexFor(assessed, r);
    FlexSilent(SortBy(FlexOrder(r.policy.protectFirst), Filter(IsFlexible, assessed)), spare, r.policy);
    var entry := (a: Assessment) => EntryFor(a.contract, r.scope, VerdictFor(a, served, spare, flex));
    assert EntriesFor(assessed, r) == Mapped(entry, assessed);
    SumOfMapped(entry, GrantedOf, Grant(served, spare, flex), assessed);
  }

  lemma {:induction false} RigidTotal(rigid: seq<Assessment>, items: seq<BB.Item>, sel: seq<nat>, spare: nat,
                                      flex: map<nat, Verdict>)
    requires forall a | a in rigid :: IsRigid(a)
    ensures SumBy(Grant(ServedIds(items, sel), spare, flex), rigid) == SumBy(DemandOf, ServedOf(rigid, items, sel))
  {
    hide DemandOf, ServedIds;
    var served := ServedIds(items, sel);
    SumFiltered(Grant(served, spare, flex), WasServed(served), rigid);
    SumAgrees(Grant(served, spare, flex), DemandOf, ServedOf(rigid, items, sel));
  }

  lemma {:induction false} FlexiblePart(r: Request, assessed: seq<Assessment>, served: set<nat>, spare: nat)
    requires DistinctBy(AssessmentId, assessed)
    ensures var flex := ServeFlexible(FlexList(assessed, r), spare, r.policy);
      SumBy(Grant(served, spare, flex), Filter(IsFlexible, assessed)) <= spare
  {
    hide FlexVerdict, SortBy, ServeFlexible, RigidVerdict;
    var list, some := FlexList(assessed, r), Filter(IsFlexible, assessed);
    var flex := ServeFlexible(list, spare, r.policy);
    FilterIsSub(IsFlexible, assessed);
    DistinctBySub(AssessmentId, list, assessed);
    FlexTotal(list, spare, r.policy);
    FlexServed(list, spare, r.policy);
    SameElements(list, some);
    SumAgrees(Grant(served, spare, flex), FlexGrant(flex), some);
    SumPermutes(FlexGrant(flex), list, some);
  }

  lemma {:induction false} AssessedDistinct(r: Request, sorted: seq<ServiceContract>, assessed: seq<Assessment>)
    requires Prepared(r, sorted, assessed)
    ensures DistinctBy(AssessmentId, assessed)
  {
    hide AssessAll, ValidPolicy, SortBy, Assess, ContractFault;
    forall i, j | 0 <= i < j < |assessed| ensures AssessmentId(assessed[i]) != AssessmentId(assessed[j]) {
      assert AssessedAs(assessed[i], sorted[i], r) && AssessedAs(assessed[j], sorted[j], r);
    }
  }

  // The plan never allocates more bandwidth than the snapshot offers.
  lemma {:induction false} BandwidthConserved(r: Request, sorted: seq<ServiceContract>, assessed: seq<Assessment>)
    requires Prepared(r, sorted, assessed) && Big(Filter(IsRigid, assessed)).Some?
    ensures RigidUse(assessed, r) <= r.capability.bandwidth
    ensures SumBy(GrantedOf, EntriesFor(assessed, r)) <= r.capability.bandwidth
  {
    hide Prepared, SumBy, DemandOf, BB.Run, BB.Search, RigidItems, BB.Honest, DistinctIds, EntriesFor, ServeFlexible,
         FlexVerdict, SortBy, ExactDensities, BestService, ServedIds, Filter;
    var rigid := Filter(IsRigid, assessed);
    BigMeaning(rigid);
    PlanOptimality.RigidDistinct(r, sorted, assessed);
    SearchServesBest(rigid, Big(rigid).value, r.capability.bandwidth, r.policy.searchNodeBudget);
    AssessedDistinct(r, sorted, assessed);
    EntriesTotal(assessed, r);
    var served, spare, flex := ServedFor(assessed, r), SpareFor(assessed, r), FlexFor(assessed, r);
    GrantSplits(assessed, served, spare, flex);
    RigidTotal(rigid, ItemsFor(assessed), SearchFor(assessed, r).bestSelection, spare, flex);
    FlexiblePart(r, assessed, served, spare);
  }

  lemma {:induction false} GrantSplits(assessed: seq<Assessment>, served: set<nat>, spare: nat, flex: map<nat, Verdict>)
    ensures var g := Grant(served, spare, flex);
      SumBy(g, assessed) == SumBy(g, Filter(IsRigid, assessed)) + SumBy(g, Filter(IsFlexible, assessed))
  {
    hide DemandOf, SumBy, Filter, RigidVerdict;
    SumSplit(Grant(served, spare, flex), IsRigid, IsFlexible, assessed);
  }

  // --------------------------------------------------------------------------
  // When a plan is returned
  // --------------------------------------------------------------------------

  // The request passes its own checks and names no more contracts than the 32-bit
  // positions of the search can number.
  ghost predicate WellFormed(r: Request) {
    && RequestFault(r).None?
    && |r.contracts| <= U32_MAX
    && forall c | c in r.contracts :: Idle(c, r.scope) || ValidContract(c)
  }

  lemma {:induction false} WellFormedPrepares(r: Request)
    returns (sorted: seq<ServiceContract>, assessed: seq<Assessment>)
    requires WellFormed(r)
    ensures Prepared(r, sorted, assessed) && Allocate(r) == PlanFor(sorted, assessed, r)
  {
    hide PlanFor, ContractFault, Assess, ValidPolicy;
    sorted := SortBy(ById, r.contracts);
    SameElements(sorted, r.contracts);
    AssessAllSucceeds(sorted, r);
    sorted, assessed := Prepare(r);
  }

  lemma {:induction false} PrioritiesFit(r: Request, sorted: seq<ServiceContract>, assessed: seq<Assessment>)
    requires Prepared(r, sorted, assessed) && |r.contracts| <= U32_MAX
    ensures var rigid := Filter(IsRigid, assessed);
      Big(rigid).Some? && ValuesFit(rigid, Big(rigid).value)
  {
    hide AssessAll, ValidPolicy, SortBy, PriorityUpTo;
    var rigid := Filter(IsRigid, assessed);
    FilterIsSub(IsRigid, assessed);
    SubSize(rigid, assessed);
    forall a | a in rigid ensures a.contract.priority <= MAX_SERVICE_PRIORITY {
      var i :| 0 <= i < |assessed| && assessed[i] == a;
      assert AssessedAs(assessed[i], sorted[i], r);
      RigidIsWhole(a, sorted[i], r);
    }
    PrioritySum(rigid);
    BigMeaning(rigid);
  }

  lemma {:induction false} PrioritySum(rigid: seq<Assessment>)
    requires forall a | a in rigid :: a.contract.priority <= MAX_SERVICE_PRIORITY
    ensures SumBy(PriorityOf, rigid) <= |rigid| * MAX_SERVICE_PRIORITY
  {
    if rigid != [] {
      assert rigid[0] in rigid;
      PrioritySum(rigid[1..]);
    }
  }

  // First-fit would admit a flexible contract whose bandwidth guarantee is soft.
  ghost predicate AdmitsSoft(r: Request, sorted: seq<ServiceContract>, assessed: seq<Assessment>) {
    exists i | 0 <= i < |assessed| && i < |sorted| ::
      IsFlexible(assessed[i]) && Verdicts(assessed, r)[i].admitted && SoftBandwidth(sorted[i])
  }

  lemma {:induction false} DeltasExistIff(r: Request, sorted: seq<ServiceContract>, assessed: seq<Assessment>)
    requires Prepared(r, sorted, assessed)
    ensures DeltasExist(assessed, r) <==> !AdmitsSoft(r, sorted, assessed)
  {
    hide AssessAll, ValidPolicy, SortBy, Verdicts, Promise, Weakens, SoftBandwidth, Assess, ContractFault;
    forall i | 0 <= i < |assessed| && Verdicts(assessed, r)[i].admitted
      ensures Weakens(assessed[i].contract.original, Verdicts(assessed, r)[i].approved) <==>
        !(IsFlexible(assessed[i]) && SoftBandwidth(sorted[i]))
    {
      assert AssessedAs(assessed[i], sorted[i], r);
      VerdictMeaning(r, sorted, assessed, i);
    }
  }

  // A well-formed request is answered with a plan unless, the protected minimum being
  // reachable, first-fit admits a flexible contract with a soft bandwidth guarantee.
  lemma {:induction false} ReturnedIff(r: Request, sorted: seq<ServiceContract>, assessed: seq<Assessment>)
    requires Prepared(r, sorted, assessed) && |r.contracts| <= U32_MAX
    ensures PlanFor(sorted, assessed, r).Ok? <==> Infeasible(assessed, r) || !AdmitsSoft(r, sorted, assessed)
    ensures PlanFor(sorted, assessed, r).Err? ==> PlanFor(sorted, assessed, r) == Err(Invalid)
  {
    hide Prepared, Infeasible, InfeasiblePlan, ServingPlan, DeltasExist, RigidUse, EntriesFor, Big, ValuesFit, SumBy,
         Filter, AdmitsSoft;
    PrioritiesFit(r, sorted, assessed);
    BandwidthConserved(r, sorted, assessed);
    DeltasExistIff(r, sorted, assessed);
  }

  // Flexible contracts' bandwidth guarantees are hard.
  ghost predicate HardBandwidth(r: Request) {
    forall c | c in r.contracts && !c.Rigid() :: !SoftBandwidth(c)
  }

  lemma {:induction false} HardAdmitsNoSoft(r: Request, sorted: seq<ServiceContract>, assessed: seq<Assessment>)
    requires Prepared(r, sorted, assessed) && HardBandwidth(r)
    ensures !AdmitsSoft(r, sorted, assessed)
  {
    hide AssessAll, ValidPolicy, SortBy, Verdicts, SoftBandwidth, Assess, ContractFault, ServiceContract.Rigid;
    SameElements(sorted, r.contracts);
    forall i | 0 <= i < |assessed| && IsFlexible(assessed[i]) ensures !SoftBandwidth(sorted[i]) {
      assert AssessedAs(assessed[i], sorted[i], r);
      PlanOptimality.RigidFlag(assessed[i], sorted[i], r);
      assert sorted[i] in sorted;
    }
  }

  // With hard bandwidth guarantees no internal exit fires.
  lemma {:induction false} AlwaysReturned(r: Request)
    requires WellFormed(r) && HardBandwidth(r)
    ensures Allocate(r).Ok?
  {
    hide Allocate, PlanFor, Prepared, HardBandwidth, AdmitsSoft;
    var sorted, assessed := WellFormedPrepares(r);
    ReturnedIff(r, sorted, assessed);
    HardAdmitsNoSoft(r, sorted, assessed);
  }

  // --------------------------------------------------------------------------
  // A request the allocator refuses outright
  // --------------------------------------------------------------------------

  const SOFT_CONTRACT := ServiceContract(
    1, 1, 1, 1, 1, Standard, false, 0, [Guarantee(Bandwidth, AtLeast, 5, false)], Envelope([], 1), 0, true)

  const LENIENT_POLICY := Policy(
    1, 1, [], [ClassProfile(Standard, Envelope([], 1), true)],
    DegradeAction.Refuse, DegradeAction.Refuse, DegradeAction.Refuse, DegradeAction.Refuse, DegradeAction.Refuse,
    true, 1, 1, 1, 0, 0, 1, 1)

  const ROOMY_CAPABILITY := Capability(1, 1, Known, FullMesh, 10, 0, 0, 0, 0, false, 0)

  const SOFT_REQUEST := Request(1, [SOFT_CONTRACT], ROOMY_CAPABILITY, LENIENT_POLICY)

  lemma {:induction false} SoftContractValid()
    ensures ValidContract(SOFT_CONTRACT) && !SOFT_CONTRACT.Rigid() && SOFT_CONTRACT.Demand() == 5
    ensures SoftBandwidth(SOFT_CONTRACT) && ValidPolicy(LENIENT_POLICY)
    ensures EffectiveEnvelope(LENIENT_POLICY, SOFT_CONTRACT) == Ok(Envelope([], 1))
  {
    assert Find(SOFT_CONTRACT.original, Bandwidth) == Some(SOFT_CONTRACT.original[0]);
    assert ProfileFor(LENIENT_POLICY.profiles, Standard) == Some(LENIENT_POLICY.profiles[0]);
  }

  lemma {:induction false} SoftAssessed()
    ensures Assess(SOFT_CONTRACT, ROOMY_CAPABILITY, LENIENT_POLICY) == Assessment(
      SOFT_CONTRACT, false, true, SOFT_CONTRACT.original, Full, OriginalObligationsSupportable, false)
  {
    SoftContractValid();
    var c := SOFT_CONTRACT;
    assert Shortfalls(ROOMY_CAPABILITY, c.original[1..]) == [];
    assert Shortfalls(ROOMY_CAPABILITY, c.original) == [];
  }

  lemma {:induction false} HardenedIsPermitted(approved: GuaranteeSet)
    requires Upsert(SOFT_CONTRACT.original, Guarantee(Bandwidth, AtLeast, 5, true)) == Ok(approved)
    ensures Permits(Envelope([], 1), SOFT_CONTRACT.original, approved)
  {
    var original, g := SOFT_CONTRACT.original, Guarantee(Bandwidth, AtLeast, 5, true);
    UpsertStores(original, g);
    hide Upsert;
    assert Find(approved, Bandwidth) == Some(g);
    assert Conceded(original, approved, 0) == 0;
  }

  lemma {:induction false} SoftIsAdmitted(room: nat)
    requires 5 <= room
    ensures FlexVerdict(Assess(SOFT_CONTRACT, ROOMY_CAPABILITY, LENIENT_POLICY), room, LENIENT_POLICY).admitted
    ensures IsFlexible(Assess(SOFT_CONTRACT, ROOMY_CAPABILITY, LENIENT_POLICY))
  {
    hide Assess, Upsert, Permits, EffectiveEnvelope, ContractFault, PolicyFault, ServiceContract.Demand;
    SoftContractValid();
    SoftAssessed();
    FloorBelowDemand(SOFT_CONTRACT);
    var g := Guarantee(Bandwidth, AtLeast, 5, true);
    OriginalCanonical(SOFT_CONTRACT);
    UpsertStores(SOFT_CONTRACT.original, g);
    HardenedIsPermitted(Upsert(SOFT_CONTRACT.original, g).value);
  }

  lemma {:induction false} SoftPrepared()
    ensures WellFormed(SOFT_REQUEST)
    ensures SortBy(ById, SOFT_REQUEST.contracts) == [SOFT_CONTRACT]
    ensures AssessAll([SOFT_CONTRACT], 1, ROOMY_CAPABILITY, LENIENT_POLICY)
      == Ok([Assess(SOFT_CONTRACT, ROOMY_CAPABILITY, LENIENT_POLICY)])
  {
    hide Assess, ContractFault, PolicyFault;
    SoftContractValid();
    var cs := SOFT_REQUEST.contracts;
    assert SortBy(ById, cs[1..]) == [];
    assert SortBy(ById, cs) == [SOFT_CONTRACT];
    assert !Repeats([SOFT_CONTRACT]);
    assert [SOFT_CONTRACT][1..] == [];
    assert AssessAll([], 1, ROOMY_CAPABILITY, LENIENT_POLICY) == Ok([]);
    var a := Assess(SOFT_CONTRACT, ROOMY_CAPABILITY, LENIENT_POLICY);
    assert [a] + [] == [a];
  }

  // One valid, well-formed, satisfiable request whose only contract has a soft
  // bandwidth guarantee: the whole plan is refused.
  lemma {:induction false} SoftBandwidthRefusesPlan()
    ensures WellFormed(SOFT_REQUEST) && Allocate(SOFT_REQUEST) == Err(Invalid)
  {
    hide Assess, ContractFault, PolicyFault, SoftBandwidth, FlexVerdict, PlanFor, WellFormed, Allocate, SortBy,
         AssessAll;
    SoftPrepared();
    SoftContractValid();
    var r := SOFT_REQUEST;
    var sorted, assessed := WellFormedPrepares(r);
    var a := Assess(SOFT_CONTRACT, ROOMY_CAPABILITY, LENIENT_POLICY);
    assert sorted == [SOFT_CONTRACT] && assessed == [a];
    SoftIsAdmitted(10);
    assert Filter(IsRigid, [a][1..]) == [];
    assert Filter(IsRigid, assessed) == [];
    NoRigidNoUse(assessed, r);
    SoftVerdict(assessed, sorted, a);
    ReturnedIff(r, sorted, assessed);
  }

  lemma {:induction false} NoRigidNoUse(assessed: seq<Assessment>, r: Request)
    requires Filter(IsRigid, assessed) == []
    ensures RigidUse(assessed, r) == 0
    ensures r.policy.minimumProtectedServed == 0 ==> !Infeasible(assessed, r)
  {
    var items := ItemsFor(assessed);
    assert items == [];
    BB.SearchIsHonest(items, r.capability.bandwidth, r.policy.searchNodeBudget);
    Selections.CountBounded(SearchFor(assessed, r).bestSelection, 0, 0);
  }

  lemma {:induction false} SoftVerdict(assessed: seq<Assessment>, sorted: seq<ServiceContract>, a: Assessment)
    requires a == Assess(SOFT_CONTRACT, ROOMY_CAPABILITY, LENIENT_POLICY)
    requires assessed == [a] && sorted == [SOFT_CONTRACT] && RigidUse(assessed, SOFT_REQUEST) == 0
    ensures AdmitsSoft(SOFT_REQUEST, sorted, assessed)
  {
    hide Assess, FlexVerdict, SoftBandwidth, RigidUse, ServedFor, RigidVerdict;
    var r := SOFT_REQUEST;
    SoftContractValid();
    SoftIsAdmitted(10);
    var flex := Filter(IsFlexible, assessed);
    assert Filter(IsFlexible, assessed[1..]) == [];
    assert [a] + [] == [a];
    assert flex == [a];
    assert SortBy(FlexOrder(r.policy.protectFirst), flex[1..]) == [];
    assert SortBy(FlexOrder(r.policy.protectFirst), flex) == [a];
    assert a.contract.id as nat in FlexFor(assessed, r);
    assert Verdicts(assessed, r)[0] == FlexVerdict(a, 10, r.policy);
  }

  // --------------------------------------------------------------------------
  // A plan its own validator rejects
  // --------------------------------------------------------------------------

  const IDLE_CONTRACT := SOFT_CONTRACT.(original := [Guarantee(Bandwidth, AtLeast, 5, true)], active := false)

  const IDLE_REQUEST := Request(1, [IDLE_CONTRACT], ROOMY_CAPABILITY, LENIENT_POLICY)

  lemma {:induction false} IdleIsWellFormed()
    ensures WellFormed(IDLE_REQUEST) && HardBandwidth(IDLE_REQUEST) && !NoneIdle(IDLE_REQUEST)
  {
    hide ContractFault, PolicyFault;
    SoftContractValid();
    var cs := IDLE_REQUEST.contracts;
    assert SortBy(ById, cs[1..]) == [];
    assert SortBy(ById, cs) == [IDLE_CONTRACT];
    assert !Repeats([IDLE_CONTRACT]);
    assert Find(IDLE_CONTRACT.original, Bandwidth) == Some(IDLE_CONTRACT.original[0]);
    assert Idle(cs[0], 1);
  }

  // One well-formed request whose only contract is inactive: a plan is returned, and
  // independent validation rejects it.
  lemma {:induction false} InactiveContractIsRejected()
    ensures WellFormed(IDLE_REQUEST) && Allocate(IDLE_REQUEST).Ok?
    ensures !Accepted(Allocate(IDLE_REQUEST).value, IDLE_REQUEST)
  {
    hide WellFormed, HardBandwidth, NoneIdle, Allocate, Accepted;
    IdleIsWellFormed();
    AlwaysReturned(IDLE_REQUEST);
    PlanAcceptedIffNoneIdle(IDLE_REQUEST);
  }
}
