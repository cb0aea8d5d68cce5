// Who is served first, and how much they get (the flexible pass of allocate_scope in
// src/engine/allocator.cpp), told from the plan's entries and the contracts' own fields.
module FirstFit {
  import opened Core
  import opened Guarantees
  import opened Envelopes
  import opened Evidence
  import opened Contracts
  import opened Assessments
  import opened Allocator
  import opened Sorting
  import opened Sums
  import opened Subsets
  import opened PlanAcceptance
  import opened PlanOptimality
  import opened RigidService
  import opened PlanReturned
  import opened NonInterference
  import opened AdmittedService
  import BB = BranchAndBound

  // --------------------------------------------------------------------------
  // The order
  // --------------------------------------------------------------------------

  // Served ahead: by class, then priority, then age, or by priority first if the policy
  // does not put protected classes first.
  predicate Outranks(c: ServiceContract, d: ServiceContract, protectFirst: bool) {
    var classFirst := ClassRank(c.serviceClass) < ClassRank(d.serviceClass);
    var sameClass := c.serviceClass == d.serviceClass;
    || (protectFirst && classFirst)
    || (!protectFirst && c.priority > d.priority)
    || (sameClass && c.priority > d.priority)
    || (c.priority == d.priority && classFirst)
    || (sameClass && c.priority == d.priority && c.id < d.id)
  }

  lemma {:induction false} RanksTellClasses(a: ServiceClass, b: ServiceClass)
    ensures ClassRank(a) == ClassRank(b) <==> a == b
    ensures ClassRank(Protected) < ClassRank(Standard) < ClassRank(BestEffort) < ClassRank(Scavenger)
  {
  }

  lemma {:induction false} PrecedesIsOutranks(c: ServiceContract, d: ServiceContract, protectFirst: bool)
    ensures AllocationPrecedes(c, d, protectFirst) <==> Outranks(c, d, protectFirst)
  {
    hide ClassRank;
    RanksTellClasses(c.serviceClass, d.serviceClass);
  }

  // --------------------------------------------------------------------------
  // The list, one contract after the other
  // --------------------------------------------------------------------------

  // What is left when the turn of position i comes.
  ghost function Left(list: seq<Assessment>, remaining: nat, p: Policy, i: nat): nat
    requires i <= |list|
  {
    if i == 0 then remaining else Left(list[1..], SpareAfter(list[0], remaining, p), p, i - 1)
  }

  lemma {:induction false} VerdictAt(list: seq<Assessment>, remaining: nat, p: Policy, i: nat)
    requires DistinctBy(AssessmentId, list) && i < |list|
    ensures var served := ServeFlexible(list, remaining, p);
      && AssessmentId(list[i]) in served
      && served[AssessmentId(list[i])] == FlexVerdict(list[i], Left(list, remaining, p, i), p)
    decreases i
  {
    hide FlexVerdict, SpareAfter;
    if i > 0 {
      var rest := list[1..];
      assert forall k | 0 <= k < |rest| :: rest[k] == list[k + 1];
      VerdictAt(rest, SpareAfter(list[0], remaining, p), p, i - 1);
      assert AssessmentId(list[0]) != AssessmentId(list[i]);
    }
  }

  // What is left and what was handed out before make up what there was.
  lemma {:induction false} LeftMeans(list: seq<Assessment>, remaining: nat, p: Policy, i: nat)
    requires DistinctBy(AssessmentId, list) && i <= |list|
    ensures Left(list, remaining, p, i) + SumBy(FlexGrant(ServeFlexible(list, remaining, p)), list[..i]) == remaining
    decreases i
  {
    hide FlexVerdict, SpareAfter;
    if i > 0 {
      var rest, spare := list[1..], SpareAfter(list[0], remaining, p);
      assert forall k | 0 <= k < |rest| :: rest[k] == list[k + 1];
      LeftMeans(rest, spare, p, i - 1);
      FlexStepFits(list[0], remaining, p);
      var all, later := FlexGrant(ServeFlexible(list, remaining, p)), FlexGrant(ServeFlexible(rest, spare, p));
      assert list[..i][1..] == rest[..i - 1];
      forall x | x in rest[..i - 1] ensures all(x) == later(x) {
        var k :| 0 <= k < i - 1 && rest[k] == x;
        assert AssessmentId(list[0]) != AssessmentId(list[k + 1]);
      }
      SumAgrees(all, later, rest[..i - 1]);
    }
  }

  lemma {:induction false} FilterAll<T>(p: T -> bool, s: seq<T>)
    requires forall x | x in s :: p(x)
    ensures Filter(p, s) == s
  {
    if s != [] {
      FilterAll(p, s[1..]);
      assert s == [s[0]] + s[1..];
    }
  }

  lemma {:induction false} FrontIsBelow<T>(less: (T, T) -> bool, s: seq<T>, k: nat, i: nat)
    requires StrictTotal(less, multiset(s)) && Sorted(less, s) && k < |s| && i < |s| && (k == i || s[k] != s[i])
    ensures less(s[k], s[i]) <==> k < i
  {
    assert s[k] in multiset(s) && s[i] in multiset(s);
    if i < k { assert !less(s[k], s[i]); }
    if k < i { assert !less(s[i], s[k]); }
  }

  // In a sorted list the elements below one are those in front of it.
  lemma {:induction false} BelowIsPrefix<T>(less: (T, T) -> bool, s: seq<T>, i: nat, below: T -> bool)
    requires StrictTotal(less, multiset(s)) && Sorted(less, s) && i < |s|
    requires (forall k, m | 0 <= k < m < |s| :: s[k] != s[m]) && forall x :: below(x) <==> less(x, s[i])
    ensures Filter(below, s) == s[..i]
  {
    hide Filter, StrictTotal, Sorted;
    forall k: nat | k < |s| ensures below(s[k]) <==> k < i { FrontIsBelow(less, s, k, i); }
    FilterToPrefix(below, s, i);
  }

  lemma {:induction false} FilterToPrefix<T>(p: T -> bool, s: seq<T>, i: nat)
    requires i <= |s| && forall k: nat | k < |s| :: p(s[k]) <==> k < i
    ensures Filter(p, s) == s[..i]
  {
    hide Filter;
    assert s == s[..i] + s[i..];
    FilterAppend(p, s[..i], s[i..]);
    FilterAll(p, s[..i]);
    FilterNone(p, s[i..]);
  }

  // --------------------------------------------------------------------------
  // What is held ahead of a contract
  // --------------------------------------------------------------------------

  // Served before a flexible contract: rigid ones, and those that outrank it.
  function Before(c: ServiceContract, protectFirst: bool): ServiceContract -> bool {
    (d: ServiceContract) => d.Rigid() || Outranks(d, c, protectFirst)
  }

  function IdsOf(r: Request, front: ServiceContract -> bool): set<nat> {
    set d | d in r.contracts && front(d) :: d.id as nat
  }

  function Ahead(r: Request, c: ServiceContract): set<nat> {
    IdsOf(r, Before(c, r.policy.protectFirst))
  }

  function HeldBy(ids: set<nat>): Entry -> nat {
    (e: Entry) => if e.contract in ids then e.granted else 0
  }

  // The bandwidth that entries of contracts served ahead of c hold.
  function HeldAhead(r: Request, plan: Plan, c: ServiceContract): nat {
    SumBy(HeldBy(Ahead(r, c)), plan.entries)
  }

  // The same over the assessments, before entries are written and sorted.
  ghost function HeldOf(r: Request, front: ServiceContract -> bool, assessed: seq<Assessment>): Assessment -> nat {
    HeldIf(Grant(ServedFor(assessed, r), SpareFor(assessed, r), FlexFor(assessed, r)), front)
  }

  ghost function HeldIf(grant: Assessment -> nat, front: ServiceContract -> bool): Assessment -> nat {
    (a: Assessment) => if front(a.contract) then grant(a) else 0
  }

  lemma {:induction false} InFrontIff(r: Request, sorted: seq<ServiceContract>, assessed: seq<Assessment>,
                                      front: ServiceContract -> bool, a: Assessment)
    requires Prepared(r, sorted, assessed) && a in assessed
    ensures a.contract.id as nat in IdsOf(r, front) <==> front(a.contract)
  {
    hide AssessAll, ValidPolicy, SortBy, Assess, ContractFault;
    SameElements(sorted, r.contracts);
    var i :| 0 <= i < |assessed| && assessed[i] == a;
    assert AssessedAs(assessed[i], sorted[i], r);
    assert sorted[i] in r.contracts && a.contract == sorted[i];
    if a.contract.id as nat in IdsOf(r, front) {
      var d :| d in r.contracts && front(d) && d.id == a.contract.id;
      var j :| 0 <= j < |sorted| && sorted[j] == d;
      assert i == j;
    }
  }

  lemma {:induction false} IdleHoldNone(sorted: seq<ServiceContract>, scope: u64, ids: set<nat>)
    ensures SumBy(HeldBy(ids), IdleEntries(sorted, scope)) == 0
  {
    if sorted != [] {
      IdleHoldNone(sorted[1..], scope, ids);
      SumAppend(HeldBy(ids), if Idle(sorted[0], scope) then [IdleEntry(sorted[0], scope)] else [],
                IdleEntries(sorted[1..], scope));
    }
  }

  lemma {:induction false} EntryHolds(a: Assessment, scope: u64, served: set<nat>, spare: nat, flex: map<nat, Verdict>)
    requires Silent(flex)
    ensures var v := VerdictFor(a, served, spare, flex);
      EntryFor(a.contract, scope, v).granted == v.granted && EntryFor(a.contract, scope, v).contract == a.contract.id
  {
    hide DeltaOf, DemandOf;
  }

  // The plan's entries hold what the assessments were granted.
  lemma {:induction false} HeldIsGranted(r: Request, sorted: seq<ServiceContract>, assessed: seq<Assessment>,
                                         front: ServiceContract -> bool)
    requires Prepared(r, sorted, assessed)
    ensures SumBy(HeldBy(IdsOf(r, front)), ServingPlan(sorted, assessed, r).entries) ==
      SumBy(HeldOf(r, front, assessed), assessed)
  {
    hide Prepared, ServedFor, SpareFor, SumBy, ServeFlexible, DemandOf, DeltaOf, SortBy, Filter, IdleEntries, SearchFor,
         SomeRefused, IdsOf, RigidVerdict, EntryFor, VerdictFor;
    var served, spare, flex := ServedFor(assessed, r), SpareFor(assessed, r), FlexFor(assessed, r);
    var held := HeldBy(IdsOf(r, front));
    FlexSilent(FlexList(assessed, r), spare, r.policy);
    var entry := (a: Assessment) => EntryFor(a.contract, r.scope, VerdictFor(a, served, spare, flex));
    assert EntriesFor(assessed, r) == Mapped(entry, assessed);
    var counted := (a: Assessment) => held(entry(a));
    SumOfMapped(entry, held, counted, assessed);
    forall a | a in assessed ensures counted(a) == HeldOf(r, front, assessed)(a) {
      InFrontIff(r, sorted, assessed, front, a);
      EntryHolds(a, r.scope, served, spare, flex);
    }
    SumAgrees(counted, HeldOf(r, front, assessed), assessed);
    SumPermutes(held, ServingPlan(sorted, assessed, r).entries, IdleEntries(sorted, r.scope) + EntriesFor(assessed, r));
    SumAppend(held, IdleEntries(sorted, r.scope), EntriesFor(assessed, r));
    IdleHoldNone(sorted, r.scope, IdsOf(r, front));
  }

  lemma {:induction false} RigidHeld(r: Request, sorted: seq<ServiceContract>, assessed: seq<Assessment>,
                                     front: ServiceContract -> bool)
    requires Prepared(r, sorted, assessed) && Big(Filter(IsRigid, assessed)).Some?
    requires forall d: ServiceContract | d.Rigid() :: front(d)
    ensures SumBy(HeldOf(r, front, assessed), Filter(IsRigid, assessed)) == RigidUse(assessed, r)
      <= r.capability.bandwidth
  {
    hide Prepared, SumBy, DemandOf, BB.Run, BB.Search, RigidItems, BB.Honest, DistinctIds, EntriesFor, ServeFlexible,
         FlexVerdict, SortBy, ExactDensities, BestService, ServedIds, Filter, FlexFor, ServiceContract.Rigid,
         RigidVerdict;
    var rigid := Filter(IsRigid, assessed);
    var served, spare, flex := ServedFor(assessed, r), SpareFor(assessed, r), FlexFor(assessed, r);
    BigMeaning(rigid);
    RigidDistinct(r, sorted, assessed);
    SearchServesBest(rigid, Big(rigid).value, r.capability.bandwidth, r.policy.searchNodeBudget);
    RigidTotal(rigid, ItemsFor(assessed), SearchFor(assessed, r).bestSelection, spare, flex);
    forall a | a in rigid ensures HeldOf(r, front, assessed)(a) == Grant(served, spare, flex)(a) {
      RigidIsRigid(r, sorted, assessed, a);
    }
    SumAgrees(HeldOf(r, front, assessed), Grant(served, spare, flex), rigid);
  }

  lemma {:induction false} RigidIsRigid(r: Request, sorted: seq<ServiceContract>, assessed: seq<Assessment>,
                                        a: Assessment)
    requires Prepared(r, sorted, assessed) && a in assessed
    ensures IsRigid(a) ==> a.contract.Rigid()
    ensures IsFlexible(a) ==> !a.contract.Rigid()
  {
    hide AssessAll, ValidPolicy, SortBy, ServiceContract.Rigid;
    var i :| 0 <= i < |assessed| && assessed[i] == a;
    assert AssessedAs(assessed[i], sorted[i], r);
    RigidFlag(assessed[i], sorted[i], r);
  }

  // The flexible part: what the contracts in front of position i were granted.
  lemma {:induction false} FlexHeld(r: Request, sorted: seq<ServiceContract>, assessed: seq<Assessment>, i: nat)
    requires Prepared(r, sorted, assessed) && i < |FlexList(assessed, r)|
    ensures var list := FlexList(assessed, r);
      SumBy(HeldOf(r, Before(list[i].contract, r.policy.protectFirst), assessed), Filter(IsFlexible, assessed)) ==
        SumBy(FlexGrant(FlexFor(assessed, r)), list[..i])
  {
    hide Prepared, SumBy, ServeFlexible, FlexVerdict, SortBy, Filter, Outranks, ServiceContract.Rigid, RigidVerdict,
         ServedFor, SpareFor, AllocationPrecedes, StrictTotal, Sorted, DistinctBy;
    var list, some := FlexList(assessed, r), Filter(IsFlexible, assessed);
    var c, pf := list[i].contract, r.policy.protectFirst;
    var held := HeldOf(r, Before(c, pf), assessed);
    var below := (a: Assessment) => Outranks(a.contract, c, pf);
    FlexListSorted(r, sorted, assessed);
    forall a: Assessment ensures below(a) <==> FlexOrder(pf)(a, list[i]) { PrecedesIsOutranks(a.contract, c, pf); }
    BelowIsPrefix(FlexOrder(pf), list, i, below);
    SumPermutes(held, some, list);
    forall a | a in list
      ensures (!below(a) ==> held(a) == 0) && (below(a) ==> held(a) == FlexGrant(FlexFor(assessed, r))(a)) {
      FlexListMember(r, sorted, assessed, a);
    }
    SumFiltered(held, below, list);
    SumAgrees(held, FlexGrant(FlexFor(assessed, r)), list[..i]);
  }

  lemma {:induction false} FlexListMember(r: Request, sorted: seq<ServiceContract>, assessed: seq<Assessment>,
                                          a: Assessment)
    requires Prepared(r, sorted, assessed) && a in FlexList(assessed, r)
    ensures a in assessed && IsFlexible(a) && !IsRigid(a) && !a.contract.Rigid()
    ensures a.contract.id as nat in FlexFor(assessed, r)
  {
    hide Prepared, ServeFlexible, SortBy, Filter, ServiceContract.Rigid, SpareFor;
    var list := FlexList(assessed, r);
    SameElements(list, Filter(IsFlexible, assessed));
    FlexServed(list, SpareFor(assessed, r), r.policy);
    RigidIsRigid(r, sorted, assessed, a);
  }

  lemma {:induction false} FlexListSorted(r: Request, sorted: seq<ServiceContract>, assessed: seq<Assessment>)
    requires Prepared(r, sorted, assessed)
    ensures var list := FlexList(assessed, r);
      && StrictTotal(FlexOrder(r.policy.protectFirst), multiset(list)) && Sorted(FlexOrder(r.policy.protectFirst), list)
      && DistinctBy(AssessmentId, list) && (forall k, m | 0 <= k < m < |list| :: list[k] != list[m])
      && multiset(list) == multiset(Filter(IsFlexible, assessed))
  {
    hide Prepared, SortBy, Filter, StrictTotal, Sorted, AllocationPrecedes;
    var list, some, less := FlexList(assessed, r), Filter(IsFlexible, assessed), FlexOrder(r.policy.protectFirst);
    AssessedDistinct(r, sorted, assessed);
    FilterIsSub(IsFlexible, assessed);
    DistinctBySub(AssessmentId, some, assessed);
    DistinctBySub(AssessmentId, list, assessed);
    FlexOrderTotal(some, r.policy.protectFirst);
    SortBySorts(less, some);
    forall k, m | 0 <= k < m < |list| ensures list[k] != list[m] {
      assert AssessmentId(list[k]) != AssessmentId(list[m]);
    }
  }

  // So what is left for position i is what those ahead do not hold.
  lemma {:induction false} LeftIsUnheld(r: Request, sorted: seq<ServiceContract>, assessed: seq<Assessment>, i: nat)
    requires Prepared(r, sorted, assessed) && Big(Filter(IsRigid, assessed)).Some? && i < |FlexList(assessed, r)|
    ensures var list := FlexList(assessed, r);
      HeldAhead(r, ServingPlan(sorted, assessed, r), list[i].contract) + Left(list, SpareFor(assessed, r), r.policy, i)
      == r.capability.bandwidth
  {
    hide Prepared, SumBy, ServeFlexible, FlexVerdict, SortBy, Filter, Outranks, ServiceContract.Rigid, RigidVerdict,
         ServingPlan, Left, RigidUse, IdsOf, StrictTotal, Sorted, DistinctBy, ServedFor, VerdictFor;
    var list := FlexList(assessed, r);
    var c := list[i].contract;
    var front := Before(c, r.policy.protectFirst);
    HeldIsGranted(r, sorted, assessed, front);
    HeldSplits(r, assessed, front);
    RigidHeld(r, sorted, assessed, front);
    FlexHeld(r, sorted, assessed, i);
    FlexListSorted(r, sorted, assessed);
    LeftMeans(list, SpareFor(assessed, r), r.policy, i);
  }

  lemma {:induction false} HeldSplits(r: Request, assessed: seq<Assessment>, front: ServiceContract -> bool)
    ensures var held := HeldOf(r, front, assessed);
      SumBy(held, assessed) == SumBy(held, Filter(IsRigid, assessed)) + SumBy(held, Filter(IsFlexible, assessed))
  {
    hide SumBy, Filter, RigidVerdict, ServedFor, SpareFor, FlexFor;
    SumSplit(HeldOf(r, front, assessed), IsRigid, IsFlexible, assessed);
  }

  // --------------------------------------------------------------------------
  // The entries of a plan
  // --------------------------------------------------------------------------

  // A flexible contract of the scope that may be served something.
  ghost predicate Contends(c: ServiceContract, r: Request) {
    c in r.contracts && !Idle(c, r.scope) && !c.Rigid() && Assess(c, r.capability, r.policy).admissible
  }

  // e is what the plan says about c.
  ghost predicate SaysOf(plan: Plan, e: Entry, c: ServiceContract) {
    e in plan.entries && e.contract == c.id
  }

  // Where a contending contract stands in the list, and the entry that comes of it.
  lemma {:induction false} EntryAt(r: Request, sorted: seq<ServiceContract>, assessed: seq<Assessment>,
                                   c: ServiceContract, e: Entry) returns (i: nat)
    requires Prepared(r, sorted, assessed) && Contends(c, r) && SaysOf(ServingPlan(sorted, assessed, r), e, c)
    ensures var list := FlexList(assessed, r);
      && i < |list| && list[i] == Assess(c, r.capability, r.policy) && list[i].contract == c
      && e == EntryFor(c, r.scope, FlexVerdict(list[i], Left(list, SpareFor(assessed, r), r.policy, i), r.policy))
  {
    hide Prepared, ServeFlexible, SortBy, Filter, ServiceContract.Rigid, SpareFor, ServedFor, ServingPlan, EntryFor,
         FlexVerdict, Left, DistinctBy, StrictTotal, Sorted, Assess;
    var a, list := AssessOne(r)(c), FlexList(assessed, r);
    ServingEntriesAbout(r, sorted, assessed, c, e);
    AssessOneIn(r, sorted, assessed, c);
    AssessOneAbout(r, c);
    AssessedIsAbout(c, r);
    FilterKeepsAll(IsFlexible, assessed);
    FlexListSorted(r, sorted, assessed);
    SameElements(list, Filter(IsFlexible, assessed));
    i :| 0 <= i < |list| && list[i] == a;
    VerdictAt(list, SpareFor(assessed, r), r.policy, i);
  }

  lemma {:induction false} AssessedIsAbout(c: ServiceContract, r: Request)
    ensures var a := Assess(c, r.capability, r.policy); a.contract == c && a.rigid == c.Rigid()
  {
    hide ServiceContract.Rigid, Assess;
  }

  // What is left for c once everything served ahead of it holds what it holds, and the
  // lesser of that and its demand.
  function LeftFor(r: Request, plan: Plan, c: ServiceContract): int {
    r.capability.bandwidth - HeldAhead(r, plan, c)
  }

  function Share(r: Request, plan: Plan, c: ServiceContract): nat {
    if LeftFor(r, plan, c) < 0 then 0 else Min(c.Demand(), LeftFor(r, plan, c))
  }

  lemma {:induction false} EntryOf(r: Request, c: ServiceContract, e: Entry)
    requires Allocate(r).Ok? && !Allocate(r).value.status.ProvenInfeasible?
    requires Contends(c, r) && SaysOf(Allocate(r).value, e, c)
    ensures var plan, a := Allocate(r).value, Assess(c, r.capability, r.policy);
      && LeftFor(r, plan, c) >= 0 && ValidPolicy(r.policy) && ValidContract(c)
      && e == EntryFor(c, r.scope, FlexVerdict(a, LeftFor(r, plan, c), r.policy))
  {
    hide Allocate, Prepared, ServingPlan, Filter, Big, RigidUse, DeltasExist, SumBy, EntriesFor, EntryFor, FlexVerdict,
         HeldAhead, Left, SpareFor, SortBy, ServiceContract.Rigid, Assess, Infeasible, ProofFor;
    var sorted, assessed := Returned(r);
    FeasibleServes(r, sorted, assessed, Allocate(r).value);
    var i := EntryAt(r, sorted, assessed, c, e);
    LeftIsUnheld(r, sorted, assessed, i);
    ContenderIsValid(r, sorted, assessed, c);
  }

  lemma {:induction false} FeasibleServes(r: Request, sorted: seq<ServiceContract>, assessed: seq<Assessment>,
                                          plan: Plan)
    requires Answered(r, sorted, assessed, plan) && !plan.status.ProvenInfeasible?
    ensures Prepared(r, sorted, assessed) && plan == ServingPlan(sorted, assessed, r)
    ensures Big(Filter(IsRigid, assessed)).Some?
  {
    hide Prepared, ServingPlan, Filter, Big, RigidUse, DeltasExist, SumBy, EntriesFor, SortBy, ProofFor, Infeasible;
  }

  lemma {:induction false} ContenderIsValid(r: Request, sorted: seq<ServiceContract>, assessed: seq<Assessment>,
                                            c: ServiceContract)
    requires Prepared(r, sorted, assessed) && c in r.contracts && !Idle(c, r.scope)
    ensures ValidContract(c) && ValidPolicy(r.policy)
  {
    hide AssessAll, ValidPolicy, SortBy, Assess, ContractFault;
    SameElements(sorted, r.contracts);
    var k :| 0 <= k < |sorted| && sorted[k] == c;
    assert AssessedAs(assessed[k], sorted[k], r);
  }

  // --------------------------------------------------------------------------
  // Main results
  // --------------------------------------------------------------------------

  // A flexible contract that asks for bandwidth is refused for want of it exactly when what
  // is left for it is below its floor; one that is admitted holds the lesser of what it
  // asks for and what is left for it; and nothing else refuses it but the envelope.
  lemma {:induction false} ShareIsExact(r: Request, c: ServiceContract, e: Entry)
    requires Allocate(r).Ok? && !Allocate(r).value.status.ProvenInfeasible?
    requires Contends(c, r) && SaysOf(Allocate(r).value, e, c)
    ensures var plan := Allocate(r).value;
      && HeldAhead(r, plan, c) <= r.capability.bandwidth
      && (!e.admitted && e.reason == ResourceExhausted <==> Share(r, plan, c) < c.Floor())
      && (e.admitted ==> e.granted == Share(r, plan, c))
      && (!e.admitted ==> e.granted == 0 && e.outcome == RefusedService
                          && (e.reason == ResourceExhausted || e.reason == PolicyEnvelopeExceeded))
  {
    hide Allocate, HeldAhead, Assess, EffectiveEnvelope, Permits, OfferedSet, ServiceContract.Demand,
         ServiceContract.Floor, DeltaOf, ServiceContract.Rigid, ValidContract, ValidPolicy;
    EntryOf(r, c, e);
    AssessedIsAbout(c, r);
    FloorBelowDemand(c);
  }

  lemma {:induction false} HeldAndMore(ids: set<nat>, entries: seq<Entry>, f: Entry)
    requires f in entries && f.contract !in ids
    ensures SumBy(HeldBy(ids), entries) + f.granted <= SumBy(GrantedOf, entries)
  {
    if entries[0] == f {
      HeldIsLess(ids, entries[1..]);
    } else {
      HeldAndMore(ids, entries[1..], f);
    }
  }

  lemma {:induction false} HeldIsLess(ids: set<nat>, entries: seq<Entry>)
    ensures SumBy(HeldBy(ids), entries) <= SumBy(GrantedOf, entries)
  {
    if entries != [] { HeldIsLess(ids, entries[1..]); }
  }

  lemma {:induction false} IdleGrantNone(sorted: seq<ServiceContract>, scope: u64)
    ensures SumBy(GrantedOf, IdleEntries(sorted, scope)) == 0
  {
    if sorted != [] {
      IdleGrantNone(sorted[1..], scope);
      SumAppend(GrantedOf, if Idle(sorted[0], scope) then [IdleEntry(sorted[0], scope)] else [],
                IdleEntries(sorted[1..], scope));
    }
  }

  lemma {:induction false} EntriesFit(r: Request, sorted: seq<ServiceContract>, assessed: seq<Assessment>, plan: Plan)
    requires Answered(r, sorted, assessed, plan) && !plan.status.ProvenInfeasible?
    ensures SumBy(GrantedOf, plan.entries) <= r.capability.bandwidth
  {
    hide Prepared, Filter, Big, RigidUse, DeltasExist, SumBy, EntriesFor, SortBy, ProofFor, Infeasible, IdleEntries,
         SearchFor, SomeRefused;
    SumPermutes(GrantedOf, plan.entries, IdleEntries(sorted, r.scope) + EntriesFor(assessed, r));
    SumAppend(GrantedOf, IdleEntries(sorted, r.scope), EntriesFor(assessed, r));
    IdleGrantNone(sorted, r.scope);
  }

  lemma {:induction false} NotAhead(r: Request, sorted: seq<ServiceContract>, assessed: seq<Assessment>,
                                    c: ServiceContract, d: ServiceContract)
    requires Prepared(r, sorted, assessed) && d in r.contracts && !d.Rigid() && Outranks(c, d, r.policy.protectFirst)
    ensures d.id as nat !in Ahead(r, c)
  {
    hide Prepared, ServiceContract.Rigid, IdsOf, Assess, ClassRank;
    AssessOneIn(r, sorted, assessed, d);
    AssessOneAbout(r, d);
    InFrontIff(r, sorted, assessed, Before(c, r.policy.protectFirst), AssessOne(r)(d));
    RanksTellClasses(c.serviceClass, d.serviceClass);
  }

  // What a lower-ranked contract holds was left for every contract ranked above it.
  lemma {:induction false} LowerLeavesRoom(r: Request, c: ServiceContract, d: ServiceContract, f: Entry)
    requires Allocate(r).Ok? && !Allocate(r).value.status.ProvenInfeasible?
    requires d in r.contracts && !d.Rigid() && SaysOf(Allocate(r).value, f, d) && Outranks(c, d, r.policy.protectFirst)
    ensures f.granted <= LeftFor(r, Allocate(r).value, c)
  {
    hide Allocate, ServiceContract.Rigid, Ahead, Outranks, SumBy, Answered, Prepared, ServingPlan;
    var sorted, assessed := Returned(r);
    EntriesFit(r, sorted, assessed, Allocate(r).value);
    FeasibleServes(r, sorted, assessed, Allocate(r).value);
    NotAhead(r, sorted, assessed, c, d);
    HeldAndMore(Ahead(r, c), Allocate(r).value.entries, f);
  }

  // No inversion: a contract is not refused for want of bandwidth that one of its own class
  // and of lower priority holds, nor one of a lower class if classes go first, nor one of
  // lower priority if they do not.
  lemma {:induction false} NoInversion(r: Request, c: ServiceContract, d: ServiceContract, e: Entry, f: Entry)
    requires Allocate(r).Ok? && !Allocate(r).value.status.ProvenInfeasible?
    requires Contends(c, r) && Contends(d, r) && SaysOf(Allocate(r).value, e, c) && SaysOf(Allocate(r).value, f, d)
    requires
      || (c.serviceClass == d.serviceClass && c.priority > d.priority)
      || (r.policy.protectFirst && ClassRank(c.serviceClass) < ClassRank(d.serviceClass))
      || (!r.policy.protectFirst && c.priority > d.priority)
    requires f.granted >= c.Floor()
    ensures e.admitted || e.reason != ResourceExhausted
  {
    hide Allocate, ServiceContract.Rigid, HeldAhead, ServiceContract.Floor, ServiceContract.Demand, ClassRank, Assess,
         ValidContract, ValidPolicy, EntryFor, FlexVerdict;
    EntryOf(r, c, e);
    FloorBelowDemand(c);
    ShareIsExact(r, c, e);
    LowerLeavesRoom(r, c, d, f);
  }

  // --------------------------------------------------------------------------
  // Who is admitted
  // --------------------------------------------------------------------------

  // What c would be promised on a share of the bandwidth: on every other kind the strongest
  // value the snapshot supports, and the share itself if it asks for bandwidth at all.
  ghost predicate PromiseOn(s: GuaranteeSet, c: ServiceContract, cap: Capability, share: nat) {
    && IsMeet(cap, c.original, s)
    && (c.Demand() > 0 ==>
          (match Find(s, Bandwidth)
           case Some(g) => g.comparator == AtLeast && g.value == share && g.hard
           case None => false))
    && (c.Demand() == 0 ==> Find(s, Bandwidth) == Find(c.original, Bandwidth))
  }

  lemma {:induction false} StrongestIsOne(cap: Capability, base: Guarantee, g: Guarantee, h: Guarantee)
    requires AdmittedService.Strongest(cap, base, g) && AdmittedService.Strongest(cap, base, h)
    ensures g == h
  {
    hide IsSupported;
  }

  lemma {:induction false} FindKind(s: GuaranteeSet, k: Kind)
    ensures Find(s, k).Some? ==> Find(s, k).value.kind == k
  {
  }

  // Two meets that agree on bandwidth are one.
  lemma {:induction false} OneMeet(a: GuaranteeSet, b: GuaranteeSet, original: GuaranteeSet, cap: Capability)
    requires IsMeet(cap, original, a) && IsMeet(cap, original, b) && Find(a, Bandwidth) == Find(b, Bandwidth)
    ensures a == b
  {
    hide Canonical, AdmittedService.Strongest, Find;
    forall k ensures Find(a, k) == Find(b, k) {
      if k != Bandwidth && Find(a, k).Some? && Find(b, k).Some? {
        StrongestIsOne(cap, Find(original, k).value, Find(a, k).value, Find(b, k).value);
      }
    }
    Extensional(a, b);
  }

  // There is only one such set.
  lemma {:induction false} OnePromise(a: GuaranteeSet, b: GuaranteeSet, c: ServiceContract, cap: Capability, share: nat)
    requires PromiseOn(a, c, cap, share) && PromiseOn(b, c, cap, share)
    ensures a == b
  {
    hide IsMeet, Find, ServiceContract.Demand;
    FindKind(a, Bandwidth);
    FindKind(b, Bandwidth);
    OneMeet(a, b, c.original, cap);
  }

  lemma {:induction false} OfferIsPromise(a: Assessment, c: ServiceContract, r: Request, remaining: nat)
    requires AssessedAs(a, c, r) && ValidPolicy(r.policy) && IsFlexible(a)
    ensures OfferedSet(a, remaining).Ok?
    ensures PromiseOn(OfferedSet(a, remaining).value, c, r.capability, Min(c.Demand(), remaining))
  {
    hide AssessedAs, ValidPolicy, IsMeet, Canonical, Upsert, Find, ServiceContract.Demand, ContractFault;
    AssessedIsMeet(a, c, r);
    BandwidthBase(c);
    AboutContract(a, c, r);
    if c.Demand() > 0 {
      UpsertKeepsMeet(r.capability, c.original, a.approved, Guarantee(Bandwidth, AtLeast, Offer(a, remaining), true));
    }
  }

  // A flexible contract is admitted exactly when its share reaches its floor and its
  // envelope permits what it would be promised on it; and that is what it is promised.
  lemma {:induction false} AdmittedIff(r: Request, c: ServiceContract, e: Entry)
    requires Allocate(r).Ok? && !Allocate(r).value.status.ProvenInfeasible?
    requires Contends(c, r) && SaysOf(Allocate(r).value, e, c)
    ensures EffectiveEnvelope(r.policy, c).Ok?
    ensures var share, limits := Share(r, Allocate(r).value, c), EffectiveEnvelope(r.policy, c).value;
      && (e.admitted <==> share >= c.Floor()
                          && exists s :: PromiseOn(s, c, r.capability, share) && Permits(limits, c.original, s))
      && (e.admitted ==> PromiseOn(e.approved, c, r.capability, share) && Permits(limits, c.original, e.approved))
  {
    hide Allocate, HeldAhead, Assess, EffectiveEnvelope, Permits, OfferedSet, ServiceContract.Demand, PromiseOn,
         ServiceContract.Floor, DeltaOf, ServiceContract.Rigid, ContractFault, ValidPolicy, Offer;
    EntryOf(r, c, e);
    AssessedIsAbout(c, r);
    FloorBelowDemand(c);
    var a, share, left := Assess(c, r.capability, r.policy), Share(r, Allocate(r).value, c),
                          LeftFor(r, Allocate(r).value, c);
    FlexibleIsOffered(a, c, r);
    OfferIsPromise(a, c, r, left);
    OfferIsShare(a, left);
    var s := OfferedSet(a, left).value;
    var limits := EffectiveEnvelope(r.policy, c).value;
    forall t | PromiseOn(t, c, r.capability, share) && Permits(limits, c.original, t)
      ensures Permits(limits, c.original, s) {
      OnePromise(s, t, c, r.capability, share);
    }
  }

  lemma {:induction false} OfferIsShare(a: Assessment, left: nat)
    ensures Offer(a, left) == Min(a.contract.Demand(), left)
  {
    hide ServiceContract.Demand;
  }

  // So a contract is served in full whenever the snapshot supports all of it, its bandwidth
  // guarantee is hard, and what is left for it is what it asks for.
  lemma {:induction false} FullWhenItFits(r: Request, c: ServiceContract, e: Entry)
    requires Allocate(r).Ok? && !Allocate(r).value.status.ProvenInfeasible?
    requires Contends(c, r) && SaysOf(Allocate(r).value, e, c)
    requires AllSupported(r.capability, c.original) && !SoftBandwidth(c)
    requires LeftFor(r, Allocate(r).value, c) >= c.Demand()
    ensures e.admitted && e.full && e.approved == c.original && e.granted == c.Demand()
  {
    hide Allocate, HeldAhead, Assess, EffectiveEnvelope, Permits, ServiceContract.Demand, FlexVerdict,
         ServiceContract.Floor, ServiceContract.Rigid, ContractFault, ValidPolicy, Canonical, Find, IsMeet;
    EntryOf(r, c, e);
    FloorBelowDemand(c);
    BandwidthBase(c);
    OriginalCanonical(c);
    NoShortfalls(r.capability, c.original);
    SupportedIsMeet(r.capability, c.original);
    assert PromiseOn(c.original, c, r.capability, c.Demand());
    AdmittedIff(r, c, e);
    PermitsItself(EffectiveEnvelope(r.policy, c).value, c.original);
    ShareIsExact(r, c, e);
    OnePromise(c.original, e.approved, c, r.capability, c.Demand());
    EmptyDeltaMeansEqual(c.original, c.original, ConcessionWithinEnvelope);
    WeakensReflexive(c.original);
  }

  // --------------------------------------------------------------------------
  // Rigid contracts
  // --------------------------------------------------------------------------

  function OnlyRigid(): ServiceContract -> bool {
    (d: ServiceContract) => d.Rigid()
  }

  // The bandwidth that rigid entries do not hold.
  function LeftOfRigid(r: Request, plan: Plan): int {
    r.capability.bandwidth - SumBy(HeldBy(IdsOf(r, OnlyRigid())), plan.entries)
  }

  lemma {:induction false} NoneHeld(f: Assessment -> nat, s: seq<Assessment>)
    requires forall a | a in s :: f(a) == 0
    ensures SumBy(f, s) == 0
  {
    if s != [] { NoneHeld(f, s[1..]); }
  }

  lemma {:induction false} SpareIsLeft(r: Request, sorted: seq<ServiceContract>, assessed: seq<Assessment>)
    requires Prepared(r, sorted, assessed) && Big(Filter(IsRigid, assessed)).Some?
    ensures LeftOfRigid(r, ServingPlan(sorted, assessed, r)) == SpareFor(assessed, r)
  {
    hide Prepared, SumBy, Filter, ServiceContract.Rigid, RigidVerdict, ServingPlan, RigidUse, IdsOf, ServedFor,
         VerdictFor, FlexFor;
    var front := OnlyRigid();
    HeldIsGranted(r, sorted, assessed, front);
    HeldSplits(r, assessed, front);
    RigidHeld(r, sorted, assessed, front);
    forall a | a in Filter(IsFlexible, assessed) ensures HeldOf(r, front, assessed)(a) == 0 {
      RigidIsRigid(r, sorted, assessed, a);
    }
    NoneHeld(HeldOf(r, front, assessed), Filter(IsFlexible, assessed));
  }

  // A rigid contract that may be served is served whole or refused; it is refused for want
  // of bandwidth exactly when the rigid contracts that are served leave less than it asks.
  lemma {:induction false} RigidIsWholeOrRefused(r: Request, c: ServiceContract, e: Entry)
    requires Allocate(r).Ok? && !Allocate(r).value.status.ProvenInfeasible? && SaysOf(Allocate(r).value, e, c)
    requires c in r.contracts && !Idle(c, r.scope) && c.Rigid() && Assess(c, r.capability, r.policy).admissible
    ensures var plan := Allocate(r).value;
      if e.admitted then e.approved == c.original && e.full && e.granted == c.Demand()
      else e.outcome == RefusedService && e.granted == 0
           && e.reason == if c.Demand() > LeftOfRigid(r, plan) then ResourceExhausted else ProtectedObligationUnmet
  {
    hide Allocate, Prepared, ServingPlan, Filter, Big, RigidUse, DeltasExist, SumBy, EntriesFor, SpareFor, SortBy,
         ServiceContract.Rigid, Assess, Infeasible, ProofFor, ServedFor, FlexFor, ContractFault, LeftOfRigid,
         ServiceContract.Demand, ValidPolicy;
    var sorted, assessed := Returned(r);
    FeasibleServes(r, sorted, assessed, Allocate(r).value);
    ServingEntriesAbout(r, sorted, assessed, c, e);
    ContenderIsValid(r, sorted, assessed, c);
    AssessedIsAbout(c, r);
    SpareIsLeft(r, sorted, assessed);
    RigidIsWhole(Assess(c, r.capability, r.policy), c, r);
    OriginalCanonical(c);
    EmptyDeltaMeansEqual(c.original, c.original, ConcessionWithinEnvelope);
    WeakensReflexive(c.original);
  }
}
