// What a plan does not depend on: the order of the request, the flexible contracts
// as far as rigid service goes, and any flexible contract served later.
module NonInterference {
  import opened Core
  import opened Contracts
  import opened Assessments
  import opened Allocator
  import opened Sorting
  import opened Sums
  import opened Subsets
  import opened PlanAcceptance
  import opened PlanOptimality
  import opened RigidService
  import opened PlanReturned
  import ReferenceSolver

  // --------------------------------------------------------------------------
  // Input order
  // --------------------------------------------------------------------------

  function ContractKey(c: ServiceContract): nat {
    c.id
  }

  lemma {:induction false} ByIdTotal(cs: seq<ServiceContract>)
    requires DistinctBy(ReferenceSolver.IdOf, cs)
    ensures StrictTotal(ById, multiset(cs))
  {
    hide StrictTotal;
    forall i, j | 0 <= i < j < |cs| ensures ContractKey(cs[i]) != ContractKey(cs[j]) {
      assert ReferenceSolver.IdOf(cs[i]) != ReferenceSolver.IdOf(cs[j]);
    }
    KeyOrderTotal(ContractKey, ById, cs);
  }

  lemma {:induction false} RepeatsIff(cs: seq<ServiceContract>)
    ensures Repeats(SortBy(ById, cs)) <==> !DistinctBy(ReferenceSolver.IdOf, cs)
  {
    hide SortBy;
    var s := SortBy(ById, cs);
    if !Repeats(s) { ReferenceSolver.SortedContractsDistinct(cs); }
    if DistinctBy(ReferenceSolver.IdOf, cs) {
      DistinctBySub(ReferenceSolver.IdOf, s, cs);
      forall i | 1 <= i < |s| ensures s[i - 1].id != s[i].id {
        assert ReferenceSolver.IdOf(s[i - 1]) != ReferenceSolver.IdOf(s[i]);
      }
    }
  }

  // The answer does not depend on the order in which contracts are listed.
  lemma {:induction false} OrderIrrelevant(r: Request, contracts: seq<ServiceContract>)
    requires multiset(contracts) == multiset(r.contracts)
    ensures Allocate(r.(contracts := contracts)) == Allocate(r)
  {
    hide PlanFor, PolicyFault, SortBy, AssessAll, Repeats;
    RepeatsIff(r.contracts);
    RepeatsIff(contracts);
    if DistinctBy(ReferenceSolver.IdOf, r.contracts) {
      ByIdTotal(r.contracts);
      SortIgnoresOrder(ById, r.contracts, contracts);
      DistinctBySub(ReferenceSolver.IdOf, contracts, r.contracts);
      var sorted := SortBy(ById, r.contracts);
      if AssessAll(sorted, r.scope, r.capability, r.policy).Ok? {
        PlanIgnoresList(sorted, AssessAll(sorted, r.scope, r.capability, r.policy).value, r, contracts);
      }
    } else {
      if DistinctBy(ReferenceSolver.IdOf, contracts) {
        DistinctBySub(ReferenceSolver.IdOf, r.contracts, contracts);
      }
    }
  }

  // Past its checks, the plan reads only the sorted list.
  lemma {:induction false} PlanIgnoresList(sorted: seq<ServiceContract>, assessed: seq<Assessment>, r: Request,
                                           contracts: seq<ServiceContract>)
    ensures PlanFor(sorted, assessed, r.(contracts := contracts)) == PlanFor(sorted, assessed, r)
  {
    hide SortBy, SumBy, Filter, EntryFor, Impossible, ServeFlexible, VerdictFor;
    var q := r.(contracts := contracts);
    assert SearchFor(assessed, q) == SearchFor(assessed, r);
    assert SpareFor(assessed, q) == SpareFor(assessed, r);
    assert FlexFor(assessed, q) == FlexFor(assessed, r);
    assert Verdicts(assessed, q) == Verdicts(assessed, r);
    assert EntriesFor(assessed, q) == EntriesFor(assessed, r);
  }

  // --------------------------------------------------------------------------
  // Rigid service
  // --------------------------------------------------------------------------

  // The assessment a contract gets, whoever else is in the request.
  ghost function AssessOne(r: Request): ServiceContract -> Assessment {
    (c: ServiceContract) => if Idle(c, r.scope) then IdleAssessment(c, r.scope) else Assess(c, r.capability, r.policy)
  }

  lemma {:induction false} AssessedIsMapped(r: Request, sorted: seq<ServiceContract>, assessed: seq<Assessment>)
    requires AssessedFor(assessed, sorted, r)
    ensures assessed == Mapped(AssessOne(r), sorted)
  {
    hide Assess, ContractFault, IdleAssessment;
    forall i | 0 <= i < |sorted| ensures assessed[i] == Mapped(AssessOne(r), sorted)[i] {
      assert AssessedAs(assessed[i], sorted[i], r);
      assert Mapped(AssessOne(r), sorted)[i] == AssessOne(r)(sorted[i]);
    }
  }

  lemma {:induction false} FilterSorted<T>(less: (T, T) -> bool, p: T -> bool, s: seq<T>)
    requires Sorted(less, s)
    ensures Sorted(less, Filter(p, s))
  {
    if s != [] {
      assert Sorted(less, s[1..]) by {
        assert forall i | 0 <= i < |s[1..]| :: s[1..][i] == s[i + 1];
      }
      FilterSorted(less, p, s[1..]);
      var kept := Filter(p, s[1..]);
      forall k | 0 <= k < |kept| ensures !less(kept[k], s[0]) {
        assert kept[k] in s[1..];
        var i :| 0 <= i < |s[1..]| && s[1..][i] == kept[k];
        assert !less(s[i + 1], s[0]);
      }
      SortedCons(less, s[0], kept);
    }
  }

  // Filtering a sorted list ignores elements the filter drops anyway.
  lemma {:induction false} SortedFilterIgnores<T>(less: (T, T) -> bool, p: T -> bool, a: seq<T>, more: seq<T>)
    requires StrictTotal(less, multiset(a + more)) && forall x | x in more :: !p(x)
    ensures Filter(p, SortBy(less, a + more)) == Filter(p, SortBy(less, a))
  {
    hide SortBy, StrictTotal, Sorted;
    var m := multiset(a + more);
    var x, y := SortBy(less, a + more), SortBy(less, a);
    TotalOnPart(less, a, more);
    SortBySorts(less, a + more);
    SortBySorts(less, a);
    FilterSorted(less, p, x);
    FilterSorted(less, p, y);
    FilterPermutes(p, x, a + more);
    FilterPermutes(p, y, a);
    FilterAppend(p, a, more);
    FilterNone(p, more);
    assert Filter(p, a) + [] == Filter(p, a);
    FilterIsSub(p, x);
    SortedIsUnique(less, m, Filter(p, x), Filter(p, y));
  }

  lemma {:induction false} TotalOnPart<T>(less: (T, T) -> bool, a: seq<T>, more: seq<T>)
    requires StrictTotal(less, multiset(a + more))
    ensures StrictTotal(less, multiset(a))
  {
    assert forall x | x in multiset(a) :: x in multiset(a + more);
  }

  // `r` with more contracts in it.
  function Extended(r: Request, more: seq<ServiceContract>): Request {
    r.(contracts := r.contracts + more)
  }

  lemma {:induction false} CandidatesUnaffected(r: Request, more: seq<ServiceContract>)
    requires forall c | c in more :: !c.Rigid()
    requires DistinctBy(ReferenceSolver.IdOf, r.contracts + more)
    ensures Candidates(Extended(r, more)) == Candidates(r)
  {
    hide SortBy, ServiceContract.Rigid, ContractFault, Shortfalls, ProfileFor;
    var p := (c: ServiceContract) => AdmissibleRigid(c, r);
    var q := (c: ServiceContract) => AdmissibleRigid(c, Extended(r, more));
    ByIdTotal(r.contracts + more);
    SortedFilterIgnores(ById, p, r.contracts, more);
    FilterAgrees(p, q, SortBy(ById, r.contracts + more));
  }

  lemma {:induction false} RigidDetermined(r: Request, sorted: seq<ServiceContract>, assessed: seq<Assessment>)
    requires Prepared(r, sorted, assessed)
    ensures Filter(IsRigid, assessed) == Mapped(AssessOne(r), Candidates(r))
  {
    hide Assess, AssessAll, SortBy, ValidPolicy, IdsAscend, Candidates, AssessedFor, IsRigid;
    RigidAreCandidates(r, sorted, assessed);
    AssessedIsMapped(r, sorted, assessed);
    var rigid := Filter(IsRigid, assessed);
    forall i | 0 <= i < |rigid| ensures rigid[i] == AssessOne(r)(Candidates(r)[i]) {
      assert rigid[i] in assessed;
      var j :| 0 <= j < |assessed| && assessed[j] == rigid[i];
      assert assessed[j] == AssessOne(r)(sorted[j]);
      AssessOneAbout(r, sorted[j]);
      assert Candidates(r)[i] == ContractOf(rigid[i]);
    }
  }

  lemma {:induction false} AssessOneAbout(r: Request, c: ServiceContract)
    ensures AssessOne(r)(c).contract == c
  {
    hide Assess;
  }

  lemma {:induction false} AnsweredDistinct(r: Request, sorted: seq<ServiceContract>, assessed: seq<Assessment>)
    requires Prepared(r, sorted, assessed)
    ensures DistinctBy(ReferenceSolver.IdOf, r.contracts)
  {
    hide AssessAll, AssessedFor, ValidPolicy, SortBy;
    DistinctBySub(ReferenceSolver.IdOf, r.contracts, sorted);
  }

  lemma {:induction false} SameRigid(r: Request, more: seq<ServiceContract>, sorted: seq<ServiceContract>,
                                     assessed: seq<Assessment>, sorted': seq<ServiceContract>,
                                     assessed': seq<Assessment>)
    requires forall c | c in more :: !c.Rigid()
    requires Prepared(r, sorted, assessed) && Prepared(Extended(r, more), sorted', assessed')
    ensures Filter(IsRigid, assessed') == Filter(IsRigid, assessed)
  {
    hide Prepared, Candidates, Assess, ServiceContract.Rigid;
    AnsweredDistinct(Extended(r, more), sorted', assessed');
    CandidatesUnaffected(r, more);
    RigidDetermined(r, sorted, assessed);
    RigidDetermined(Extended(r, more), sorted', assessed');
  }

  // What the search sees depends on the rigid contracts alone.
  lemma {:induction false} SameSearch(r: Request, more: seq<ServiceContract>, assessed: seq<Assessment>,
                                      assessed': seq<Assessment>)
    requires Filter(IsRigid, assessed') == Filter(IsRigid, assessed)
    ensures var q := Extended(r, more);
      && ItemsFor(assessed') == ItemsFor(assessed)
      && SearchFor(assessed', q) == SearchFor(assessed, r)
      && ServedFor(assessed', q) == ServedFor(assessed, r)
      && SpareFor(assessed', q) == SpareFor(assessed, r)
      && (Infeasible(assessed', q) <==> Infeasible(assessed, r))
  {
    hide RigidItems, Impossible, SortedDemands, Big;
  }

  lemma {:induction false} InfeasibleServesNothing(r: Request, sorted: seq<ServiceContract>, proof: Certificate)
    ensures ServedContracts(InfeasiblePlan(sorted, proof, r), r) == []
  {
    hide SortBy, IdleEntries, ServiceContract.Rigid;
    var plan := InfeasiblePlan(sorted, proof, r);
    var entries := IdleEntries(sorted, r.scope) + EscalatedEntries(sorted, r.scope);
    IdleEntriesRefuse(sorted, r.scope);
    SameElements(plan.entries, entries);
    forall c: ServiceContract | c in SortBy(ById, r.contracts) ensures !Serves(plan, c) {
      assert forall e | e in plan.entries :: e in entries;
    }
    FilterNone((c: ServiceContract) => c.Rigid() && Serves(plan, c), SortBy(ById, r.contracts));
  }

  // Adding flexible contracts changes neither which rigid contracts are served nor
  // the status of the plan.
  lemma {:induction false} FlexibleNeverDisplacesRigid(r: Request, more: seq<ServiceContract>)
    requires forall c | c in more :: !c.Rigid()
    requires Allocate(r).Ok? && Allocate(Extended(r, more)).Ok?
    ensures ServedContracts(Allocate(Extended(r, more)).value, Extended(r, more)) ==
      ServedContracts(Allocate(r).value, r)
    ensures Allocate(Extended(r, more)).value.status == Allocate(r).value.status
  {
    hide Allocate, Prepared, ServedContracts, SearchFor, ItemsFor, Infeasible, SortBy, ServiceContract.Rigid, RigidUse,
         DeltasExist, SumBy, EntriesFor, Big, ServedOf, IdleEntries, EscalatedEntries, SomeRefused;
    var q := Extended(r, more);
    var sorted, assessed := Returned(r);
    var sorted', assessed' := Returned(q);
    SameRigid(r, more, sorted, assessed, sorted', assessed');
    SameSearch(r, more, assessed, assessed');
    if Infeasible(assessed, r) {
      InfeasibleServesNothing(r, sorted, ProofFor(assessed, r));
      InfeasibleServesNothing(q, sorted', ProofFor(assessed', q));
    } else {
      ServedContractsMeaning(r, sorted, assessed);
      ServedContractsMeaning(q, sorted', assessed');
    }
  }

  // --------------------------------------------------------------------------
  // Flexible service
  // --------------------------------------------------------------------------

  lemma {:induction false} PrecedesTransitive(a: ServiceContract, b: ServiceContract, c: ServiceContract,
                                              protectFirst: bool)
    requires AllocationPrecedes(a, b, protectFirst) && AllocationPrecedes(b, c, protectFirst)
    ensures AllocationPrecedes(a, c, protectFirst)
  {
    hide ClassRank;
  }

  lemma {:induction false} PrecedesTotal(a: ServiceContract, b: ServiceContract, protectFirst: bool)
    ensures !AllocationPrecedes(a, a, protectFirst)
    ensures a.id != b.id ==> AllocationPrecedes(a, b, protectFirst) || AllocationPrecedes(b, a, protectFirst)
  {
    hide ClassRank;
  }

  lemma {:induction false} FlexOrderTotal(s: seq<Assessment>, protectFirst: bool)
    requires DistinctBy(AssessmentId, s)
    ensures StrictTotal(FlexOrder(protectFirst), multiset(s))
  {
    hide AllocationPrecedes;
    var m, less := multiset(s), FlexOrder(protectFirst);
    forall x, y | x in m && y in m ensures !less(x, x) && (x != y ==> less(x, y) || less(y, x)) {
      var i :| 0 <= i < |s| && s[i] == x;
      var j :| 0 <= j < |s| && s[j] == y;
      assert x != y ==> AssessmentId(s[i]) != AssessmentId(s[j]);
      PrecedesTotal(x.contract, y.contract, protectFirst);
    }
    forall x, y, z | x in m && y in m && z in m && less(x, y) && less(y, z) ensures less(x, z) {
      PrecedesTransitive(x.contract, y.contract, z.contract, protectFirst);
    }
  }

  lemma {:induction false} ServeHead(h: Assessment, rest: seq<Assessment>, remaining: nat, p: Policy)
    ensures ServeFlexible([h] + rest, remaining, p) ==
      ServeFlexible(rest, SpareAfter(h, remaining, p), p)[AssessmentId(h) := FlexVerdict(h, remaining, p)]
  {
    hide FlexVerdict, SpareAfter;
    assert ([h] + rest)[1..] == rest;
  }

  lemma {:induction false} TailOf<T, U>(less: (T, T) -> bool, f: T -> U, list: seq<T>, g: T)
    requires Sorted(less, list) && DistinctBy(f, list) && g in list && g != list[0]
    ensures Sorted(less, list[1..]) && DistinctBy(f, list[1..]) && g in list[1..] && f(g) != f(list[0])
  {
    var rest := list[1..];
    assert forall i | 0 <= i < |rest| :: rest[i] == list[i + 1];
    var i :| 0 <= i < |list| && list[i] == g;
    assert rest[i - 1] == g;
    assert f(list[0]) != f(list[i]);
  }

  lemma {:induction false} TailWithin<T>(list: seq<T>, m: multiset<T>)
    requires list != [] && multiset(list) <= m
    ensures multiset(list[1..]) <= m
  {
    assert list == [list[0]] + list[1..];
  }

  // Serving a list with one more contract in it leaves earlier verdicts alone.
  lemma {:induction false} EarlierServed(less: (Assessment, Assessment) -> bool, m: multiset<Assessment>,
                                         list: seq<Assessment>, f: Assessment, remaining: nat, p: Policy, g: Assessment)
    requires StrictTotal(less, m) && Sorted(less, list) && multiset(list) <= m && f in m
    requires g in list && less(g, f) && DistinctBy(AssessmentId, list)
    ensures var id := AssessmentId(g);
      var longer := ServeFlexible(InsertSorted(less, f, list), remaining, p);
      id in longer && id in ServeFlexible(list, remaining, p) && longer[id] == ServeFlexible(list, remaining, p)[id]
    decreases |list|
  {
    hide FlexVerdict, SpareAfter, ServeFlexible, StrictTotal, Sorted, DistinctBy, AssessmentId;
    var h, rest := list[0], list[1..];
    HeadPrecedes(less, m, list, f, g);
    assert InsertSorted(less, f, list) == [h] + InsertSorted(less, f, rest);
    ServeHead(h, rest, remaining, p);
    ServeHead(h, InsertSorted(less, f, rest), remaining, p);
    assert list == [h] + rest;
    hide InsertSorted;
    if g != h {
      TailOf(less, AssessmentId, list, g);
      TailWithin(list, m);
      EarlierServed(less, m, rest, f, SpareAfter(h, remaining, p), p, g);
    }
  }

  lemma {:induction false} HeadPrecedes(less: (Assessment, Assessment) -> bool, m: multiset<Assessment>,
                                        list: seq<Assessment>, f: Assessment, g: Assessment)
    requires StrictTotal(less, m) && Sorted(less, list) && multiset(list) <= m && f in m && g in list && less(g, f)
    ensures less(list[0], f)
  {
    var i :| 0 <= i < |list| && list[i] == g;
    assert list[0] in multiset(list) && g in multiset(list);
    if i > 0 { assert !less(list[i], list[0]); }
  }

  lemma {:induction false} AssessedExtended(r: Request, f: ServiceContract, sorted: seq<ServiceContract>,
                                            assessed: seq<Assessment>, sorted': seq<ServiceContract>,
                                            assessed': seq<Assessment>)
    requires Prepared(r, sorted, assessed) && Prepared(Extended(r, [f]), sorted', assessed')
    ensures multiset(assessed') == multiset(assessed + [AssessOne(r)(f)])
  {
    hide AssessAll, ValidPolicy, IdsAscend, SortBy, AssessedFor, Assess;
    AssessedIsMapped(r, sorted, assessed);
    AssessedIsMapped(Extended(r, [f]), sorted', assessed');
    assert AssessOne(Extended(r, [f])) == AssessOne(r);
    assert multiset(sorted') == multiset(sorted + [f]);
    MappedPermutes(AssessOne(r), sorted', sorted + [f]);
    MappedPush(AssessOne(r), sorted, f);
  }

  // The flexible contracts of the extended request: one more, if it is admissible.
  lemma {:induction false} FlexibleExtended(r: Request, f: ServiceContract, sorted: seq<ServiceContract>,
                                            assessed: seq<Assessment>, sorted': seq<ServiceContract>,
                                            assessed': seq<Assessment>)
    requires Prepared(r, sorted, assessed) && Prepared(Extended(r, [f]), sorted', assessed')
    ensures var a := AssessOne(r)(f);
      multiset(Filter(IsFlexible, assessed')) ==
        multiset(Filter(IsFlexible, (if IsFlexible(a) then [a] else []) + assessed))
  {
    hide Prepared, AssessOne, IsFlexible;
    var a := AssessOne(r)(f);
    AssessedExtended(r, f, sorted, assessed, sorted', assessed');
    FilterPermutes(IsFlexible, assessed', assessed + [a]);
    FilterPush(IsFlexible, assessed, a);
    if IsFlexible(a) {
      assert ([a] + assessed)[1..] == assessed;
    } else {
      assert [] + assessed == assessed;
    }
  }

  lemma {:induction false} FlexListExtended(r: Request, f: ServiceContract, sorted: seq<ServiceContract>,
                                            assessed: seq<Assessment>, sorted': seq<ServiceContract>,
                                            assessed': seq<Assessment>)
    requires Prepared(r, sorted, assessed) && Prepared(Extended(r, [f]), sorted', assessed')
    ensures var a, order := AssessOne(r)(f), FlexOrder(r.policy.protectFirst);
      FlexList(assessed', Extended(r, [f])) ==
        if IsFlexible(a) then InsertSorted(order, a, FlexList(assessed, r)) else FlexList(assessed, r)
  {
    hide Prepared, IsFlexible, StrictTotal, DistinctBy;
    var a, order := AssessOne(r)(f), FlexOrder(r.policy.protectFirst);
    var some, some' := Filter(IsFlexible, assessed), Filter(IsFlexible, assessed');
    FlexibleExtended(r, f, sorted, assessed, sorted', assessed');
    AssessedDistinct(Extended(r, [f]), sorted', assessed');
    FilterIsSub(IsFlexible, assessed');
    DistinctBySub(AssessmentId, some', assessed');
    FlexOrderTotal(some', r.policy.protectFirst);
    if IsFlexible(a) {
      assert ([a] + assessed)[1..] == assessed;
      assert Filter(IsFlexible, [a] + assessed) == [a] + some;
      SortIgnoresOrder(order, some', [a] + some);
      assert ([a] + some)[1..] == some;
    } else {
      assert [] + assessed == assessed;
      SortIgnoresOrder(order, some', some);
    }
  }

  lemma {:induction false} InsertedIsTotal(r: Request, f: ServiceContract, sorted: seq<ServiceContract>,
                                           assessed: seq<Assessment>, sorted': seq<ServiceContract>,
                                           assessed': seq<Assessment>)
    requires Prepared(r, sorted, assessed) && Prepared(Extended(r, [f]), sorted', assessed')
    requires IsFlexible(AssessOne(r)(f))
    ensures var a, order, list := AssessOne(r)(f), FlexOrder(r.policy.protectFirst), FlexList(assessed, r);
      var m := multiset(InsertSorted(order, a, list));
      StrictTotal(order, m) && a in m && multiset(list) <= m && Sorted(order, list) && DistinctBy(AssessmentId, list)
  {
    hide Prepared, IsFlexible, StrictTotal, DistinctBy, Sorted;
    var a, order, list := AssessOne(r)(f), FlexOrder(r.policy.protectFirst), FlexList(assessed, r);
    var list' := FlexList(assessed', Extended(r, [f]));
    FlexListExtended(r, f, sorted, assessed, sorted', assessed');
    AssessedDistinct(Extended(r, [f]), sorted', assessed');
    AssessedDistinct(r, sorted, assessed);
    FilterIsSub(IsFlexible, assessed');
    FilterIsSub(IsFlexible, assessed);
    DistinctBySub(AssessmentId, list', assessed');
    DistinctBySub(AssessmentId, list, assessed);
    DistinctBySub(AssessmentId, Filter(IsFlexible, assessed), assessed);
    FlexOrderTotal(list', r.policy.protectFirst);
    FlexOrderTotal(Filter(IsFlexible, assessed), r.policy.protectFirst);
    SortBySorts(order, Filter(IsFlexible, assessed));
  }

  // A flexible contract ahead of the newcomer keeps its verdict.
  lemma {:induction false} EarlierVerdictKept(r: Request, f: ServiceContract, sorted: seq<ServiceContract>,
                                              assessed: seq<Assessment>, sorted': seq<ServiceContract>,
                                              assessed': seq<Assessment>, g: Assessment)
    requires Prepared(r, sorted, assessed) && Prepared(Extended(r, [f]), sorted', assessed') && !f.Rigid()
    requires g in assessed && IsFlexible(g) && AllocationPrecedes(g.contract, f, r.policy.protectFirst)
    ensures var id := AssessmentId(g);
      && id in FlexFor(assessed, r) && id in FlexFor(assessed', Extended(r, [f]))
      && FlexFor(assessed', Extended(r, [f]))[id] == FlexFor(assessed, r)[id]
  {
    hide Prepared, ServeFlexible, StrictTotal, DistinctBy, Sorted, SpareFor, AllocationPrecedes, SortBy, Assess,
         ServiceContract.Rigid;
    var q, a, order, list := Extended(r, [f]), AssessOne(r)(f), FlexOrder(r.policy.protectFirst), FlexList(assessed, r);
    SameRigid(r, [f], sorted, assessed, sorted', assessed');
    SameSearch(r, [f], assessed, assessed');
    FlexListExtended(r, f, sorted, assessed, sorted', assessed');
    FlexListElements(assessed, r);
    AssessOneAbout(r, f);
    if IsFlexible(a) {
      InsertedIsTotal(r, f, sorted, assessed, sorted', assessed');
      EarlierServed(order, multiset(InsertSorted(order, a, list)), list, a, SpareFor(assessed, r), r.policy, g);
    } else {
      FlexServed(list, SpareFor(assessed, r), r.policy);
    }
  }

  // The verdict of one contract, wherever it stands in the request.
  ghost function VerdictOn(c: ServiceContract, assessed: seq<Assessment>, r: Request): Verdict {
    VerdictFor(AssessOne(r)(c), ServedFor(assessed, r), SpareFor(assessed, r), FlexFor(assessed, r))
  }

  lemma {:induction false} EntriesAbout(r: Request, sorted: seq<ServiceContract>, assessed: seq<Assessment>,
                                        c: ServiceContract, e: Entry)
    requires Prepared(r, sorted, assessed) && c in sorted && e.contract == c.id
    ensures e in EntriesFor(assessed, r) <==> e == EntryFor(c, r.scope, VerdictOn(c, assessed, r))
  {
    hide AssessAll, ValidPolicy, SortBy, AssessedFor, VerdictFor, EntryFor, ServedFor, SpareFor, FlexFor, Assess;
    AssessedIsMapped(r, sorted, assessed);
    EntriesNamed(r, sorted, assessed);
    var entries := EntriesFor(assessed, r);
    forall i | 0 <= i < |sorted| ensures entries[i] == EntryFor(sorted[i], r.scope, VerdictOn(sorted[i], assessed, r)) {
      AssessOneAbout(r, sorted[i]);
      assert assessed[i] == AssessOne(r)(sorted[i]);
    }
    var k :| 0 <= k < |sorted| && sorted[k] == c;
    if e in entries {
      var i :| 0 <= i < |entries| && entries[i] == e;
      assert sorted[i].id == sorted[k].id;
    }
    assert entries[k] in entries;
  }

  lemma {:induction false} IdleEntriesAbout(sorted: seq<ServiceContract>, scope: u64, c: ServiceContract, e: Entry)
    requires c in sorted && DistinctBy(ReferenceSolver.IdOf, sorted) && e.contract == c.id
    ensures e in IdleEntries(sorted, scope) <==> Idle(c, scope) && e == IdleEntry(c, scope)
  {
    var k :| 0 <= k < |sorted| && sorted[k] == c;
    IdleEntriesFrom(sorted, scope, e);
    if e in IdleEntries(sorted, scope) {
      var i :| 0 <= i < |sorted| && Idle(sorted[i], scope) && e == IdleEntry(sorted[i], scope);
      assert ReferenceSolver.IdOf(sorted[i]) == ReferenceSolver.IdOf(sorted[k]);
    }
  }

  lemma {:induction false} IdleEntriesFrom(sorted: seq<ServiceContract>, scope: u64, e: Entry)
    ensures e in IdleEntries(sorted, scope) <==>
      exists i | 0 <= i < |sorted| :: Idle(sorted[i], scope) && e == IdleEntry(sorted[i], scope)
  {
    if sorted != [] {
      IdleEntriesFrom(sorted[1..], scope, e);
      assert sorted == [sorted[0]] + sorted[1..];
    }
  }

  lemma {:induction false} SortedDistinct(r: Request, sorted: seq<ServiceContract>, assessed: seq<Assessment>)
    requires Prepared(r, sorted, assessed)
    ensures DistinctBy(ReferenceSolver.IdOf, sorted)
    ensures forall c :: c in sorted <==> c in r.contracts
  {
    hide AssessAll, ValidPolicy, AssessedFor, SortBy;
    SameElements(sorted, r.contracts);
  }

  // Which entries about `c` a serving plan holds.
  lemma {:induction false} ServingEntriesAbout(r: Request, sorted: seq<ServiceContract>, assessed: seq<Assessment>,
                                               c: ServiceContract, e: Entry)
    requires Prepared(r, sorted, assessed) && c in r.contracts && e.contract == c.id
    ensures e in ServingPlan(sorted, assessed, r).entries <==>
      (Idle(c, r.scope) && e == IdleEntry(c, r.scope)) || e == EntryFor(c, r.scope, VerdictOn(c, assessed, r))
  {
    hide Prepared, IdleEntries, EntriesFor, SortBy, EntryFor, VerdictOn, SumBy, SearchFor, SomeRefused, Filter,
         DistinctBy, Idle;
    SortedDistinct(r, sorted, assessed);
    EntriesAbout(r, sorted, assessed, c, e);
    IdleEntriesAbout(sorted, r.scope, c, e);
    SameElements(ServingPlan(sorted, assessed, r).entries, IdleEntries(sorted, r.scope) + EntriesFor(assessed, r));
  }

  lemma {:induction false} EscalatedAbout(sorted: seq<ServiceContract>, scope: u64, c: ServiceContract, e: Entry)
    requires c in sorted && DistinctBy(ReferenceSolver.IdOf, sorted) && e.contract == c.id
    ensures e in EscalatedEntries(sorted, scope) <==> e == EscalatedEntry(c, scope)
  {
    var entries := EscalatedEntries(sorted, scope);
    var k :| 0 <= k < |sorted| && sorted[k] == c;
    assert entries[k] == EscalatedEntry(c, scope);
    if e in entries {
      var i :| 0 <= i < |entries| && entries[i] == e;
      assert ReferenceSolver.IdOf(sorted[i]) == ReferenceSolver.IdOf(sorted[k]);
    }
  }

  lemma {:induction false} InfeasibleEntriesAbout(r: Request, sorted: seq<ServiceContract>, proof: Certificate,
                                                  c: ServiceContract, e: Entry)
    requires c in sorted && DistinctBy(ReferenceSolver.IdOf, sorted) && e.contract == c.id
    ensures e in InfeasiblePlan(sorted, proof, r).entries <==>
      (Idle(c, r.scope) && e == IdleEntry(c, r.scope)) || e == EscalatedEntry(c, r.scope)
  {
    hide IdleEntries, EscalatedEntries, SortBy, DistinctBy, Idle;
    EscalatedAbout(sorted, r.scope, c, e);
    IdleEntriesAbout(sorted, r.scope, c, e);
    SameElements(InfeasiblePlan(sorted, proof, r).entries,
                 IdleEntries(sorted, r.scope) + EscalatedEntries(sorted, r.scope));
  }

  lemma {:induction false} VerdictKept(r: Request, f: ServiceContract, sorted: seq<ServiceContract>,
                                       assessed: seq<Assessment>, sorted': seq<ServiceContract>,
                                       assessed': seq<Assessment>, c: ServiceContract)
    requires Prepared(r, sorted, assessed) && Prepared(Extended(r, [f]), sorted', assessed') && !f.Rigid()
    requires c in r.contracts && (c.Rigid() || AllocationPrecedes(c, f, r.policy.protectFirst))
    ensures VerdictOn(c, assessed', Extended(r, [f])) == VerdictOn(c, assessed, r)
  {
    hide Prepared, ServeFlexible, SpareFor, ServedFor, FlexFor, AllocationPrecedes, Assess, ServiceContract.Rigid,
         RigidVerdict;
    var q, a := Extended(r, [f]), AssessOne(r)(c);
    SameRigid(r, [f], sorted, assessed, sorted', assessed');
    SameSearch(r, [f], assessed, assessed');
    AssessOneAbout(r, c);
    AssessOneIn(r, sorted, assessed, c);
    if IsFlexible(a) {
      EarlierVerdictKept(r, f, sorted, assessed, sorted', assessed', a);
    }
  }

  lemma {:induction false} AssessOneIn(r: Request, sorted: seq<ServiceContract>, assessed: seq<Assessment>,
                                       c: ServiceContract)
    requires Prepared(r, sorted, assessed) && c in r.contracts
    ensures AssessOne(r)(c) in assessed && (IsFlexible(AssessOne(r)(c)) ==> !c.Rigid())
  {
    hide AssessAll, ValidPolicy, SortBy, ServiceContract.Rigid;
    SameElements(sorted, r.contracts);
    AssessedIsMapped(r, sorted, assessed);
    var k :| 0 <= k < |sorted| && sorted[k] == c;
    assert AssessedAs(assessed[k], sorted[k], r);
    RigidFlag(assessed[k], sorted[k], r);
    assert assessed[k] == AssessOne(r)(c);
  }

  // Adding one flexible contract changes no entry of a rigid contract, nor of any
  // contract ahead of it in the allocation order.
  lemma {:induction false} EarlierEntriesKept(r: Request, f: ServiceContract, c: ServiceContract, e: Entry)
    requires !f.Rigid() && Allocate(r).Ok? && Allocate(Extended(r, [f])).Ok?
    requires c in r.contracts && (c.Rigid() || AllocationPrecedes(c, f, r.policy.protectFirst)) && e.contract == c.id
    ensures e in Allocate(Extended(r, [f])).value.entries <==> e in Allocate(r).value.entries
  {
    hide Allocate, Prepared, Infeasible, InfeasiblePlan, ServingPlan, RigidUse, DeltasExist, SumBy, EntriesFor, Big,
         ServiceContract.Rigid, AllocationPrecedes, VerdictOn, EntryFor, ProofFor, DistinctBy, SearchFor, Filter;
    var q := Extended(r, [f]);
    var sorted, assessed := Returned(r);
    var sorted', assessed' := Returned(q);
    SameRigid(r, [f], sorted, assessed, sorted', assessed');
    SameSearch(r, [f], assessed, assessed');
    SortedDistinct(r, sorted, assessed);
    SortedDistinct(q, sorted', assessed');
    if Infeasible(assessed, r) {
      InfeasibleEntriesAbout(r, sorted, ProofFor(assessed, r), c, e);
      InfeasibleEntriesAbout(q, sorted', ProofFor(assessed', q), c, e);
    } else {
      VerdictKept(r, f, sorted, assessed, sorted', assessed', c);
      ServingEntriesAbout(r, sorted, assessed, c, e);
      ServingEntriesAbout(q, sorted', assessed', c, e);
    }
  }
}
