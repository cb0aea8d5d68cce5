// allocate_scope in its own form (src/engine/allocator.cpp): the loops that assess,
// certify, search, serve and write the plan, proved to compute `Allocate`.
module ScopeAllocation {
  import opened Core
  import opened Guarantees
  import opened Envelopes
  import opened Contracts
  import opened Assessments
  import opened Allocator
  import opened Sorting
  import opened Sums
  import opened Subsets
  import opened PlanAcceptance
  import opened PlanReturned
  import opened AdmittedService
  import Selections
  import BB = BranchAndBound

  // --------------------------------------------------------------------------
  // Assessment
  // --------------------------------------------------------------------------

  method HasRepeats(sorted: seq<ServiceContract>) returns (repeats: bool)
    ensures repeats <==> Repeats(sorted)
  {
    var i := 1;
    while i < |sorted|
      invariant 1 <= i && forall j | 1 <= j < i && j < |sorted| :: sorted[j - 1].id != sorted[j].id
    {
      if sorted[i - 1].id == sorted[i].id { return true; }
      i := i + 1;
    }
    return false;
  }

  ghost function Joined<T>(first: Result<seq<T>>, second: Result<seq<T>>): Result<seq<T>> {
    if first.Err? then first else if second.Err? then second else Ok(first.value + second.value)
  }

  lemma {:induction false} JoinedCons<T>(x: T, rest: Result<seq<T>>, second: Result<seq<T>>)
    ensures Joined(Joined(Ok([x]), rest), second) == Joined(Ok([x]), Joined(rest, second))
  {
    if second.Ok? && rest.Ok? {
      assert [x] + (rest.value + second.value) == ([x] + rest.value) + second.value;
    }
  }

  lemma {:induction false} JoinedNothing<T>(second: Result<seq<T>>)
    ensures Joined(Ok([]), second) == second
  {
    if second.Ok? { assert [] + second.value == second.value; }
  }

  lemma {:induction false} AssessAllSplit(a: seq<ServiceContract>, b: seq<ServiceContract>, r: Request)
    ensures AssessAll(a + b, r.scope, r.capability, r.policy) ==
      Joined(AssessAll(a, r.scope, r.capability, r.policy), AssessAll(b, r.scope, r.capability, r.policy))
  {
    hide Assess, ContractFault, IdleAssessment, Idle;
    var second := AssessAll(b, r.scope, r.capability, r.policy);
    if a == [] {
      assert a + b == b;
      JoinedNothing(second);
    } else {
      AssessAllSplit(a[1..], b, r);
      assert (a + b)[1..] == a[1..] + b;
      var x := if Idle(a[0], r.scope) then IdleAssessment(a[0], r.scope) else Assess(a[0], r.capability, r.policy);
      JoinedCons(x, AssessAll(a[1..], r.scope, r.capability, r.policy), second);
    }
  }

  lemma {:induction false} AssessAllNext(sorted: seq<ServiceContract>, r: Request, i: nat)
    requires i < |sorted| && AssessAll(sorted[..i], r.scope, r.capability, r.policy).Ok?
    ensures var so, c := AssessAll(sorted[..i], r.scope, r.capability, r.policy).value, sorted[i];
      if Idle(c, r.scope) then AssessAll(sorted[..i + 1], r.scope, r.capability, r.policy) ==
        Ok(so + [IdleAssessment(c, r.scope)])
      else if ContractFault(c).Some? then AssessAll(sorted, r.scope, r.capability, r.policy) ==
        Err(ContractFault(c).value)
      else AssessAll(sorted[..i + 1], r.scope, r.capability, r.policy) == Ok(so + [Assess(c, r.capability, r.policy)])
  {
    hide Assess, ContractFault, IdleAssessment;
    var c := sorted[i];
    AssessAllSplit(sorted[..i], [c], r);
    assert sorted[..i + 1] == sorted[..i] + [c];
    assert [c][1..] == [];
    assert AssessAll([], r.scope, r.capability, r.policy) == Ok([]);
    var one := if Idle(c, r.scope) then IdleAssessment(c, r.scope) else Assess(c, r.capability, r.policy);
    assert [one] + [] == [one];
    AssessAllSplit(sorted[..i], sorted[i..], r);
    assert sorted == sorted[..i] + sorted[i..];
    assert sorted[i..][0] == c;
  }

  lemma {:induction false} IdleEntriesPush(s: seq<ServiceContract>, c: ServiceContract, scope: u64)
    ensures IdleEntries(s + [c], scope) ==
      IdleEntries(s, scope) + (if Idle(c, scope) then [IdleEntry(c, scope)] else [])
  {
    if s == [] {
      assert [c][1..] == [];
    } else {
      IdleEntriesPush(s[1..], c, scope);
      assert (s + [c])[1..] == s[1..] + [c];
    }
  }

  // Assesses every contract, stopping at the first invalid one.
  method AssessRequest(sorted: seq<ServiceContract>, r: Request)
    returns (all: Result<seq<Assessment>>, idle: seq<Entry>)
    requires ValidPolicy(r.policy)
    ensures all == AssessAll(sorted, r.scope, r.capability, r.policy)
    ensures all.Ok? ==> idle == IdleEntries(sorted, r.scope)
  {
    hide Assess, ContractFault, IdleAssessment, PolicyFault, AssessAll;
    var assessed: seq<Assessment> := [];
    idle := [];
    AssessNothing(r);
    for i := 0 to |sorted|
      invariant AssessAll(sorted[..i], r.scope, r.capability, r.policy) == Ok(assessed)
      invariant idle == IdleEntries(sorted[..i], r.scope)
    {
      var c := sorted[i];
      AssessAllNext(sorted, r, i);
      IdleEntriesPush(sorted[..i], c, r.scope);
      assert sorted[..i + 1] == sorted[..i] + [c];
      if Idle(c, r.scope) {
        idle := idle + [IdleEntry(c, r.scope)];
        assessed := assessed + [IdleAssessment(c, r.scope)];
        continue;
      }
      var fault := ContractFault(c);
      if fault.Some? { return Err(fault.value), idle; }
      var a := AssessContract(c, r.capability, r.policy);
      assessed := assessed + [a];
    }
    assert sorted[..|sorted|] == sorted;
    all := Ok(assessed);
  }

  lemma {:induction false} AssessNothing(r: Request)
    ensures AssessAll([], r.scope, r.capability, r.policy) == Ok([])
  {
  }

  method Partition(assessed: seq<Assessment>) returns (rigid: seq<Assessment>, flexible: seq<Assessment>)
    ensures rigid == Filter(IsRigid, assessed) && flexible == Filter(IsFlexible, assessed)
  {
    rigid, flexible := [], [];
    for i := 0 to |assessed|
      invariant rigid == Filter(IsRigid, assessed[..i]) && flexible == Filter(IsFlexible, assessed[..i])
    {
      var a := assessed[i];
      FilterPush(IsRigid, assessed[..i], a);
      FilterPush(IsFlexible, assessed[..i], a);
      assert assessed[..i + 1] == assessed[..i] + [a];
      if !a.admissible { continue; }
      if a.rigid { rigid := rigid + [a]; } else { flexible := flexible + [a]; }
    }
    assert assessed[..|assessed|] == assessed;
  }

  // --------------------------------------------------------------------------
  // Certificate
  // --------------------------------------------------------------------------

  method CheckMinimum(rigid: seq<Assessment>, required: u32, capacity: u64)
    returns (impossible: bool, certificate: Certificate)
    requires required > 0
    ensures impossible <==> Impossible(SortedDemands(rigid), required, capacity)
    ensures impossible ==> certificate == CertificateFor(SortedDemands(rigid), required, capacity)
  {
    hide DemandOf, SortBy;
    var demands: seq<nat> := [];
    for i := 0 to |rigid|
      invariant demands == seq(i, j requires 0 <= j < i && i <= |rigid| => DemandOf(rigid[j]))
    {
      demands := demands + [DemandOf(rigid[i])];
    }
    assert demands == seq(|rigid|, j requires 0 <= j < |rigid| => DemandOf(rigid[j]));
    demands := SortBy<nat>(Less, demands);
    assert demands == SortedDemands(rigid);
    impossible := |demands| < required;
    var minimum: nat := 0;
    if !impossible {
      for i := 0 to required
        invariant !impossible && DemandUpTo(demands, i) == (minimum, false)
      {
        var sum := CheckedAdd(minimum, demands[i]);
        if sum.None? {
          impossible := true;
          OverflowStays(demands, i + 1, required);
          break;
        }
        minimum := sum.value;
      }
      if !impossible && minimum > capacity { impossible := true; }
    }
    certificate := Certificate(required, |demands|, minimum, capacity, true);
  }

  lemma {:induction false} OverflowStays(demands: seq<nat>, n: nat, m: nat)
    requires n <= m <= |demands| && DemandUpTo(demands, n).1
    ensures DemandUpTo(demands, m) == DemandUpTo(demands, n)
    decreases m
  {
    if n < m { OverflowStays(demands, n, m - 1); }
  }

  method InfeasibleEntries(sorted: seq<ServiceContract>, idle: seq<Entry>, scope: u64) returns (entries: seq<Entry>)
    ensures entries == SortBy(EntryById, idle + EscalatedEntries(sorted, scope))
  {
    entries := idle;
    for i := 0 to |sorted|
      invariant entries == idle + EscalatedEntries(sorted[..i], scope)
    {
      assert EscalatedEntries(sorted[..i + 1], scope) ==
        EscalatedEntries(sorted[..i], scope) + [EscalatedEntry(sorted[i], scope)];
      entries := entries + [EscalatedEntry(sorted[i], scope)];
    }
    assert sorted[..|sorted|] == sorted;
    entries := SortBy(EntryById, entries);
  }

  // --------------------------------------------------------------------------
  // Items
  // --------------------------------------------------------------------------

  method PriorityScale(rigid: seq<Assessment>) returns (big: Option<nat>)
    ensures big == Big(rigid)
  {
    var total: nat := 0;
    for i := 0 to |rigid|
      invariant PriorityUpTo(rigid, i) == Some(total)
    {
      var sum := CheckedAdd(total, rigid[i].contract.priority);
      if sum.None? {
        NoSumStays(rigid, i + 1, |rigid|);
        return None;
      }
      total := sum.value;
    }
    big := CheckedAdd(total, 1);
  }

  lemma {:induction false} NoSumStays(rigid: seq<Assessment>, n: nat, m: nat)
    requires n <= m <= |rigid| && PriorityUpTo(rigid, n).None?
    ensures PriorityUpTo(rigid, m).None?
    decreases m
  {
    if n < m { NoSumStays(rigid, n, m - 1); }
  }

  method BuildItems(rigid: seq<Assessment>, big: nat) returns (items: Option<seq<BB.Item>>)
    ensures items.Some? <==> ValuesFit(rigid, big)
    ensures items.Some? ==> items.value == RigidItems(rigid, big)
  {
    hide DemandOf, SortBy;
    var raw: seq<BB.Item> := [];
    for i := 0 to |rigid|
      invariant raw == RawItems(rigid[..i], big) && ValuesFit(rigid[..i], big)
    {
      var value := CheckedAdd(big, rigid[i].contract.priority);
      if value.None? { return None; }
      raw := raw + [BB.Item(rigid[i].contract.id, DemandOf(rigid[i]), rigid[i].contract.priority, value.value)];
    }
    assert rigid[..|rigid|] == rigid;
    items := Some(SortBy(BB.DensityBefore, raw));
  }

  // --------------------------------------------------------------------------
  // Serving
  // --------------------------------------------------------------------------

  method Mark(assessed: seq<Assessment>, item: BB.Item, served: seq<bool>) returns (marked: seq<bool>)
    requires |served| == |assessed| && DistinctBy(AssessmentId, assessed)
    ensures |marked| == |assessed|
    ensures forall i | 0 <= i < |assessed| :: marked[i] <==> served[i] || AssessmentId(assessed[i]) == item.id
  {
    for i := 0 to |assessed|
      invariant forall j | 0 <= j < i :: AssessmentId(assessed[j]) != item.id
    {
      if assessed[i].contract.id == item.id {
        marked := served[i := true];
        forall j | 0 <= j < |assessed| && j != i ensures AssessmentId(assessed[j]) != item.id {
          assert AssessmentId(assessed[i]) != AssessmentId(assessed[j]);
        }
        return;
      }
    }
    marked := served;
  }

  // Marks the contracts of the selected items and takes their weight off the capacity.
  method MarkServed(assessed: seq<Assessment>, items: seq<BB.Item>, sel: seq<nat>, capacity: nat)
    returns (served: seq<bool>, remaining: nat)
    requires DistinctBy(AssessmentId, assessed) && Selections.Within(sel, 0, |items|)
    requires Selections.Sum(BB.Weights(items), sel) <= capacity
    ensures |served| == |assessed|
    ensures forall i | 0 <= i < |assessed| :: served[i] <==> AssessmentId(assessed[i]) in ServedIds(items, sel)
    ensures remaining == capacity - Selections.Sum(BB.Weights(items), sel)
  {
    hide AssessmentId, DistinctBy, Selections.Sum;
    served := seq(|assessed|, _ => false);
    remaining := capacity;
    NothingSelected(items);
    for k := 0 to |sel|
      invariant |served| == |assessed|
      invariant forall i | 0 <= i < |assessed| :: served[i] <==> AssessmentId(assessed[i]) in ServedIds(items, sel[..k])
      invariant remaining == capacity - Selections.Sum(BB.Weights(items), sel[..k])
    {
      var item := items[sel[k]];
      SelectedPush(items, sel, k);
      served := Mark(assessed, item, served);
      // The selection fits, so this subtraction cannot underflow.
      remaining := CheckedSub(remaining, item.weight).value;
    }
    assert sel[..|sel|] == sel;
  }

  lemma {:induction false} NothingSelected(items: seq<BB.Item>)
    ensures ServedIds(items, []) == {} && Selections.Sum(BB.Weights(items), []) == 0
  {
  }

  lemma {:induction false} SelectedPush(items: seq<BB.Item>, sel: seq<nat>, k: nat)
    requires Selections.Within(sel, 0, |items|) && k < |sel|
    ensures ServedIds(items, sel[..k + 1]) == ServedIds(items, sel[..k]) + {items[sel[k]].id}
    ensures Selections.Sum(BB.Weights(items), sel[..k + 1]) ==
      Selections.Sum(BB.Weights(items), sel[..k]) + items[sel[k]].weight
    ensures Selections.Sum(BB.Weights(items), sel[..k + 1]) <= Selections.Sum(BB.Weights(items), sel)
  {
    assert sel[..k + 1] == sel[..k] + [sel[k]];
    Selections.SumPush(BB.Weights(items), sel[..k], sel[k]);
    Selections.SumAppend(BB.Weights(items), sel[..k + 1], sel[k + 1..]);
    assert sel == sel[..k + 1] + sel[k + 1..];
    var before, after := ServedIds(items, sel[..k]), ServedIds(items, sel[..k + 1]);
    forall id | id in after ensures id in before + {items[sel[k]].id} {
      var i :| 0 <= i < |sel[..k + 1]| && sel[..k + 1][i] < |items| && items[sel[..k + 1][i]].id == id;
      if i < k { assert sel[..k][i] == sel[..k + 1][i]; }
    }
    forall id | id in before + {items[sel[k]].id} ensures id in after {
      if id in before {
        var i :| 0 <= i < |sel[..k]| && sel[..k][i] < |items| && items[sel[..k][i]].id == id;
        assert sel[..k + 1][i] == sel[..k][i];
      } else {
        assert sel[..k + 1][k] == sel[k];
      }
    }
  }

  // One flexible contract against what is left.
  method ServeOne(a: Assessment, remaining: nat, p: Policy) returns (v: Verdict)
    requires ValidContract(a.contract) && Canonical(a.approved)
    ensures v == FlexVerdict(a, remaining, p)
  {
    hide Permits, ContractFault, EffectiveEnvelope, Upsert, Find, ServiceContract.Floor, ServiceContract.Demand,
         Canonical;
    var granted: nat := 0;
    FloorBelowDemand(a.contract);
    OriginalCanonical(a.contract);
    if DemandOf(a) > 0 {
      granted := Min(DemandOf(a), remaining);
      if granted < a.contract.Floor() { return Refusal(RefusedService, ResourceExhausted); }
    }
    var approved := a.approved;
    if DemandOf(a) > 0 {
      // The offer never exceeds a valid demand, so the upsert cannot fail.
      UpsertStores(a.approved, Guarantee(Bandwidth, AtLeast, granted, true));
      approved := Upsert(approved, Guarantee(Bandwidth, AtLeast, granted, true)).value;
    }
    var envelope := EffectiveEnvelope(p, a.contract);
    if envelope.Err? { return Refusal(RefusedService, PolicyEnvelopeExceeded); }
    var permitted := CheckPermits(envelope.value, a.contract.original, approved);
    if !permitted { return Refusal(RefusedService, PolicyEnvelopeExceeded); }
    if approved == a.contract.original {
      v := Verdict(true, granted, approved, Full, OriginalObligationsSupportable);
    } else {
      v := Verdict(true, granted, approved, DegradedService, ConcessionWithinEnvelope);
    }
  }

  // First-fit in order, each grant taken off what remains.
  method ServeInOrder(flex: seq<Assessment>, spare: nat, p: Policy) returns (verdicts: map<nat, Verdict>)
    requires DistinctBy(AssessmentId, flex)
    requires forall a | a in flex :: ValidContract(a.contract) && Canonical(a.approved)
    ensures verdicts == ServeFlexible(flex, spare, p)
  {
    hide FlexVerdict, ContractFault, Canonical, DistinctBy, ServeFlexible;
    verdicts := map[];
    var remaining := spare;
    assert flex[0..] == flex;
    for i := 0 to |flex|
      invariant forall id | id in verdicts :: exists j | 0 <= j < i :: AssessmentId(flex[j]) == id
      invariant ServeFlexible(flex[i..], remaining, p) + verdicts == ServeFlexible(flex, spare, p)
    {
      var v := ServeOne(flex[i], remaining, p);
      FlexStepFits(flex[i], remaining, p);
      ServeNext(flex, i, remaining, p, verdicts);
      verdicts := verdicts[flex[i].contract.id as nat := v];
      if v.admitted { remaining := CheckedSub(remaining, v.granted).value; }
    }
    ServeRest(flex, remaining, p);
  }

  lemma {:induction false} ServeRest(flex: seq<Assessment>, remaining: nat, p: Policy)
    ensures ServeFlexible(flex[|flex|..], remaining, p) == map[]
  {
  }

  lemma {:induction false} ServeNext(flex: seq<Assessment>, i: nat, remaining: nat, p: Policy, verdicts: map<nat,
                                     Verdict>)
    requires i < |flex| && DistinctBy(AssessmentId, flex)
    requires forall id | id in verdicts :: exists j | 0 <= j < i :: AssessmentId(flex[j]) == id
    ensures var id, v := AssessmentId(flex[i]), FlexVerdict(flex[i], remaining, p);
      && ServeFlexible(flex[i..], remaining, p) + verdicts
         == ServeFlexible(flex[i + 1..], SpareAfter(flex[i], remaining, p), p) + verdicts[id := v]
      && (!v.admitted ==> SpareAfter(flex[i], remaining, p) == remaining)
  {
    hide FlexVerdict;
    FlexVerdictMeaning(flex[i], remaining, p);
    var id, v, rest := AssessmentId(flex[i]), FlexVerdict(flex[i], remaining, p),
      ServeFlexible(flex[i + 1..], SpareAfter(flex[i], remaining, p), p);
    assert flex[i..][1..] == flex[i + 1..] && flex[i..][0] == flex[i];
    assert ServeFlexible(flex[i..], remaining, p) == rest[id := v];
    assert id !in verdicts;
    assert rest[id := v] + verdicts == rest + verdicts[id := v];
  }

  // --------------------------------------------------------------------------
  // Writing the plan
  // --------------------------------------------------------------------------

  method DecideVerdict(a: Assessment, served: bool, spare: nat, flex: map<nat, Verdict>, ghost ids: set<nat>)
    returns (v: Verdict)
    requires served <==> AssessmentId(a) in ids
    ensures v == VerdictFor(a, ids, spare, flex)
  {
    hide DemandOf;
    if IsRigid(a) {
      if served {
        v := Verdict(true, DemandOf(a), a.approved, Full, OriginalObligationsSupportable);
      } else if DemandOf(a) > spare {
        v := Refusal(RefusedService, ResourceExhausted);
      } else {
        v := Refusal(RefusedService, ProtectedObligationUnmet);
      }
    } else if IsFlexible(a) && a.contract.id in flex {
      v := flex[a.contract.id];
    } else {
      v := Refusal(a.outcome, a.reason);
    }
  }

  // One entry, or the failure of its delta.
  method WriteEntry(c: ServiceContract, scope: u64, v: Verdict) returns (e: Result<Entry>)
    ensures e.Ok? <==> (v.admitted ==> Weakens(c.original, v.approved))
    ensures e == if e.Ok? then Ok(EntryFor(c, scope, v)) else Err(Invalid)
  {
    hide Weakens, DeltaOf;
    if !v.admitted {
      return Ok(Entry(c.id, c.generation, scope, false, false, [], NO_DELTA, 0, v.outcome, v.reason));
    }
    var delta := ComputeDelta(c.original, v.approved, ConcessionWithinEnvelope);
    if delta.Err? { return Err(delta.error); }
    var full := delta.value.Empty();
    var reason := v.reason;
    if full {
      reason := OriginalObligationsSupportable;
    } else if v.reason.OriginalObligationsSupportable? || v.reason.NoReason? {
      reason := FabricCapabilityShortfall;
    }
    e := Ok(Entry(c.id, c.generation, scope, true, full, v.approved, delta.value, v.granted,
                  if full then Full else DegradedService, reason));
  }

  // Verdict by verdict: the entries, their total and whether a rigid contract went unserved.
  method WriteEntries(assessed: seq<Assessment>, served: seq<bool>, spare: nat, flex: map<nat, Verdict>, r: Request)
    returns (entries: Result<seq<Entry>>, total: nat, shortfall: bool)
    requires |served| == |assessed| && spare == SpareFor(assessed, r) && flex == FlexFor(assessed, r)
    requires forall i | 0 <= i < |assessed| :: served[i] <==> AssessmentId(assessed[i]) in ServedFor(assessed, r)
    requires SumBy(GrantedOf, EntriesFor(assessed, r)) <= U64_MAX
    ensures entries.Ok? <==> DeltasExist(assessed, r)
    ensures entries.Err? ==> entries == Err(Invalid)
    ensures entries.Ok? ==> entries.value == EntriesFor(assessed, r)
    ensures entries.Ok? ==> total == SumBy(GrantedOf, EntriesFor(assessed, r))
    ensures entries.Ok? ==> (shortfall <==> SomeRefused(assessed, r))
  {
    hide ServedFor, SpareFor, FlexFor, Weakens, EntryFor, VerdictFor, SumBy, AssessmentId;
    ghost var wanted, verdicts := EntriesFor(assessed, r), Verdicts(assessed, r);
    var written: seq<Entry> := [];
    total, shortfall := 0, false;
    TotalOfNone(wanted);
    for i := 0 to |assessed|
      invariant written == wanted[..i] && total == SumBy(GrantedOf, wanted[..i])
      invariant forall j | 0 <= j < i && verdicts[j].admitted ::
        Weakens(assessed[j].contract.original, verdicts[j].approved)
      invariant shortfall <==> exists j | 0 <= j < i :: IsRigid(assessed[j]) && !verdicts[j].admitted
    {
      var v := DecideVerdict(assessed[i], served[i], spare, flex, ServedFor(assessed, r));
      assert v == verdicts[i];
      if IsRigid(assessed[i]) && !v.admitted { shortfall := true; }
      var e := WriteEntry(assessed[i].contract, r.scope, v);
      if e.Err? { return Err(e.error), total, shortfall; }
      assert e.value == wanted[i];
      TotalNext(wanted, i);
      // What is handed out never exceeds the capacity, so this addition cannot overflow.
      total := CheckedAdd(total, GrantedOf(e.value)).value;
      written := written + [e.value];
    }
    assert wanted[..|wanted|] == wanted;
    entries := Ok(written);
  }

  lemma {:induction false} TotalOfNone(entries: seq<Entry>)
    ensures SumBy(GrantedOf, entries[..0]) == 0
  {
  }

  lemma {:induction false} TotalNext(entries: seq<Entry>, i: nat)
    requires i < |entries|
    ensures SumBy(GrantedOf, entries[..i + 1]) == SumBy(GrantedOf, entries[..i]) + GrantedOf(entries[i])
    ensures SumBy(GrantedOf, entries[..i + 1]) <= SumBy(GrantedOf, entries)
  {
    assert entries[..i + 1] == entries[..i] + [entries[i]];
    SumAppend(GrantedOf, entries[..i], [entries[i]]);
    assert SumBy(GrantedOf, [entries[i]]) == GrantedOf(entries[i]);
    SumAppend(GrantedOf, entries[..i + 1], entries[i + 1..]);
    assert entries == entries[..i + 1] + entries[i + 1..];
  }

  lemma {:induction false} FlexReady(r: Request, sorted: seq<ServiceContract>, assessed: seq<Assessment>)
    requires Prepared(r, sorted, assessed)
    ensures DistinctBy(AssessmentId, FlexList(assessed, r))
    ensures forall a | a in FlexList(assessed, r) :: ValidContract(a.contract) && Canonical(a.approved)
  {
    hide Assess, AssessAll, ValidPolicy, ContractFault, Canonical, DistinctBy;
    AssessedDistinct(r, sorted, assessed);
    FilterIsSub(IsFlexible, assessed);
    DistinctBySub(AssessmentId, FlexList(assessed, r), assessed);
    FlexListElements(assessed, r);
    forall a | a in FlexList(assessed, r) ensures ValidContract(a.contract) && Canonical(a.approved) {
      var i :| 0 <= i < |assessed| && assessed[i] == a;
      assert AssessedAs(assessed[i], sorted[i], r);
      FlexibleIsOffered(a, sorted[i], r);
    }
  }

  // The rigid search and what it leaves, for a request whose items could be built.
  method RunSearch(assessed: seq<Assessment>, items: seq<BB.Item>, r: Request)
    returns (search: BB.SearchState, served: seq<bool>, remaining: nat)
    requires items == ItemsFor(assessed) && DistinctBy(AssessmentId, assessed)
    requires RigidUse(assessed, r) <= r.capability.bandwidth
    ensures search == SearchFor(assessed, r) && remaining == SpareFor(assessed, r)
    ensures |served| == |assessed|
    ensures forall i | 0 <= i < |assessed| :: served[i] <==> AssessmentId(assessed[i]) in ServedFor(assessed, r)
  {
    hide ItemsFor, BB.Run, ServedIds, Selections.Sum, DistinctBy, AssessmentId;
    BB.SearchIsHonest(items, r.capability.bandwidth, r.policy.searchNodeBudget);
    var s := new BB.RigidSearch(items, r.capability.bandwidth, r.policy.searchNodeBudget);
    s.RunFrom(0, r.capability.bandwidth, 0, 0, 0);
    search := s.State();
    served, remaining := MarkServed(assessed, items, search.bestSelection, r.capability.bandwidth);
  }

  // The plan of a request whose protected minimum is within reach.
  method ServeRequest(sorted: seq<ServiceContract>, assessed: seq<Assessment>, idle: seq<Entry>, rigid: seq<Assessment>,
                      flexible: seq<Assessment>, r: Request) returns (plan: Result<Plan>)
    requires Prepared(r, sorted, assessed) && idle == IdleEntries(sorted, r.scope) && !Infeasible(assessed, r)
    requires rigid == Filter(IsRigid, assessed) && flexible == Filter(IsFlexible, assessed)
    ensures plan == PlanFor(sorted, assessed, r)
  {
    hide Prepared, Infeasible, InfeasiblePlan, DeltasExist, RigidUse, EntriesFor, Big, ValuesFit, SumBy, Filter,
         SomeRefused, SearchFor, ServedFor, SpareFor, IdleEntries, SortBy, RigidItems, ServeFlexible, DistinctBy,
         FlexOrder, ContractFault, Canonical;
    var big := PriorityScale(rigid);
    if big.None? { return Err(Overflow); }
    var items := BuildItems(rigid, big.value);
    if items.None? { return Err(Overflow); }
    BandwidthConserved(r, sorted, assessed);
    AssessedDistinct(r, sorted, assessed);
    var search, served, remaining := RunSearch(assessed, items.value, r);
    FlexReady(r, sorted, assessed);
    var flex := ServeInOrder(SortBy(FlexOrder(r.policy.protectFirst), flexible), remaining, r.policy);
    var entries, total, shortfall := WriteEntries(assessed, served, remaining, flex, r);
    if entries.Err? { return Err(entries.error); }
    plan := Ok(Plan(r.scope, r.capability.generation,
      if search.exhausted && rigid != [] then SearchLimit else Optimal,
      SortBy(EntryById, idle + entries.value), r.capability.bandwidth, total,
      Work(search.nodes, search.pruned, r.policy.searchNodeBudget, search.exhausted), NO_CERTIFICATE, shortfall));
  }

  method PlanRequest(sorted: seq<ServiceContract>, assessed: seq<Assessment>, idle: seq<Entry>, r: Request)
    returns (plan: Result<Plan>)
    requires Prepared(r, sorted, assessed) && idle == IdleEntries(sorted, r.scope)
    ensures plan == PlanFor(sorted, assessed, r)
  {
    hide Prepared, ServingPlan, DeltasExist, RigidUse, EntriesFor, Big, ValuesFit, SumBy, Filter, IdleEntries, SortBy,
         SortedDemands, CertificateFor, EscalatedEntries;
    var rigid, flexible := Partition(assessed);
    var required := r.policy.minimumProtectedServed;
    if required > 0 {
      var impossible, certificate := CheckMinimum(rigid, required, r.capability.bandwidth);
      if impossible {
        var entries := InfeasibleEntries(sorted, idle, r.scope);
        return Ok(Plan(r.scope, r.capability.generation, ProvenInfeasible, entries, r.capability.bandwidth, 0,
                       Work(0, 0, r.policy.searchNodeBudget, false), certificate, true));
      }
    }
    plan := ServeRequest(sorted, assessed, idle, rigid, flexible, r);
  }

  // allocate_scope.
  method AllocateScope(r: Request) returns (plan: Result<Plan>)
    ensures plan == Allocate(r)
  {
    hide PolicyFault, SortBy, AssessAll, PlanFor, Prepared, IdleEntries, Repeats;
    if r.scope == 0 { return Err(InvalidArgument); }
    if r.capability.scope != r.scope { return Err(InvalidArgument); }
    var fault := PolicyFault(r.policy);
    if fault.Some? { return Err(fault.value); }
    var sorted := SortBy(ById, r.contracts);
    var repeats := HasRepeats(sorted);
    if repeats { return Err(AlreadyExists); }
    var assessed, idle := AssessRequest(sorted, r);
    if assessed.Err? { return Err(assessed.error); }
    Ready(r, sorted, assessed.value);
    plan := PlanRequest(sorted, assessed.value, idle, r);
  }

  lemma {:induction false} Ready(r: Request, sorted: seq<ServiceContract>, assessed: seq<Assessment>)
    requires RequestFault(r).None? && sorted == SortBy(ById, r.contracts)
    requires AssessAll(sorted, r.scope, r.capability, r.policy) == Ok(assessed)
    ensures Prepared(r, sorted, assessed)
  {
    hide PolicyFault, SortBy, AssessAll, Repeats, AssessedFor, IdsAscend;
    var s, a := Prepare(r);
  }
}
