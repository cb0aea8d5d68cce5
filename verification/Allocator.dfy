// Scope allocation (allocate_scope in src/engine/allocator.cpp).
//
// `Allocate` gives the plan as a function of the request. The rigid contracts are
// settled by the exact search; the flexible ones are then served first-fit against
// what is left, in allocation order.
module Allocator {
  import opened Core
  import opened Guarantees
  import opened Envelopes
  import opened Evidence
  import opened Contracts
  import opened Assessments
  import opened Sorting
  import opened Sums
  import Selections
  import BB = BranchAndBound

  datatype PlanStatus = Optimal | ProvenInfeasible | SearchLimit

  datatype Entry = Entry(
    contract: u64, contractGeneration: u64, scope: u64, admitted: bool, full: bool,
    approved: GuaranteeSet, delta: Delta, granted: nat, outcome: Outcome, reason: Reason)

  datatype Certificate = Certificate(required: nat, available: nat, minimumDemand: nat, offered: nat, valid: bool)

  datatype Work = Work(nodes: nat, pruned: nat, budget: nat, exhausted: bool)

  datatype Plan = Plan(
    scope: u64, capacityGeneration: u64, status: PlanStatus, entries: seq<Entry>,
    available: nat, granted: nat, work: Work, certificate: Certificate, protectedShortfall: bool)

  const NO_DELTA := Delta([], [])
  const NO_CERTIFICATE := Certificate(0, 0, 0, 0, false)

  datatype Request = Request(scope: u64, contracts: seq<ServiceContract>, capability: Capability, policy: Policy)

  // --------------------------------------------------------------------------
  // Orders
  // --------------------------------------------------------------------------

  predicate ById(a: ServiceContract, b: ServiceContract) {
    a.id < b.id
  }

  predicate EntryById(a: Entry, b: Entry) {
    a.contract < b.contract
  }

  // Which contract is served first; ties always fall back on identity.
  predicate AllocationPrecedes(a: ServiceContract, b: ServiceContract, protectFirst: bool) {
    if protectFirst then
      if ClassRank(a.serviceClass) != ClassRank(b.serviceClass)
      then ClassRank(a.serviceClass) < ClassRank(b.serviceClass)
      else if a.priority != b.priority then a.priority > b.priority
      else a.id < b.id
    else
      if a.priority != b.priority then a.priority > b.priority
      else if ClassRank(a.serviceClass) != ClassRank(b.serviceClass)
      then ClassRank(a.serviceClass) < ClassRank(b.serviceClass)
      else a.id < b.id
  }

  function FlexOrder(protectFirst: bool): (Assessment, Assessment) -> bool {
    (a: Assessment, b: Assessment) => AllocationPrecedes(a.contract, b.contract, protectFirst)
  }

  // --------------------------------------------------------------------------
  // Assessment of the whole request
  // --------------------------------------------------------------------------

  predicate Repeats(sorted: seq<ServiceContract>) {
    exists i | 1 <= i < |sorted| :: sorted[i - 1].id == sorted[i].id
  }

  predicate Idle(c: ServiceContract, scope: u64) {
    c.scope != scope || !c.active
  }

  function IdleReason(c: ServiceContract, scope: u64): Reason {
    if c.scope != scope then ScopeUnknown else NoReason
  }

  function IdleAssessment(c: ServiceContract, scope: u64): Assessment {
    Assessment(c, false, false, [], RefusedService, IdleReason(c, scope), false)
  }

  function IdleEntry(c: ServiceContract, scope: u64): Entry {
    Entry(c.id, c.generation, scope, false, false, [], NO_DELTA, 0, RefusedService, IdleReason(c, scope))
  }

  // Idle contracts get an entry before anything else happens.
  function IdleEntries(sorted: seq<ServiceContract>, scope: u64): seq<Entry> {
    if sorted == [] then []
    else (if Idle(sorted[0], scope) then [IdleEntry(sorted[0], scope)] else []) + IdleEntries(sorted[1..], scope)
  }

  ghost function AssessAll(sorted: seq<ServiceContract>, scope: u64, cap: Capability,
                           p: Policy): (r: Result<seq<Assessment>>)
    ensures r.Ok? ==> |r.value| == |sorted|
  {
    if sorted == [] then Ok([])
    else if !Idle(sorted[0], scope) && ContractFault(sorted[0]).Some? then Err(ContractFault(sorted[0]).value)
    else
      var a := if Idle(sorted[0], scope) then IdleAssessment(sorted[0], scope) else Assess(sorted[0], cap, p);
      match AssessAll(sorted[1..], scope, cap, p)
      case Err(e) => Err(e)
      case Ok(rest) => Ok([a] + rest)
  }

  predicate IsRigid(a: Assessment) {
    a.admissible && a.rigid
  }

  predicate IsFlexible(a: Assessment) {
    a.admissible && !a.rigid
  }

  function DemandOf(a: Assessment): nat {
    a.contract.Demand()
  }

  // --------------------------------------------------------------------------
  // Infeasibility certificate
  // --------------------------------------------------------------------------

  predicate Less(a: nat, b: nat) {
    a < b
  }

  function SortedDemands(rigid: seq<Assessment>): seq<nat> {
    SortBy<nat>(Less, seq(|rigid|, i requires 0 <= i < |rigid| => DemandOf(rigid[i])))
  }

  // The running minimum demand, and whether the addition overflowed on the way.
  function DemandUpTo(demands: seq<nat>, n: nat): (nat, bool)
    requires n <= |demands|
  {
    if n == 0 then (0, false)
    else
      var (sum, overflow) := DemandUpTo(demands, n - 1);
      if overflow then (sum, true)
      else match CheckedAdd(sum, demands[n - 1]) case Some(s) => (s, false) case None => (sum, true)
  }

  predicate Impossible(demands: seq<nat>, required: nat, capacity: nat) {
    required > 0 &&
    (|demands| < required ||
     var (sum, overflow) := DemandUpTo(demands, required);
     overflow || sum > capacity)
  }

  function CertificateFor(demands: seq<nat>, required: nat, capacity: nat): Certificate {
    Certificate(required, |demands|,
                if |demands| < required then 0 else DemandUpTo(demands, required).0,
                capacity, true)
  }

  function EscalatedEntry(c: ServiceContract, scope: u64): Entry {
    Entry(c.id, c.generation, scope, false, false, [], NO_DELTA, 0, EscalatedService, ResourceExhausted)
  }

  function EscalatedEntries(sorted: seq<ServiceContract>, scope: u64): seq<Entry> {
    seq(|sorted|, i requires 0 <= i < |sorted| => EscalatedEntry(sorted[i], scope))
  }

  // --------------------------------------------------------------------------
  // Rigid selection
  // --------------------------------------------------------------------------

  // The checked priority sum of rigid[..n].
  function PriorityUpTo(rigid: seq<Assessment>, n: nat): Option<nat>
    requires n <= |rigid|
  {
    if n == 0 then Some(0)
    else match PriorityUpTo(rigid, n - 1)
      case None => None
      case Some(sum) => CheckedAdd(sum, rigid[n - 1].contract.priority)
  }

  // The value scale: one more than the sum of all rigid priorities.
  function Big(rigid: seq<Assessment>): Option<nat> {
    match PriorityUpTo(rigid, |rigid|)
    case None => None
    case Some(sum) => CheckedAdd(sum, 1)
  }

  function ItemOf(a: Assessment, big: nat): BB.Item {
    BB.Item(a.contract.id, DemandOf(a), a.contract.priority, big + a.contract.priority)
  }

  function RawItems(rigid: seq<Assessment>, big: nat): (r: seq<BB.Item>) {
    seq(|rigid|, i requires 0 <= i < |rigid| => ItemOf(rigid[i], big))
  }

  function RigidItems(rigid: seq<Assessment>, big: nat): seq<BB.Item> {
    SortBy(BB.DensityBefore, RawItems(rigid, big))
  }

  predicate ValuesFit(rigid: seq<Assessment>, big: nat) {
    forall i | 0 <= i < |rigid| :: CheckedAdd(big, rigid[i].contract.priority).Some?
  }

  // The identities of the selected items.
  function ServedIds(items: seq<BB.Item>, sel: seq<nat>): set<nat> {
    set i | 0 <= i < |sel| && sel[i] < |items| :: items[sel[i]].id
  }

  // --------------------------------------------------------------------------
  // Verdicts
  // --------------------------------------------------------------------------

  datatype Verdict = Verdict(admitted: bool, granted: nat, approved: GuaranteeSet, outcome: Outcome, reason: Reason)

  function Refusal(o: Outcome, r: Reason): Verdict {
    Verdict(false, 0, [], o, r)
  }

  function RigidVerdict(a: Assessment, served: set<nat>, spare: nat): Verdict {
    if a.contract.id in served
    then Verdict(true, DemandOf(a), a.approved, Full, OriginalObligationsSupportable)
    else Refusal(RefusedService, if DemandOf(a) > spare then ResourceExhausted else ProtectedObligationUnmet)
  }

  // The bandwidth a flexible contract would get out of what remains.
  function Offer(a: Assessment, remaining: nat): nat {
    if DemandOf(a) > 0 then Min(DemandOf(a), remaining) else 0
  }

  function OfferedSet(a: Assessment, remaining: nat): Result<GuaranteeSet> {
    if DemandOf(a) > 0 && Offer(a, remaining) <= U64_MAX
    then Upsert(a.approved, Guarantee(Bandwidth, AtLeast, Offer(a, remaining), true))
    else Ok(a.approved)
  }

  ghost function FlexVerdict(a: Assessment, remaining: nat, p: Policy): Verdict {
    if DemandOf(a) > 0 && Offer(a, remaining) < a.contract.Floor() then Refusal(RefusedService, ResourceExhausted)
    else
      match (OfferedSet(a, remaining), EffectiveEnvelope(p, a.contract))
      case (Ok(approved), Ok(limits)) =>
        if Permits(limits, a.contract.original, approved) then
          if approved == a.contract.original
          then Verdict(true, Offer(a, remaining), approved, Full, OriginalObligationsSupportable)
          else Verdict(true, Offer(a, remaining), approved, DegradedService, ConcessionWithinEnvelope)
        else Refusal(RefusedService, PolicyEnvelopeExceeded)
      case _ => Refusal(RefusedService, PolicyEnvelopeExceeded)
  }

  ghost function SpareAfter(a: Assessment, remaining: nat, p: Policy): (r: nat)
    ensures r <= remaining
  {
    remaining - Min(FlexVerdict(a, remaining, p).granted, remaining)
  }

  // First-fit over the flexible contracts in order.
  ghost function ServeFlexible(flex: seq<Assessment>, remaining: nat, p: Policy): map<nat, Verdict> {
    if flex == [] then map[]
    else ServeFlexible(flex[1..], SpareAfter(flex[0], remaining, p), p)
           [flex[0].contract.id as nat := FlexVerdict(flex[0], remaining, p)]
  }

  ghost function VerdictFor(a: Assessment, served: set<nat>, spare: nat, flex: map<nat, Verdict>): Verdict {
    if IsRigid(a) then RigidVerdict(a, served, spare)
    else if IsFlexible(a) && a.contract.id in flex then flex[a.contract.id]
    else Refusal(a.outcome, a.reason)
  }

  function EntryReason(full: bool, r: Reason): Reason {
    if full then OriginalObligationsSupportable
    else if r.OriginalObligationsSupportable? || r.NoReason? then FabricCapabilityShortfall
    else r
  }

  function EntryFor(c: ServiceContract, scope: u64, v: Verdict): Entry {
    if v.admitted then
      var delta := DeltaOf(c.original, v.approved, ConcessionWithinEnvelope);
      Entry(c.id, c.generation, scope, true, delta.Empty(), v.approved, delta, v.granted,
            if delta.Empty() then Full else DegradedService, EntryReason(delta.Empty(), v.reason))
    else Entry(c.id, c.generation, scope, false, false, [], NO_DELTA, 0, v.outcome, v.reason)
  }

  // --------------------------------------------------------------------------
  // The plan
  // --------------------------------------------------------------------------

  // Everything the plan depends on once the request has been assessed.
  ghost function ItemsFor(assessed: seq<Assessment>): seq<BB.Item> {
    var rigid := Filter(IsRigid, assessed);
    RigidItems(rigid, Saturating(Big(rigid)))
  }

  ghost function SearchFor(assessed: seq<Assessment>, r: Request): BB.SearchState {
    BB.Search(ItemsFor(assessed), r.capability.bandwidth, r.policy.searchNodeBudget)
  }

  ghost function ServedFor(assessed: seq<Assessment>, r: Request): set<nat> {
    ServedIds(ItemsFor(assessed), SearchFor(assessed, r).bestSelection)
  }

  ghost function RigidUse(assessed: seq<Assessment>, r: Request): nat {
    Selections.Sum(BB.Weights(ItemsFor(assessed)), SearchFor(assessed, r).bestSelection)
  }

  ghost function SpareFor(assessed: seq<Assessment>, r: Request): nat {
    r.capability.bandwidth - Min(RigidUse(assessed, r), r.capability.bandwidth)
  }

  ghost function FlexFor(assessed: seq<Assessment>, r: Request): map<nat, Verdict> {
    ServeFlexible(SortBy(FlexOrder(r.policy.protectFirst), Filter(IsFlexible, assessed)), SpareFor(assessed, r),
      r.policy)
  }

  ghost function Verdicts(assessed: seq<Assessment>, r: Request): (v: seq<Verdict>)
    ensures |v| == |assessed|
  {
    var served, spare, flex := ServedFor(assessed, r), SpareFor(assessed, r), FlexFor(assessed, r);
    seq(|assessed|, i requires 0 <= i < |assessed| => VerdictFor(assessed[i], served, spare, flex))
  }

  ghost function EntriesFor(assessed: seq<Assessment>, r: Request): (e: seq<Entry>)
    ensures |e| == |assessed|
  {
    var v := Verdicts(assessed, r);
    seq(|assessed|, i requires 0 <= i < |assessed| => EntryFor(assessed[i].contract, r.scope, v[i]))
  }

  function GrantedOf(e: Entry): nat {
    e.granted
  }

  ghost predicate DeltasExist(assessed: seq<Assessment>, r: Request) {
    forall i | 0 <= i < |assessed| && Verdicts(assessed, r)[i].admitted ::
      Weakens(assessed[i].contract.original, Verdicts(assessed, r)[i].approved)
  }

  ghost predicate SomeRefused(assessed: seq<Assessment>, r: Request) {
    exists i | 0 <= i < |assessed| :: IsRigid(assessed[i]) && !Verdicts(assessed, r)[i].admitted
  }

  ghost function ProofFor(assessed: seq<Assessment>, r: Request): (c: Certificate)
    ensures c.valid
  {
    CertificateFor(SortedDemands(Filter(IsRigid, assessed)), r.policy.minimumProtectedServed, r.capability.bandwidth)
  }

  function InfeasiblePlan(sorted: seq<ServiceContract>, proof: Certificate, r: Request): Plan {
    var entries := IdleEntries(sorted, r.scope) + EscalatedEntries(sorted, r.scope);
    Plan(r.scope, r.capability.generation, ProvenInfeasible, SortBy(EntryById, entries),
         r.capability.bandwidth, 0, Work(0, 0, r.policy.searchNodeBudget, false), proof, true)
  }

  ghost function ServingPlan(sorted: seq<ServiceContract>, assessed: seq<Assessment>, r: Request): Plan {
    var search := SearchFor(assessed, r);
    Plan(r.scope, r.capability.generation,
         if search.exhausted && Filter(IsRigid, assessed) != [] then SearchLimit else Optimal,
         SortBy(EntryById, IdleEntries(sorted, r.scope) + EntriesFor(assessed, r)),
         r.capability.bandwidth, SumBy(GrantedOf, EntriesFor(assessed, r)),
         Work(search.nodes, search.pruned, r.policy.searchNodeBudget, search.exhausted),
         NO_CERTIFICATE, SomeRefused(assessed, r))
  }

  // The checks made on the whole request before anything is assessed.
  function RequestFault(r: Request): Option<ErrorCode> {
    if r.scope == 0 || r.capability.scope != r.scope then Some(InvalidArgument)
    else if PolicyFault(r.policy).Some? then PolicyFault(r.policy)
    else if Repeats(SortBy(ById, r.contracts)) then Some(AlreadyExists)
    else None
  }

  ghost predicate Infeasible(assessed: seq<Assessment>, r: Request) {
    Impossible(SortedDemands(Filter(IsRigid, assessed)), r.policy.minimumProtectedServed, r.capability.bandwidth)
  }

  // The answer once every contract has been assessed, with the internal exits in
  // the order they are reached.
  ghost function PlanFor(sorted: seq<ServiceContract>, assessed: seq<Assessment>, r: Request): Result<Plan> {
    var rigid := Filter(IsRigid, assessed);
    if Infeasible(assessed, r) then Ok(InfeasiblePlan(sorted, ProofFor(assessed, r), r))
    else if Big(rigid).None? || !ValuesFit(rigid, Big(rigid).value) then Err(Overflow)
    else if RigidUse(assessed, r) > r.capability.bandwidth then Err(Underflow)
    else if !DeltasExist(assessed, r) then Err(Invalid)
    else if SumBy(GrantedOf, EntriesFor(assessed, r)) > r.capability.bandwidth then Err(Overflow)
    else Ok(ServingPlan(sorted, assessed, r))
  }

  ghost function Allocate(r: Request): Result<Plan> {
    if RequestFault(r).Some? then Err(RequestFault(r).value)
    else
      var sorted := SortBy(ById, r.contracts);
      match AssessAll(sorted, r.scope, r.capability, r.policy)
      case Err(e) => Err(e)
      case Ok(assessed) => PlanFor(sorted, assessed, r)
  }
}
