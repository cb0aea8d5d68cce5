// Independent plan validation (src/engine/validator.cpp): what it means for a plan
// to be a lawful answer to a request, stated without reference to the allocator.
module Validator {
  import opened Core
  import opened Guarantees
  import opened Envelopes
  import opened Contracts
  import opened Assessments
  import opened Allocator
  import opened Sorting

  function FindContract(contracts: seq<ServiceContract>, id: u64): (r: Option<ServiceContract>)
    ensures r.Some? ==> r.value in contracts && r.value.id == id
    ensures r.None? ==> forall i | 0 <= i < |contracts| :: contracts[i].id != id
  {
    if contracts == [] then None
    else if contracts[0].id == id then Some(contracts[0])
    else FindContract(contracts[1..], id)
  }

  predicate RefusalLawful(e: Entry) {
    e.approved == [] && e.granted == 0 && !Authorising(e.outcome)
  }

  // An admitted entry weakens the original, stays inside the policy envelope,
  // accounts for every concession, and concedes nothing on a rigid contract.
  ghost predicate ServiceLawful(e: Entry, c: ServiceContract, p: Policy) {
    && Weakens(c.original, e.approved)
    && e.delta == DeltaOf(c.original, e.approved, ConcessionWithinEnvelope)
    && EffectiveEnvelope(p, c).Ok?
    && Permits(EffectiveEnvelope(p, c).value, c.original, e.approved)
    && (c.Rigid() ==> e.delta.Empty())
    && (e.full <==> e.delta.Empty())
    && e.granted <= c.Demand()
    && (e.granted != 0 ==> e.granted >= c.Floor())
  }

  ghost predicate EntryLawful(e: Entry, c: ServiceContract, p: Policy) {
    && e.contractGeneration == c.generation
    && e.scope == c.scope
    && (if e.admitted then ServiceLawful(e, c, p) else RefusalLawful(e))
  }

  predicate HeaderLawful(plan: Plan, r: Request) {
    && plan.scope == r.scope
    && plan.capacityGeneration == r.capability.generation
    && plan.available == r.capability.bandwidth
    && (plan.status.ProvenInfeasible? ==> plan.certificate.valid)
    && (plan.status.Optimal? ==> !plan.work.exhausted)
    && |plan.entries| == |r.contracts|
  }

  // The bandwidth held by the admitted entries among entries[..n].
  function AdmittedTotal(entries: seq<Entry>, n: nat): (t: nat)
    requires n <= |entries|
  {
    if n == 0 then 0
    else AdmittedTotal(entries, n - 1) + (if entries[n - 1].admitted then entries[n - 1].granted else 0)
  }

  ghost predicate EntriesLawful(entries: seq<Entry>, sorted: seq<ServiceContract>, p: Policy, n: nat)
    requires n <= |entries|
  {
    && (forall i | 1 <= i < n :: entries[i - 1].contract < entries[i].contract)
    && (forall i | 0 <= i < n ::
          && FindContract(sorted, entries[i].contract).Some?
          && EntryLawful(entries[i], FindContract(sorted, entries[i].contract).value, p))
  }

  ghost predicate Accepted(plan: Plan, r: Request) {
    && HeaderLawful(plan, r)
    && EntriesLawful(plan.entries, SortBy(ById, r.contracts), r.policy, |plan.entries|)
    && AdmittedTotal(plan.entries, |plan.entries|) <= plan.available
    && plan.granted == AdmittedTotal(plan.entries, |plan.entries|)
  }

  // The checks on one admitted entry; returns how many of them failed.
  method CheckService(e: Entry, c: ServiceContract, p: Policy) returns (violations: nat)
    ensures violations == 0 <==> ServiceLawful(e, c, p)
  {
    violations := 0;
    var relation := ClassifyWeakening(c.original, e.approved);
    if relation != WeakensOrEquals { violations := violations + 1; }
    var delta := ComputeDelta(c.original, e.approved, ConcessionWithinEnvelope);
    if delta.Err? || delta.value != e.delta { violations := violations + 1; }
    var envelope := EffectiveEnvelope(p, c);
    if envelope.Err? {
      violations := violations + 1;
    } else if relation == WeakensOrEquals {
      var permitted := CheckPermits(envelope.value, c.original, e.approved);
      if !permitted { violations := violations + 1; }
    }
    if c.Rigid() && !e.delta.Empty() { violations := violations + 1; }
    if e.full != e.delta.Empty() { violations := violations + 1; }
    if e.granted > c.Demand() { violations := violations + 1; }
    if e.granted != 0 && e.granted < c.Floor() { violations := violations + 1; }
  }

  method CheckEntry(e: Entry, c: ServiceContract, p: Policy) returns (violations: nat)
    ensures violations == 0 <==> EntryLawful(e, c, p)
  {
    violations := 0;
    if e.contractGeneration != c.generation { violations := violations + 1; }
    if e.scope != c.scope { violations := violations + 1; }
    if !e.admitted {
      if e.approved != [] { violations := violations + 1; }
      if e.granted != 0 { violations := violations + 1; }
      if Authorising(e.outcome) { violations := violations + 1; }
    } else {
      var more := CheckService(e, c, p);
      violations := violations + more;
    }
  }

  method CheckHeader(plan: Plan, r: Request) returns (violations: nat)
    ensures violations == 0 <==> HeaderLawful(plan, r)
  {
    violations := 0;
    if plan.scope != r.scope { violations := violations + 1; }
    if plan.capacityGeneration != r.capability.generation { violations := violations + 1; }
    if plan.available != r.capability.bandwidth { violations := violations + 1; }
    if plan.status.ProvenInfeasible? && !plan.certificate.valid { violations := violations + 1; }
    if plan.status.Optimal? && plan.work.exhausted { violations := violations + 1; }
    if |plan.entries| != |r.contracts| { violations := violations + 1; }
  }

  // The loop over entries: violations found, and the saturating bandwidth total.
  method CheckEntries(entries: seq<Entry>, sorted: seq<ServiceContract>, p: Policy)
    returns (violations: nat, total: nat)
    ensures violations == 0 ==> EntriesLawful(entries, sorted, p, |entries|)
    ensures violations == 0 ==> total == AdmittedTotal(entries, |entries|)
    ensures EntriesLawful(entries, sorted, p, |entries|) && AdmittedTotal(entries, |entries|) <= U64_MAX ==>
      violations == 0
  {
    hide EntryLawful, FindContract;
    violations, total := 0, 0;
    var previous: u64 := 0;
    for i := 0 to |entries|
      invariant total <= U64_MAX
      invariant i > 0 ==> previous == entries[i - 1].contract
      invariant violations == 0 <==>
        EntriesLawful(entries, sorted, p, i) && AdmittedTotal(entries, i) <= U64_MAX
      invariant violations == 0 ==> total == AdmittedTotal(entries, i)
    {
      var e := entries[i];
      if i > 0 && e.contract <= previous { violations := violations + 1; }
      previous := e.contract;
      var found := FindContract(sorted, e.contract);
      if found.None? {
        violations := violations + 1;
        continue;
      }
      var more := CheckEntry(e, found.value, p);
      violations := violations + more;
      if e.admitted {
        var sum := CheckedAdd(total, e.granted);
        if sum.None? {
          violations := violations + 1;
          total := U64_MAX;
        } else {
          total := sum.value;
        }
      }
    }
  }

  method ValidatePlan(plan: Plan, r: Request) returns (valid: bool, violations: nat)
    ensures valid <==> Accepted(plan, r)
    ensures valid <==> violations == 0
  {
    var header := CheckHeader(plan, r);
    var sorted := SortBy(ById, r.contracts);
    var entries, total := CheckEntries(plan.entries, sorted, r.policy);
    violations := header + entries;
    if total > plan.available { violations := violations + 1; }
    if plan.granted != total { violations := violations + 1; }
    valid := violations == 0;
  }
}
