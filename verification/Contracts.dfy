// Service contracts and degradation policy (src/domain/contract.cpp,
// src/domain/policy.cpp).
module Contracts {
  import opened Core
  import opened Guarantees
  import opened Envelopes
  import opened Evidence

  datatype ServiceClass = Protected | Standard | BestEffort | Scavenger

  const MAX_SERVICE_PRIORITY: nat := 1_000_000
  const MAX_COLLECTION_ITEMS: nat := 0x10_0000

  function ClassRank(c: ServiceClass): nat {
    match c
    case Protected => 0
    case Standard => 1
    case BestEffort => 2
    case Scavenger => 3
  }

  datatype ServiceContract = ServiceContract(
    id: u64, generation: u64, scope: u64, subject: u64, subjectGeneration: u64,
    serviceClass: ServiceClass, nonDegradable: bool, priority: u32,
    original: GuaranteeSet, envelope: Envelope, registeredTick: u64, active: bool)
  {
    predicate ProtectedObligation() { nonDegradable || serviceClass.Protected? }

    predicate Frozen() { envelope.maxConcessions == 0 }

    // A rigid contract is served at its full original obligations or not at all.
    predicate Rigid() { ProtectedObligation() || Frozen() }

    function Demand(): u64 {
      match Find(original, Bandwidth)
      case Some(g) => g.value
      case None => 0
    }

    // The lowest bandwidth the contract may be served at.
    function Floor(): u64 {
      match Find(original, Bandwidth)
      case Some(g) => FloorFor(envelope, Bandwidth, g.value)
      case None => 0
    }
  }

  // validate_envelope_against: bounds name carried kinds and never strengthen them.
  predicate EnvelopeFits(e: Envelope, original: GuaranteeSet) {
    && CanonicalBounds(e.bounds)
    && Canonical(original)
    && (forall i | 0 <= i < |e.bounds| ::
          var base := Find(original, e.bounds[i].kind);
          && base.Some?
          && (if base.value.comparator.AtLeast?
              then e.bounds[i].weakest <= base.value.value
              else e.bounds[i].weakest >= base.value.value))
    && e.maxConcessions <= |original|
  }

  // The first failing check of ServiceContract::validate, if any.
  function ContractFault(c: ServiceContract): Option<ErrorCode> {
    if c.id == 0 || c.generation == 0 || c.scope == 0 || c.subject == 0 || c.subjectGeneration == 0
    then Some(InvalidArgument)
    else if c.priority > MAX_SERVICE_PRIORITY then Some(InvalidArgument)
    else if c.original == [] then Some(InvalidArgument)
    else if !Canonical(c.original) then Some(Invalid)
    else if !EnvelopeFits(c.envelope, c.original) then Some(Invalid)
    else if c.ProtectedObligation() && !c.Frozen() then Some(Invalid)
    else None
  }

  predicate ValidContract(c: ServiceContract) {
    ContractFault(c).None?
  }

  // A contract is valid exactly when it is identified, its priority is in range, it asks for
  // something, at most once of each kind, its bounds are on what it asks for and on the
  // weaker side of it, and nothing may be conceded of what is protected.
  lemma {:induction false} ValidContractIff(c: ServiceContract)
    ensures ValidContract(c) <==>
      && c.id > 0 && c.generation > 0 && c.scope > 0 && c.subject > 0 && c.subjectGeneration > 0
      && c.priority <= 1_000_000 && |c.original| > 0 && Canonical(c.original) && CanonicalBounds(c.envelope.bounds)
      && BoundsWeaken(c.envelope.bounds, c.original) && c.envelope.maxConcessions <= |c.original|
      && (c.nonDegradable || c.serviceClass == Protected ==> c.envelope.maxConcessions == 0)
  {
    hide Canonical, CanonicalBounds, BoundsWeaken;
    if CanonicalBounds(c.envelope.bounds) && Canonical(c.original) { FitsByKind(c.envelope, c.original); }
  }

  predicate WeakerSide(g: Guarantee, bound: u64) {
    (g.comparator.AtLeast? && bound <= g.value) || (g.comparator.AtMost? && bound >= g.value)
  }

  // Every bound is on a kind that is asked for, and on its weaker side.
  ghost predicate BoundsWeaken(bs: seq<Bound>, original: GuaranteeSet) {
    forall k | FindBound(bs, k).Some? ::
      Find(original, k).Some? && WeakerSide(Find(original, k).value, FindBound(bs, k).value)
  }

  lemma {:induction false} FitsByKind(e: Envelope, original: GuaranteeSet)
    requires CanonicalBounds(e.bounds) && Canonical(original)
    ensures EnvelopeFits(e, original) <==> e.maxConcessions <= |original| && BoundsWeaken(e.bounds, original)
  {
    hide Canonical, CanonicalBounds, Find, FindBound;
    var bs := e.bounds;
    if EnvelopeFits(e, original) {
      forall k | FindBound(bs, k).Some?
        ensures Find(original, k).Some? && WeakerSide(Find(original, k).value, FindBound(bs, k).value) {
        var i :| 0 <= i < |bs| && bs[i] == Bound(k, FindBound(bs, k).value);
      }
      assert BoundsWeaken(bs, original);
    }
    if BoundsWeaken(bs, original) {
      forall i | 0 <= i < |bs|
        ensures Find(original, bs[i].kind).Some? && WeakerSide(Find(original, bs[i].kind).value, bs[i].weakest) {
        FindBoundAt(bs, i);
      }
    }
  }

  lemma {:induction false} FloorBelowDemand(c: ServiceContract)
    requires ValidContract(c)
    ensures c.Floor() <= c.Demand() <= MAX_BANDWIDTH_KBPS
  {
    if FindBound(c.envelope.bounds, Bandwidth).Some? {
      var w := FindBound(c.envelope.bounds, Bandwidth).value;
      var i :| 0 <= i < |c.envelope.bounds| && c.envelope.bounds[i] == Bound(Bandwidth, w);
    }
  }

  // --------------------------------------------------------------------------
  // Policy
  // --------------------------------------------------------------------------

  datatype DegradeAction = Protect | Degrade | Refuse | Escalate

  datatype PolicyRule = PolicyRule(
    id: u64, precedence: u32, serviceClass: Option<ServiceClass>, scope: Option<u64>,
    trigger: Option<Kind>, action: DegradeAction)
  {
    predicate Matches(c: ServiceClass, s: u64, k: Kind) {
      && (serviceClass.Some? ==> serviceClass.value == c)
      && (scope.Some? ==> scope.value == s)
      && (trigger.Some? ==> trigger.value == k)
    }
  }

  datatype ClassProfile = ClassProfile(serviceClass: ServiceClass, ceiling: Envelope, mayBeDegraded: bool)

  datatype Policy = Policy(
    id: u64, generation: u64, rules: seq<PolicyRule>, profiles: seq<ClassProfile>,
    onUnknown: DegradeAction, onStale: DegradeAction, onConflict: DegradeAction,
    onInvalid: DegradeAction, onUnsupported: DegradeAction,
    protectFirst: bool, defaultTtl: u64, minimumTtl: u64, maxConcessionsPerContract: u32,
    minimumDwell: u32, minimumProtectedServed: u32, searchNodeBudget: u64, evidenceFreshness: u64)
  {
    predicate Installed() { id != 0 && generation != 0 }
  }

  function RuleFault(r: PolicyRule): Option<ErrorCode> {
    if r.id == 0 then Some(InvalidArgument)
    else if r.scope == Some(0) then Some(Invalid)
    else None
  }

  // The rule loop of Policy::validate from position i on.
  function RulesFault(rules: seq<PolicyRule>, i: nat): Option<ErrorCode>
    decreases |rules| - i
  {
    if i >= |rules| then None
    else if RuleFault(rules[i]).Some? then RuleFault(rules[i])
    else if i > 0 && rules[i].precedence == rules[i - 1].precedence then Some(AlreadyExists)
    else RulesFault(rules, i + 1)
  }

  predicate UniquePrecedences(rules: seq<PolicyRule>) {
    forall i, j | 0 <= i < j < |rules| :: rules[i].precedence != rules[j].precedence
  }

  predicate ValidProfile(p: ClassProfile) {
    !(p.serviceClass.Protected? && p.mayBeDegraded) && CanonicalBounds(p.ceiling.bounds)
  }

  predicate UniqueClasses(profiles: seq<ClassProfile>) {
    forall i, j | 0 <= i < j < |profiles| :: profiles[i].serviceClass != profiles[j].serviceClass
  }

  // The first failing check of Policy::validate, if any.
  function PolicyFault(p: Policy): Option<ErrorCode> {
    if !p.Installed() then Some(InvalidArgument)
    else if |p.rules| > MAX_COLLECTION_ITEMS then Some(CapacityExceeded)
    else if RulesFault(p.rules, 0).Some? then RulesFault(p.rules, 0)
    else if !UniquePrecedences(p.rules) then Some(AlreadyExists)
    else if exists i | 0 <= i < |p.profiles| :: !ValidProfile(p.profiles[i]) then Some(Invalid)
    else if !UniqueClasses(p.profiles) then Some(AlreadyExists)
    else if p.defaultTtl == 0 || p.minimumTtl == 0 || p.minimumTtl > p.defaultTtl then Some(Invalid)
    else if p.maxConcessionsPerContract > MAX_COLLECTION_ITEMS then Some(OutOfRange)
    else if p.minimumProtectedServed > MAX_COLLECTION_ITEMS then Some(OutOfRange)
    else if p.searchNodeBudget == 0 || p.searchNodeBudget > 100_000_000 then Some(OutOfRange)
    else if p.evidenceFreshness == 0 then Some(Invalid)
    else None
  }

  predicate ValidPolicy(p: Policy) {
    PolicyFault(p).None?
  }

  lemma {:induction false} RulesAreValidIff(rules: seq<PolicyRule>, i: nat)
    ensures RulesFault(rules, i).None? <==> forall j | i <= j < |rules| ::
      && rules[j].id > 0 && rules[j].scope != Some(0)
      && (j > 0 ==> rules[j].precedence != rules[j - 1].precedence)
    decreases |rules| - i
  {
    if i < |rules| { RulesAreValidIff(rules, i + 1); }
  }

  // A policy is valid exactly when it is identified, no two rules share a precedence and no
  // two profiles a class, the protected class may not be degraded, and its settings are in
  // range.
  lemma {:induction false} ValidPolicyIff(p: Policy)
    ensures ValidPolicy(p) <==>
      && p.id > 0 && p.generation > 0 && |p.rules| <= 0x10_0000
      && (forall i | 0 <= i < |p.rules| :: p.rules[i].id > 0 && p.rules[i].scope != Some(0))
      && (forall i, j | 0 <= i < j < |p.rules| :: p.rules[i].precedence != p.rules[j].precedence)
      && (forall i | 0 <= i < |p.profiles| :: CanonicalBounds(p.profiles[i].ceiling.bounds))
      && (forall i | 0 <= i < |p.profiles| && p.profiles[i].mayBeDegraded :: p.profiles[i].serviceClass != Protected)
      && (forall i, j | 0 <= i < j < |p.profiles| :: p.profiles[i].serviceClass != p.profiles[j].serviceClass)
      && 0 < p.minimumTtl <= p.defaultTtl && 0 < p.evidenceFreshness && 0 < p.searchNodeBudget <= 100_000_000
      && p.maxConcessionsPerContract <= 0x10_0000 && p.minimumProtectedServed <= 0x10_0000
  {
    hide RulesFault, CanonicalBounds;
    RulesAreValidIff(p.rules, 0);
  }

  function EvidenceAction(p: Policy, s: EvidenceState): DegradeAction {
    match s
    case Known => Protect
    case Unknown => p.onUnknown
    case Stale => p.onStale
    case Conflict => p.onConflict
    case InvalidEvidence => p.onInvalid
    case UnsupportedEvidence => p.onUnsupported
  }

  // The selection loop over rules[..n].
  function SelectUpTo(rules: seq<PolicyRule>, c: ServiceClass, s: u64, k: Kind, n: nat): Option<PolicyRule>
    requires n <= |rules|
  {
    if n == 0 then None
    else
      var best := SelectUpTo(rules, c, s, k, n - 1);
      var rule := rules[n - 1];
      if rule.Matches(c, s, k) && (best.None? || rule.precedence < best.value.precedence)
      then Some(rule) else best
  }

  function SelectRule(rules: seq<PolicyRule>, c: ServiceClass, s: u64, k: Kind): Option<PolicyRule> {
    SelectUpTo(rules, c, s, k, |rules|)
  }

  lemma {:induction false} SelectMeaning(rules: seq<PolicyRule>, c: ServiceClass, s: u64, k: Kind, n: nat)
    requires n <= |rules|
    ensures var r := SelectUpTo(rules, c, s, k, n);
      && (r.None? <==> forall i | 0 <= i < n :: !rules[i].Matches(c, s, k))
      && (r.Some? ==> r.value in rules[..n] && r.value.Matches(c, s, k))
      && (r.Some? ==> forall i | 0 <= i < n && rules[i].Matches(c, s, k) :: r.value.precedence <= rules[i].precedence)
  {
    if n > 0 {
      SelectMeaning(rules, c, s, k, n - 1);
      assert rules[..n] == rules[..n - 1] + [rules[n - 1]];
    }
  }

  // With unique precedences the selected rule does not depend on rule order.
  lemma {:induction false} SelectIgnoresOrder(a: seq<PolicyRule>, b: seq<PolicyRule>, c: ServiceClass, s: u64, k: Kind)
    requires UniquePrecedences(a) && multiset(a) == multiset(b)
    ensures SelectRule(a, c, s, k) == SelectRule(b, c, s, k)
  {
    SelectMeaning(a, c, s, k, |a|);
    SelectMeaning(b, c, s, k, |b|);
    assert a[..|a|] == a && b[..|b|] == b;
    var ra, rb := SelectRule(a, c, s, k), SelectRule(b, c, s, k);
    if ra.Some? {
      assert ra.value in multiset(b);
    }
    if rb.Some? {
      assert rb.value in multiset(a);
    }
  }

  function ProfileFor(profiles: seq<ClassProfile>, c: ServiceClass): (r: Option<ClassProfile>)
    ensures r.Some? ==> r.value in profiles && r.value.serviceClass == c
  {
    if profiles == [] then None
    else if profiles[0].serviceClass == c then Some(profiles[0])
    else ProfileFor(profiles[1..], c)
  }

  function EffectiveEnvelope(p: Policy, c: ServiceContract): Result<Envelope> {
    match ProfileFor(p.profiles, c.serviceClass)
    case None => Err(NotFound)
    case Some(profile) =>
      if c.ProtectedObligation() || !profile.mayBeDegraded then Ok(Envelope([], 0))
      else Compose(c.envelope, profile.ceiling, p.maxConcessionsPerContract)
  }

  // For valid inputs a missing class profile is the only way to have no envelope.
  lemma {:induction false} EnvelopeExists(p: Policy, c: ServiceContract)
    requires ValidPolicy(p) && ValidContract(c)
    ensures EffectiveEnvelope(p, c).Ok? <==> ProfileFor(p.profiles, c.serviceClass).Some?
    ensures EffectiveEnvelope(p, c).Ok? ==> CanonicalBounds(EffectiveEnvelope(p, c).value.bounds)
  {
    var profile := ProfileFor(p.profiles, c.serviceClass);
    if profile.Some? {
      var i :| 0 <= i < |p.profiles| && p.profiles[i] == profile.value;
      assert ValidProfile(p.profiles[i]);
      ComposeMerges(c.envelope, profile.value.ceiling, p.maxConcessionsPerContract);
    }
  }
}
