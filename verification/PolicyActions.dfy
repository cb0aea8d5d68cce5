// Why a plan says what it says about a contract (assess in src/engine/allocator.cpp), told
// from the policy's rules and settings.
module PolicyActions {
  import opened Core
  import opened Guarantees
  import opened Envelopes
  import opened Evidence
  import opened Contracts
  import opened Assessments
  import opened Allocator
  import opened Sorting
  import opened Sums
  import opened Subsets
  import opened PlanAcceptance
  import opened NonInterference
  import opened AdmittedService
  import opened FirstFit

  // --------------------------------------------------------------------------
  // The rule that decides
  // --------------------------------------------------------------------------

  // A rule applies where each of its three conditions is absent or met.
  predicate Applies(rule: PolicyRule, c: ServiceContract, k: Kind) {
    && (rule.serviceClass == None || rule.serviceClass == Some(c.serviceClass))
    && (rule.scope == None || rule.scope == Some(c.scope))
    && (rule.trigger == None || rule.trigger == Some(k))
  }

  // Among the rules that apply it goes first.
  ghost predicate Decides(rule: PolicyRule, p: Policy, c: ServiceContract, k: Kind) {
    && rule in p.rules && Applies(rule, c, k)
    && forall other | other in p.rules && Applies(other, c, k) :: rule.precedence <= other.precedence
  }

  // c asks for k and the snapshot does not support what it asks.
  predicate FallsShort(c: ServiceContract, cap: Capability, k: Kind) {
    Find(c.original, k).Some? && !IsSupported(cap, Find(c.original, k).value)
  }

  // The kind whose rule is looked up.
  ghost predicate FirstShort(c: ServiceContract, cap: Capability, k: Kind) {
    FallsShort(c, cap, k) && forall j | FallsShort(c, cap, j) :: Rank(k) <= Rank(j)
  }

  lemma {:induction false} ShortfallsAscend(cap: Capability, s: GuaranteeSet)
    requires Canonical(s)
    ensures forall i, j | 0 <= i < j < |Shortfalls(cap, s)| :: Rank(Shortfalls(cap, s)[i]) < Rank(Shortfalls(cap, s)[j])
    ensures forall i | 0 <= i < |Shortfalls(cap, s)| && s != [] :: Rank(s[0].kind) <= Rank(Shortfalls(cap, s)[i])
  {
    hide IsSupported;
    if s != [] { ShortfallsAscend(cap, s[1..]); }
  }

  lemma {:induction false} FirstShortIs(c: ServiceContract, cap: Capability, k: Kind)
    requires Canonical(c.original) && FirstShort(c, cap, k)
    ensures Shortfalls(cap, c.original) != [] && Shortfalls(cap, c.original)[0] == k
  {
    hide IsSupported, Canonical, Shortfalls, Find;
    var short := Shortfalls(cap, c.original);
    ShortfallsMeaning(cap, c.original);
    ShortfallsAscend(cap, c.original);
    var i: nat :| i < |short| && short[i] == k;
    assert short[0] in short && FallsShort(c, cap, short[0]);
  }

  lemma {:induction false} SelectedDecides(p: Policy, c: ServiceContract, k: Kind)
    ensures var rule := SelectRule(p.rules, c.serviceClass, c.scope, k);
      && (rule.None? <==> forall r | r in p.rules :: !Applies(r, c, k))
      && (rule.Some? ==> Decides(rule.value, p, c, k))
  {
    hide SelectUpTo, Applies, PolicyRule.Matches;
    var rules := p.rules;
    SelectMeaning(rules, c.serviceClass, c.scope, k, |rules|);
    assert rules[..|rules|] == rules;
    forall i | 0 <= i < |rules| ensures rules[i].Matches(c.serviceClass, c.scope, k) <==> Applies(rules[i], c, k) {
      MatchesIsApplies(rules[i], c, k);
    }
    if SelectRule(rules, c.serviceClass, c.scope, k).Some? {
      MatchesIsApplies(SelectRule(rules, c.serviceClass, c.scope, k).value, c, k);
    }
  }

  lemma {:induction false} MatchesIsApplies(rule: PolicyRule, c: ServiceContract, k: Kind)
    ensures rule.Matches(c.serviceClass, c.scope, k) <==> Applies(rule, c, k)
  {
  }

  lemma {:induction false} PrecedenceTells(rules: seq<PolicyRule>, a: PolicyRule, b: PolicyRule)
    requires UniquePrecedences(rules) && a in rules && b in rules && a.precedence == b.precedence
    ensures a == b
  {
    var i :| 0 <= i < |rules| && rules[i] == a;
    var j :| 0 <= j < |rules| && rules[j] == b;
    assert i == j;
  }

  // The first applying rule is the one selected, and with unique precedences the only one.
  lemma {:induction false} DecidingIsSelected(p: Policy, c: ServiceContract, k: Kind)
    requires UniquePrecedences(p.rules)
    ensures var rule := SelectRule(p.rules, c.serviceClass, c.scope, k);
      && (rule.None? <==> forall r | r in p.rules :: !Applies(r, c, k))
      && (rule.Some? ==> Decides(rule.value, p, c, k))
      && (forall r | Decides(r, p, c, k) :: rule == Some(r))
  {
    hide SelectRule, Applies, UniquePrecedences;
    SelectedDecides(p, c, k);
    var rule := SelectRule(p.rules, c.serviceClass, c.scope, k);
    forall r | Decides(r, p, c, k) ensures rule == Some(r) { PrecedenceTells(p.rules, r, rule.value); }
  }

  lemma {:induction false} ValidIsUnique(p: Policy)
    requires ValidPolicy(p)
    ensures UniquePrecedences(p.rules)
  {
    hide RulesFault, UniquePrecedences;
  }

  // --------------------------------------------------------------------------
  // Entries of contracts that do not contend
  // --------------------------------------------------------------------------

  // The refusal an assessment ends in.
  ghost predicate Answers(e: Entry, outcome: Outcome, reason: Reason) {
    !e.admitted && e.granted == 0 && e.approved == [] && e.outcome == outcome && e.reason == reason
  }

  lemma {:induction false} DeclinedEntry(r: Request, c: ServiceContract, e: Entry)
    requires Allocate(r).Ok? && !Allocate(r).value.status.ProvenInfeasible?
    requires c in r.contracts && !Idle(c, r.scope) && SaysOf(Allocate(r).value, e, c)
    ensures var a := Assess(c, r.capability, r.policy); !a.admissible ==> Answers(e, a.outcome, a.reason)
    ensures ValidContract(c) && ValidPolicy(r.policy)
  {
    hide Allocate, Prepared, ServingPlan, Filter, Big, RigidUse, DeltasExist, SumBy, EntriesFor, SpareFor, SortBy,
         ServiceContract.Rigid, Assess, Infeasible, ProofFor, ServedFor, FlexFor, ContractFault, ValidPolicy;
    var sorted, assessed := Returned(r);
    FeasibleServes(r, sorted, assessed, Allocate(r).value);
    ServingEntriesAbout(r, sorted, assessed, c, e);
    ContenderIsValid(r, sorted, assessed, c);
  }

  // --------------------------------------------------------------------------
  // Evidence that proves nothing
  // --------------------------------------------------------------------------

  // What an action on evidence comes to: degrading on what is not proven is not done.
  ghost predicate ActedOnEvidence(e: Entry, action: DegradeAction, reason: Reason) {
    match action
    case Protect => Answers(e, RefusedService, reason)
    case Refuse => Answers(e, RefusedService, reason)
    case Escalate => Answers(e, EscalatedService, reason)
    case Degrade => Answers(e, IndeterminateService, reason)
  }

  // Under evidence in any of the five bad states the policy's own setting for that state
  // decides.
  lemma {:induction false} EvidenceDecides(r: Request, c: ServiceContract, e: Entry)
    requires Allocate(r).Ok? && !Allocate(r).value.status.ProvenInfeasible?
    requires c in r.contracts && !Idle(c, r.scope) && SaysOf(Allocate(r).value, e, c)
    ensures var p := r.policy;
      && (r.capability.state.Unknown? ==> ActedOnEvidence(e, p.onUnknown, EvidenceUnknown))
      && (r.capability.state.Stale? ==> ActedOnEvidence(e, p.onStale, EvidenceStale))
      && (r.capability.state.Conflict? ==> ActedOnEvidence(e, p.onConflict, EvidenceConflict))
      && (r.capability.state.InvalidEvidence? ==> ActedOnEvidence(e, p.onInvalid, EvidenceInvalid))
      && (r.capability.state.UnsupportedEvidence? ==> ActedOnEvidence(e, p.onUnsupported, EvidenceNotSupported))
  {
    hide Allocate, ContractFault, ValidPolicy, EffectiveEnvelope, Shortfalls, Answers, OnShortfall, OnRigidShortfall,
         SelectRule, ServiceContract.Rigid;
    DeclinedEntry(r, c, e);
  }

  // A class the policy has no profile for is not served at all.
  lemma {:induction false} NoProfileNoService(r: Request, c: ServiceContract, e: Entry)
    requires Allocate(r).Ok? && !Allocate(r).value.status.ProvenInfeasible?
    requires c in r.contracts && !Idle(c, r.scope) && SaysOf(Allocate(r).value, e, c)
    requires Usable(r.capability) && forall p | p in r.policy.profiles :: p.serviceClass != c.serviceClass
    ensures Answers(e, UnsupportedService, NoRuleForServiceClass)
  {
    hide Allocate, ContractFault, ValidPolicy, Shortfalls, Answers, OnShortfall, OnRigidShortfall, SelectRule,
         ServiceContract.Rigid;
    DeclinedEntry(r, c, e);
  }

  // --------------------------------------------------------------------------
  // A shortfall
  // --------------------------------------------------------------------------

  ghost predicate HasProfile(p: Policy, c: ServiceContract) {
    exists profile :: profile in p.profiles && profile.serviceClass == c.serviceClass
  }

  lemma {:induction false} ProfileIsFound(profiles: seq<ClassProfile>, c: ServiceClass)
    requires exists profile :: profile in profiles && profile.serviceClass == c
    ensures ProfileFor(profiles, c).Some?
  {
    var profile :| profile in profiles && profile.serviceClass == c;
    if profiles[0].serviceClass != c {
      assert profile in profiles[1..];
      ProfileIsFound(profiles[1..], c);
    }
  }

  lemma {:induction false} AssessedShort(c: ServiceContract, cap: Capability, p: Policy, k: Kind)
    requires ValidContract(c) && ValidPolicy(p) && Usable(cap) && HasProfile(p, c) && FirstShort(c, cap, k)
    ensures EffectiveEnvelope(p, c).Ok?
    ensures var rule := SelectRule(p.rules, c.serviceClass, c.scope, k);
      Assess(c, cap, p) == if c.Rigid() then OnRigidShortfall(c, rule)
                           else OnShortfall(c, cap, EffectiveEnvelope(p, c).value, rule)
  {
    hide ContractFault, ValidPolicy, Shortfalls, OnShortfall, OnRigidShortfall, SelectRule, ServiceContract.Rigid,
         EffectiveEnvelope, FirstShort, ProfileFor;
    EnvelopeExists(p, c);
    ProfileIsFound(p.profiles, c.serviceClass);
    OriginalCanonical(c);
    FirstShortIs(c, cap, k);
  }

  // A flexible contract the snapshot falls short of is answered as the first rule that
  // applies to the kind it falls short of first says, and is unsupported if none does.
  lemma {:induction false} RuleDecides(r: Request, c: ServiceContract, e: Entry, k: Kind)
    requires Allocate(r).Ok? && !Allocate(r).value.status.ProvenInfeasible?
    requires c in r.contracts && !Idle(c, r.scope) && !c.Rigid() && SaysOf(Allocate(r).value, e, c)
    requires Usable(r.capability) && HasProfile(r.policy, c) && FirstShort(c, r.capability, k)
    ensures (forall rule | rule in r.policy.rules :: !Applies(rule, c, k)) ==>
      Answers(e, UnsupportedService, PolicyNoRule)
    ensures forall rule | Decides(rule, r.policy, c, k) ::
      match rule.action
      case Refuse => Answers(e, RefusedService, ShortfallReason(r.capability))
      case Protect => Answers(e, RefusedService, PolicyRequiresProtection)
      case Escalate => Answers(e, EscalatedService, ProtectedObligationUnmet)
      case Degrade => Contends(c, r) || Answers(e, UnsupportedService, PolicyEnvelopeExceeded)
    ensures e.admitted ==> exists rule :: Decides(rule, r.policy, c, k) && rule.action == Degrade
  {
    hide Allocate, ContractFault, ValidPolicy, EffectiveEnvelope, SelectRule, ServiceContract.Rigid, Answers, Decides,
         FirstShort, Applies, Assess, AllReachable, Permits, HasProfile;
    DeclinedEntry(r, c, e);
    AssessedShort(c, r.capability, r.policy, k);
    ValidIsUnique(r.policy);
    DecidingIsSelected(r.policy, c, k);
    AnswersDeclines(e);
  }

  lemma {:induction false} AnswersDeclines(e: Entry)
    ensures forall o, x :: Answers(e, o, x) ==> !e.admitted
  {
  }

  // A rigid contract is never weakened: an escalating rule escalates it, and otherwise it
  // is refused.
  lemma {:induction false} RigidRuleDecides(r: Request, c: ServiceContract, e: Entry, k: Kind)
    requires Allocate(r).Ok? && !Allocate(r).value.status.ProvenInfeasible?
    requires c in r.contracts && !Idle(c, r.scope) && c.Rigid() && SaysOf(Allocate(r).value, e, c)
    requires Usable(r.capability) && HasProfile(r.policy, c) && FirstShort(c, r.capability, k)
    ensures (forall rule | Decides(rule, r.policy, c, k) :: rule.action != Escalate) ==>
      Answers(e, RefusedService, ProtectedObligationUnmet)
    ensures (exists rule :: Decides(rule, r.policy, c, k) && rule.action == Escalate) ==>
      Answers(e, EscalatedService, PolicyRequiresProtection)
  {
    hide Allocate, ContractFault, ValidPolicy, EffectiveEnvelope, SelectRule, ServiceContract.Rigid, Answers, Decides,
         FirstShort, Applies, Assess, HasProfile, OnShortfall;
    DeclinedEntry(r, c, e);
    AssessedShort(c, r.capability, r.policy, k);
    ValidIsUnique(r.policy);
    DecidingIsSelected(r.policy, c, k);
  }

  // --------------------------------------------------------------------------
  // No shortfall
  // --------------------------------------------------------------------------

  lemma {:induction false} NothingShort(c: ServiceContract, cap: Capability)
    requires Canonical(c.original) && forall k :: !FallsShort(c, cap, k)
    ensures Shortfalls(cap, c.original) == []
  {
    hide Canonical, IsSupported, Find;
    NoShortfalls(cap, c.original);
    forall i | 0 <= i < |c.original| ensures IsSupported(cap, c.original[i]) {
      FindAt(c.original, i);
      assert !FallsShort(c, cap, c.original[i].kind);
    }
  }

  // A contract that is supported in everything may be served, whatever the rules say.
  lemma {:induction false} SupportedMayBeServed(r: Request, c: ServiceContract)
    requires Allocate(r).Ok? && c in r.contracts && !Idle(c, r.scope)
    requires Usable(r.capability) && HasProfile(r.policy, c) && forall k :: !FallsShort(c, r.capability, k)
    ensures Assess(c, r.capability, r.policy).admissible
  {
    hide Allocate, ContractFault, ValidPolicy, EffectiveEnvelope, SelectRule, ServiceContract.Rigid, Shortfalls,
         OnShortfall, OnRigidShortfall, Prepared, ProfileFor, Answered;
    var sorted, assessed := Returned(r);
    AnsweredIsPrepared(r, sorted, assessed, Allocate(r).value);
    ContenderIsValid(r, sorted, assessed, c);
    OriginalCanonical(c);
    ShortfallsMeaning(r.capability, c.original);
    EnvelopeExists(r.policy, c);
    ProfileIsFound(r.policy.profiles, c.serviceClass);
    NothingShort(c, r.capability);
  }

  lemma {:induction false} AnsweredIsPrepared(r: Request, sorted: seq<ServiceContract>, assessed: seq<Assessment>,
                                              plan: Plan)
    requires Answered(r, sorted, assessed, plan)
    ensures Prepared(r, sorted, assessed)
  {
    hide Prepared, ServingPlan, InfeasiblePlan, Filter, Big, RigidUse, DeltasExist, SumBy, EntriesFor, ProofFor,
         Infeasible;
  }

  // --------------------------------------------------------------------------
  // Degrading
  // --------------------------------------------------------------------------

  // What c would be left with if it were degraded: on every kind but bandwidth the
  // strongest value the snapshot supports, and bandwidth at its floor until it is shared
  // out, unless the snapshot supports it whole.
  ghost predicate DegradedTo(s: GuaranteeSet, c: ServiceContract, cap: Capability, limits: Envelope) {
    && IsMeet(cap, c.original, s)
    && match Find(c.original, Bandwidth)
       case None => Find(s, Bandwidth) == None
       case Some(g) =>
         var floor := FloorFor(limits, Bandwidth, g.value);
         Find(s, Bandwidth) == Some(if IsSupported(cap, g) then g else g.(value := floor))
  }

  lemma {:induction false} SettledIsDegraded(c: ServiceContract, cap: Capability, limits: Envelope)
    requires Canonical(c.original) && Usable(cap) && CanonicalBounds(limits.bounds)
      && AllReachable(limits, cap, c.original)
    ensures DegradedTo(SettledSet(limits, cap, c.original), c, cap, limits)
  {
    hide Canonical, IsMeet, CanonicalBounds, AllReachable, SettledSet, IsSupported;
    SettledIsMeet(limits, cap, c.original);
    SettledMeaning(limits, cap, c.original);
    FindKind(c.original, Bandwidth);
  }

  // A permitted degradation keeps the envelope's reach.
  lemma {:induction false} PermittedIsReachable(s: GuaranteeSet, c: ServiceContract, cap: Capability, limits: Envelope,
                                                g: Guarantee)
    requires IsMeet(cap, c.original, s) && Permits(limits, c.original, s)
    requires Find(c.original, g.kind) == Some(g) && ValidGuarantee(g) && Usable(cap)
    ensures Reachable(limits, cap, g)
  {
    hide Canonical, Conceded;
    if g.kind != Bandwidth && !IsSupported(cap, g) {
      var h := Find(s, g.kind).value;
      assert AdmittedService.Strongest(cap, g, h);
      assert h.value != g.value;
    }
  }

  // Where the deciding rule is to degrade, a contract contends exactly when its envelope
  // permits what it would be left with.
  lemma {:induction false} DegradedContendsIff(r: Request, c: ServiceContract, k: Kind, rule: PolicyRule)
    requires Allocate(r).Ok? && c in r.contracts && !Idle(c, r.scope) && !c.Rigid()
    requires Usable(r.capability) && HasProfile(r.policy, c) && FirstShort(c, r.capability, k)
    requires Decides(rule, r.policy, c, k) && rule.action == Degrade
    ensures EffectiveEnvelope(r.policy, c).Ok?
    ensures var limits := EffectiveEnvelope(r.policy, c).value;
      Contends(c, r) <==> exists s :: DegradedTo(s, c, r.capability, limits) && Permits(limits, c.original, s)
  {
    hide Allocate, ContractFault, ValidPolicy, EffectiveEnvelope, SelectRule, ServiceContract.Rigid, Decides,
         HasProfile, FirstShort, Applies, Assess, AllReachable, Permits, Prepared, Answered, DegradedTo, SettledSet,
         Canonical, CanonicalBounds;
    var sorted, assessed := Returned(r);
    AnsweredIsPrepared(r, sorted, assessed, Allocate(r).value);
    ContenderIsValid(r, sorted, assessed, c);
    AssessedShort(c, r.capability, r.policy, k);
    ValidIsUnique(r.policy);
    DecidingIsSelected(r.policy, c, k);
    EnvelopeExists(r.policy, c);
    OriginalCanonical(c);
    var cap, limits := r.capability, EffectiveEnvelope(r.policy, c).value;
    if AllReachable(limits, cap, c.original) { SettledIsDegraded(c, cap, limits); }
    forall s | DegradedTo(s, c, cap, limits) && Permits(limits, c.original, s)
      ensures AllReachable(limits, cap, c.original)
      ensures Permits(limits, c.original, SettledSet(limits, cap, c.original)) {
      DegradedIsSettled(s, c, cap, limits);
    }
  }

  lemma {:induction false} DegradedIsSettled(s: GuaranteeSet, c: ServiceContract, cap: Capability, limits: Envelope)
    requires DegradedTo(s, c, cap, limits) && Permits(limits, c.original, s)
    requires Canonical(c.original) && Usable(cap) && CanonicalBounds(limits.bounds)
    ensures AllReachable(limits, cap, c.original) && s == SettledSet(limits, cap, c.original)
  {
    hide Permits, IsMeet, Reachable, CanonicalBounds, SettledSet, IsSupported, Find;
    forall i | 0 <= i < |c.original| ensures Reachable(limits, cap, c.original[i]) {
      FindAt(c.original, i);
      PermittedIsReachable(s, c, cap, limits, c.original[i]);
    }
    SettledIsDegraded(c, cap, limits);
    OneMeet(s, SettledSet(limits, cap, c.original), c.original, cap);
  }

  // --------------------------------------------------------------------------
  // How much is given up
  // --------------------------------------------------------------------------

  // An admitted entry is a promise to its own contract.
  lemma {:induction false} PromiseToItsOwn(r: Request, c: ServiceContract, e: Entry)
    requires Allocate(r).Ok? && c in r.contracts && SaysOf(Allocate(r).value, e, c) && e.admitted
    ensures ValidPolicy(r.policy) && EffectiveEnvelope(r.policy, c).Ok?
    ensures Permits(EffectiveEnvelope(r.policy, c).value, c.original, e.approved) && Weakens(c.original, e.approved)
  {
    hide Allocate, Prepared, Answered, IsMeet, AllSupported, EffectiveEnvelope, Permits, Weakens, ValidPolicy,
         DistinctBy;
    var sorted, assessed := Returned(r);
    AnsweredIsPrepared(r, sorted, assessed, Allocate(r).value);
    PreparedPolicy(r, sorted, assessed);
    EveryEntrySound(r);
    assert EntrySound(e, r);
    var d :| d in r.contracts && e.contract == d.id && EffectiveEnvelope(r.policy, d).Ok?
             && Permits(EffectiveEnvelope(r.policy, d).value, d.original, e.approved)
             && Weakens(d.original, e.approved);
    OneById(r, sorted, assessed, c, d);
  }

  lemma {:induction false} PreparedPolicy(r: Request, sorted: seq<ServiceContract>, assessed: seq<Assessment>)
    requires Prepared(r, sorted, assessed)
    ensures ValidPolicy(r.policy)
  {
    hide AssessAll, SortBy, AssessedFor, IdsAscend, PolicyFault;
  }

  lemma {:induction false} OneById(r: Request, sorted: seq<ServiceContract>, assessed: seq<Assessment>,
                                   c: ServiceContract, d: ServiceContract)
    requires Prepared(r, sorted, assessed) && c in r.contracts && d in r.contracts && c.id == d.id
    ensures c == d
  {
    hide AssessAll, SortBy, AssessedFor, ValidPolicy;
    SameElements(sorted, r.contracts);
    var i :| 0 <= i < |sorted| && sorted[i] == c;
    var j :| 0 <= j < |sorted| && sorted[j] == d;
    assert i == j;
  }

  lemma {:induction false} OnlyProfile(profiles: seq<ClassProfile>, p: ClassProfile)
    requires UniqueClasses(profiles) && p in profiles
    ensures ProfileFor(profiles, p.serviceClass) == Some(p)
  {
    if profiles[0] != p {
      assert p in profiles[1..];
      OnlyProfile(profiles[1..], p);
      var i :| 0 <= i < |profiles[1..]| && profiles[1..][i] == p;
      assert profiles[0].serviceClass != profiles[i + 1].serviceClass;
    }
  }

  // A contract that is protected, or whose class may not be degraded, is served whole or
  // not at all; any other gives up no more than its envelope, its class and the policy
  // each allow.
  lemma {:induction false} ConcessionsAreCapped(r: Request, c: ServiceContract, e: Entry, p: ClassProfile)
    requires Allocate(r).Ok? && c in r.contracts && SaysOf(Allocate(r).value, e, c) && e.admitted
    requires p in r.policy.profiles && p.serviceClass == c.serviceClass && ValidContract(c)
    ensures c.serviceClass == Protected || c.nonDegradable || !p.mayBeDegraded ==> e.approved == c.original
    ensures var given := |DeltaOf(c.original, e.approved, ConcessionWithinEnvelope).concessions|;
      && given <= c.envelope.maxConcessions && given <= p.ceiling.maxConcessions
      && given <= r.policy.maxConcessionsPerContract
  {
    hide Allocate, ContractFault, PolicyFault, ProfileFor, Conceded, Compose, DeltaUpTo;
    ConcededIsListed(c.original, e.approved, ConcessionWithinEnvelope, |c.original|);
    PromiseToItsOwn(r, c, e);
    ProfilesAreUnique(r.policy, p);
    OnlyProfile(r.policy.profiles, p);
    EnvelopeIsCanonical(c);
    OriginalCanonical(c);
    NothingConceded(c.original, |c.original|);
    ComposeMerges(c.envelope, p.ceiling, r.policy.maxConcessionsPerContract);
  }

  lemma {:induction false} ProfilesAreUnique(policy: Policy, p: ClassProfile)
    requires ValidPolicy(policy) && p in policy.profiles
    ensures UniqueClasses(policy.profiles) && CanonicalBounds(p.ceiling.bounds)
  {
    hide RulesFault, UniquePrecedences, UniqueClasses, CanonicalBounds;
    var i :| 0 <= i < |policy.profiles| && policy.profiles[i] == p;
    assert ValidProfile(policy.profiles[i]);
  }

  lemma {:induction false} EnvelopeIsCanonical(c: ServiceContract)
    requires ValidContract(c)
    ensures CanonicalBounds(c.envelope.bounds)
  {
    hide Canonical;
  }

  lemma {:induction false} ItsOwnValues(s: GuaranteeSet)
    ensures SameValues(s, s)
  {
  }

  // An entry that serves says so: in full exactly where nothing asked for is given up, and
  // what is given up.
  lemma {:induction false} ServiceIsNamed(r: Request, c: ServiceContract, e: Entry)
    requires Allocate(r).Ok? && !Allocate(r).value.status.ProvenInfeasible?
    requires c in r.contracts && !Idle(c, r.scope) && SaysOf(Allocate(r).value, e, c) && e.admitted
    ensures e.full <==> SameValues(c.original, e.approved)
    ensures e.delta == DeltaOf(c.original, e.approved, ConcessionWithinEnvelope)
    ensures e.outcome == if e.full then Full else DegradedService
    ensures e.reason == if e.full then OriginalObligationsSupportable else ConcessionWithinEnvelope
  {
    hide Allocate, Assess, EffectiveEnvelope, Permits, OfferedSet, Offer, DeltaOf, ServiceContract.Rigid, ContractFault,
         ValidPolicy, SameValues, Weakens, LeftFor, ServingPlan, Prepared, ServedFor, SpareFor, FlexFor, Answered;
    DeclinedEntry(r, c, e);
    PromiseToItsOwn(r, c, e);
    EmptyDeltaMeansSameValues(c.original, e.approved, ConcessionWithinEnvelope);
    if c.Rigid() {
      RigidIsWholeOrRefused(r, c, e);
      var sorted, assessed := Returned(r);
      FeasibleServes(r, sorted, assessed, Allocate(r).value);
      ServingEntriesAbout(r, sorted, assessed, c, e);
    } else {
      EntryOf(r, c, e);
      ItsOwnValues(c.original);
    }
  }

  // --------------------------------------------------------------------------
  // Contracts nothing is decided about
  // --------------------------------------------------------------------------

  // A contract that is inactive or of another scope is refused, and told which.
  lemma {:induction false} IdleIsRefused(r: Request, c: ServiceContract, e: Entry)
    requires Allocate(r).Ok? && !Allocate(r).value.status.ProvenInfeasible?
    requires c in r.contracts && (!c.active || c.scope != r.scope) && SaysOf(Allocate(r).value, e, c)
    ensures Answers(e, RefusedService, if c.scope == r.scope then NoReason else ScopeUnknown)
  {
    hide Allocate, Prepared, ServingPlan, Filter, Big, RigidUse, DeltasExist, SumBy, EntriesFor, SpareFor, SortBy,
         ServiceContract.Rigid, Assess, Infeasible, ProofFor, ServedFor, FlexFor;
    var sorted, assessed := Returned(r);
    FeasibleServes(r, sorted, assessed, Allocate(r).value);
    ServingEntriesAbout(r, sorted, assessed, c, e);
  }

  lemma {:induction false} InfeasibleIsEmpty(r: Request, sorted: seq<ServiceContract>, assessed: seq<Assessment>,
                                             plan: Plan)
    requires Answered(r, sorted, assessed, plan) && plan.status.ProvenInfeasible?
    ensures plan == InfeasiblePlan(sorted, ProofFor(assessed, r), r) && multiset(sorted) == multiset(r.contracts)
  {
    hide AssessAll, InfeasiblePlan, Filter, Big, RigidUse, DeltasExist, SumBy, EntriesFor, ProofFor, Infeasible,
         SearchFor, SomeRefused;
  }

  // A plan that was proven infeasible serves nobody and escalates every contract.
  lemma {:induction false} InfeasibleEscalatesAll(r: Request)
    requires Allocate(r).Ok? && Allocate(r).value.status.ProvenInfeasible?
    ensures var plan := Allocate(r).value;
      && plan.granted == 0 && plan.certificate.valid
      && (forall e | e in plan.entries :: !e.admitted && e.granted == 0 && e.approved == [])
      && (forall c | c in r.contracts :: exists e | e in plan.entries ::
            SaysOf(plan, e, c) && Answers(e, EscalatedService, ResourceExhausted))
  {
    hide Allocate, ProofFor, Answered, SortBy;
    var plan := Allocate(r).value;
    var sorted, assessed := Returned(r);
    InfeasibleIsEmpty(r, sorted, assessed, plan);
    var idle, escalated := IdleEntries(sorted, r.scope), EscalatedEntries(sorted, r.scope);
    SameElements(plan.entries, idle + escalated);
    SameElements(sorted, r.contracts);
    forall e | e in plan.entries ensures !e.admitted && e.granted == 0 && e.approved == [] {
      IdleEntriesFrom(sorted, r.scope, e);
    }
    forall c | c in r.contracts
      ensures exists e | e in plan.entries :: SaysOf(plan, e, c) && Answers(e, EscalatedService, ResourceExhausted) {
      var i :| 0 <= i < |sorted| && sorted[i] == c;
      assert escalated[i] in escalated && escalated[i] in idle + escalated;
      assert SaysOf(plan, escalated[i], c);
    }
  }
}
