// What one contract may be offered under an observed capability, before bandwidth
// is contended (assess in src/engine/allocator.cpp).
module Assessments {
  import opened Core
  import opened Guarantees
  import opened Envelopes
  import opened Evidence
  import opened Contracts

  datatype Outcome =
    | Full | DegradedService | RefusedService | EscalatedService
    | UnsupportedService | IndeterminateService | InvalidInputs

  predicate Authorising(o: Outcome) {
    o.Full? || o.DegradedService?
  }

  datatype Assessment = Assessment(
    contract: ServiceContract, rigid: bool, admissible: bool, approved: GuaranteeSet,
    outcome: Outcome, reason: Reason, escalation: bool)

  predicate IsSupported(c: Capability, g: Guarantee) {
    Supports(c, g).Supported?
  }

  // The kinds the snapshot cannot serve in full, in canonical order.
  function Shortfalls(c: Capability, s: GuaranteeSet): (r: seq<Kind>) {
    if s == [] then []
    else (if IsSupported(c, s[0]) then [] else [s[0].kind]) + Shortfalls(c, s[1..])
  }

  function SupportedPart(c: Capability, s: GuaranteeSet): (r: GuaranteeSet) {
    if s == [] then []
    else (if IsSupported(c, s[0]) then [s[0]] else []) + SupportedPart(c, s[1..])
  }

  // The strongest value the snapshot supports. Bandwidth is contended, so its
  // envelope floor stands in until the allocator decides.
  function Settled(limits: Envelope, c: Capability, g: Guarantee): Guarantee {
    if IsSupported(c, g) then g
    else if g.kind.Bandwidth? then g.(value := FloorFor(limits, Bandwidth, g.value))
    else if g.comparator.AtLeast? then g.(value := Min(g.value, Observed(c, g.kind)))
    else g.(value := Max(g.value, Observed(c, g.kind)))
  }

  function SettledSet(limits: Envelope, c: Capability, s: GuaranteeSet): (r: GuaranteeSet)
    ensures |r| == |s|
  {
    seq(|s|, i requires 0 <= i < |s| => Settled(limits, c, s[i]))
  }

  // The envelope reaches down to what the snapshot observed.
  predicate Reachable(limits: Envelope, c: Capability, g: Guarantee) {
    || IsSupported(c, g)
    || g.kind.Bandwidth?
    || (if g.comparator.AtLeast?
        then Observed(c, g.kind) >= FloorFor(limits, g.kind, g.value)
        else Observed(c, g.kind) <= FloorFor(limits, g.kind, g.value))
  }

  predicate AllReachable(limits: Envelope, c: Capability, s: GuaranteeSet) {
    forall i | 0 <= i < |s| :: Reachable(limits, c, s[i])
  }

  function ShortfallReason(c: Capability): Reason {
    if c.topology.Partitioned? || c.topology.Isolated? then FabricPartitioned else FabricCapabilityShortfall
  }

  function EvidenceReason(s: EvidenceState): Reason {
    match s
    case Unknown => EvidenceUnknown
    case Stale => EvidenceStale
    case Conflict => EvidenceConflict
    case InvalidEvidence => EvidenceInvalid
    case UnsupportedEvidence => EvidenceNotSupported
    case Known => NoReason
  }

  function Declined(c: ServiceContract, o: Outcome, r: Reason, escalation: bool): Assessment {
    Assessment(c, c.Rigid(), false, [], o, r, escalation)
  }

  function OnBadEvidence(c: ServiceContract, s: EvidenceState, p: Policy): Assessment {
    match EvidenceAction(p, s)
    case Protect => Declined(c, RefusedService, EvidenceReason(s), false)
    case Refuse => Declined(c, RefusedService, EvidenceReason(s), false)
    case Escalate => Declined(c, EscalatedService, EvidenceReason(s), true)
    case Degrade => Declined(c, IndeterminateService, EvidenceReason(s), true)
  }

  function OnRigidShortfall(c: ServiceContract, rule: Option<PolicyRule>): Assessment {
    if rule.Some? && rule.value.action.Escalate?
    then Declined(c, EscalatedService, PolicyRequiresProtection, true)
    else Declined(c, RefusedService, ProtectedObligationUnmet, false)
  }

  ghost function OnShortfall(c: ServiceContract, cap: Capability, limits: Envelope,
                             rule: Option<PolicyRule>): Assessment {
    match rule
    case None => Declined(c, UnsupportedService, PolicyNoRule, true)
    case Some(r) =>
      match r.action
      case Refuse => Declined(c, RefusedService, ShortfallReason(cap), false)
      case Escalate => Declined(c, EscalatedService, ProtectedObligationUnmet, true)
      case Protect => Declined(c, RefusedService, PolicyRequiresProtection, false)
      case Degrade =>
        if AllReachable(limits, cap, c.original)
           && Permits(limits, c.original, SettledSet(limits, cap, c.original))
        then Assessment(c, c.Rigid(), true, SettledSet(limits, cap, c.original),
                        DegradedService, ShortfallReason(cap), false)
        else Declined(c, UnsupportedService, PolicyEnvelopeExceeded, true)
  }

  ghost function Assess(c: ServiceContract, cap: Capability, p: Policy): (a: Assessment)
    ensures a.contract == c && a.rigid == c.Rigid()
    ensures !a.admissible ==> !Authorising(a.outcome) && a.approved == []
  {
    if !Usable(cap) then OnBadEvidence(c, cap.state, p)
    else
      match EffectiveEnvelope(p, c)
      case Err(e) =>
        Declined(c, UnsupportedService, if e.NotFound? then NoRuleForServiceClass else PolicyNoRule, true)
      case Ok(limits) =>
        var short := Shortfalls(cap, c.original);
        if short == [] then
          Assessment(c, c.Rigid(), true, c.original, Full, OriginalObligationsSupportable, false)
        else
          var rule := SelectRule(p.rules, c.serviceClass, c.scope, short[0]);
          if c.Rigid() then OnRigidShortfall(c, rule) else OnShortfall(c, cap, limits, rule)
  }

  // --------------------------------------------------------------------------
  // Shortfalls and settled values
  // --------------------------------------------------------------------------

  lemma {:induction false} ShortfallsMeaning(c: Capability, s: GuaranteeSet)
    requires Canonical(s)
    ensures forall k :: k in Shortfalls(c, s) <==> Find(s, k).Some? && !IsSupported(c, Find(s, k).value)
    ensures forall i, j | 0 <= i < j < |Shortfalls(c, s)| :: Shortfalls(c, s)[i] != Shortfalls(c, s)[j]
  {
    if s != [] {
      TailFind(s);
      ShortfallsMeaning(c, s[1..]);
      assert Find(s, s[0].kind) == Some(s[0]);
    }
  }

  lemma {:induction false} NoShortfalls(c: Capability, s: GuaranteeSet)
    ensures Shortfalls(c, s) == [] <==> forall i | 0 <= i < |s| :: IsSupported(c, s[i])
    ensures Shortfalls(c, s) == [] ==> SupportedPart(c, s) == s
  {
    if s != [] {
      NoShortfalls(c, s[1..]);
      assert s == [s[0]] + s[1..];
    }
  }

  lemma {:induction false} AppendScan(c: Capability, s: GuaranteeSet, g: Guarantee)
    ensures Shortfalls(c, s + [g]) == Shortfalls(c, s) + (if IsSupported(c, g) then [] else [g.kind])
    ensures SupportedPart(c, s + [g]) == SupportedPart(c, s) + (if IsSupported(c, g) then [g] else [])
  {
    if s == [] {
      assert [g][1..] == [];
    } else {
      AppendScan(c, s[1..], g);
      assert (s + [g])[1..] == s[1..] + [g];
    }
  }

  lemma {:induction false} SupportedPartMeaning(c: Capability, s: GuaranteeSet)
    requires Canonical(s)
    ensures Canonical(SupportedPart(c, s))
    ensures forall g :: g in SupportedPart(c, s) <==> g in s && IsSupported(c, g)
  {
    if s != [] {
      assert Canonical(s[1..]);
      SupportedPartMeaning(c, s[1..]);
      var t := SupportedPart(c, s[1..]);
      forall i | 0 <= i < |t| ensures Rank(s[0].kind) < Rank(t[i].kind) {
        assert t[i] in s[1..];
      }
    }
  }

  lemma {:induction false} FindSupported(c: Capability, s: GuaranteeSet, k: Kind)
    requires Canonical(s)
    ensures Canonical(SupportedPart(c, s))
    ensures Find(SupportedPart(c, s), k)
         == if Find(s, k).Some? && IsSupported(c, Find(s, k).value) then Find(s, k) else None
  {
    SupportedPartMeaning(c, s);
    var t := SupportedPart(c, s);
    if Find(t, k).Some? {
      var i :| 0 <= i < |s| && s[i] == Find(t, k).value;
      FindAt(s, i);
    }
    if Find(s, k).Some? && IsSupported(c, Find(s, k).value) {
      var i :| 0 <= i < |t| && t[i] == Find(s, k).value;
      FindAt(t, i);
    }
  }

  lemma {:induction false} SettledValid(limits: Envelope, c: Capability, g: Guarantee)
    requires ValidGuarantee(g) && CanonicalBounds(limits.bounds) && Reachable(limits, c, g)
    ensures ValidGuarantee(Settled(limits, c, g)) && Settled(limits, c, g).kind == g.kind
  {
    if FindBound(limits.bounds, g.kind).Some? {
      var w := FindBound(limits.bounds, g.kind).value;
      var i :| 0 <= i < |limits.bounds| && limits.bounds[i] == Bound(g.kind, w);
    }
  }

  function SettledOption(limits: Envelope, c: Capability, g: Option<Guarantee>): Option<Guarantee> {
    match g
    case Some(x) => Some(Settled(limits, c, x))
    case None => None
  }

  lemma {:induction false} SettledMeaning(limits: Envelope, c: Capability, s: GuaranteeSet)
    requires Canonical(s) && CanonicalBounds(limits.bounds) && AllReachable(limits, c, s)
    ensures Canonical(SettledSet(limits, c, s))
    ensures forall k :: Find(SettledSet(limits, c, s), k) == SettledOption(limits, c, Find(s, k))
  {
    var t := SettledSet(limits, c, s);
    forall i | 0 <= i < |s| ensures ValidGuarantee(t[i]) && t[i].kind == s[i].kind {
      SettledValid(limits, c, s[i]);
    }
    forall k ensures Find(t, k) == SettledOption(limits, c, Find(s, k)) {
      if Find(s, k).Some? {
        var i :| 0 <= i < |s| && s[i] == Find(s, k).value;
        FindAt(t, i);
      }
    }
  }

  // --------------------------------------------------------------------------
  // The assessment in its own form
  // --------------------------------------------------------------------------

  lemma {:induction false} InsertAtEnd(s: GuaranteeSet, g: Guarantee)
    requires ValidGuarantee(g) && forall i | 0 <= i < |s| :: Rank(s[i].kind) < Rank(g.kind)
    ensures Insert(s, g) == Ok(s + [g])
  {
    assert LowerBound(s, g.kind) == |s|;
    assert s[..|s|] + [g] + s[|s|..] == s + [g];
  }

  // Pass 1: keep what is supported, list what is not.
  method Classify(c: ServiceContract, cap: Capability) returns (approved: GuaranteeSet, short: seq<Kind>)
    requires ValidContract(c) && Usable(cap)
    ensures approved == SupportedPart(cap, c.original)
    ensures short == Shortfalls(cap, c.original)
  {
    approved, short := [], [];
    for i := 0 to |c.original|
      invariant approved == SupportedPart(cap, c.original[..i])
      invariant short == Shortfalls(cap, c.original[..i])
    {
      var g := c.original[i];
      assert c.original[..i + 1] == c.original[..i] + [g];
      AppendScan(cap, c.original[..i], g);
      if Supports(cap, g).Supported? {
        assert Canonical(c.original[..i]);
        SupportedPartMeaning(cap, c.original[..i]);
        forall k | 0 <= k < |approved| ensures Rank(approved[k].kind) < Rank(g.kind) {
          assert approved[k] in c.original[..i];
        }
        InsertAtEnd(approved, g);
        approved := Insert(approved, g).value;
      } else {
        short := short + [g.kind];
      }
    }
    assert c.original[..|c.original|] == c.original;
  }

  // Supported kinds stay, settled shortfalls are in, the others are still missing.
  ghost predicate SettledSoFar(limits: Envelope, cap: Capability, original: GuaranteeSet, short: seq<Kind>, done: nat,
                               approved: GuaranteeSet)
    requires done <= |short|
  {
    forall k :: Find(approved, k) ==
      if k in short[..done] then SettledOption(limits, cap, Find(original, k))
      else if k in short then None
      else Find(original, k)
  }

  lemma {:induction false} KeptStarts(limits: Envelope, cap: Capability, original: GuaranteeSet)
    requires Canonical(original)
    ensures Canonical(SupportedPart(cap, original))
    ensures SettledSoFar(limits, cap, original, Shortfalls(cap, original), 0, SupportedPart(cap, original))
  {
    SupportedPartMeaning(cap, original);
    ShortfallsMeaning(cap, original);
    forall k ensures Find(SupportedPart(cap, original), k)
                  == if k in Shortfalls(cap, original) then None else Find(original, k) {
      FindSupported(cap, original, k);
    }
  }

  lemma {:induction false} SettleOne(limits: Envelope, cap: Capability, original: GuaranteeSet, short: seq<Kind>,
                                     j: nat, approved: GuaranteeSet, g: Guarantee)
    requires j < |short| && Find(original, short[j]) == Some(g) && g.kind == short[j]
    requires forall i | 0 <= i < |short| && i != j :: short[i] != short[j]
    requires Canonical(approved) && ValidGuarantee(Settled(limits, cap, g)) && Settled(limits, cap, g).kind == g.kind
    requires SettledSoFar(limits, cap, original, short, j, approved)
    ensures Upsert(approved, Settled(limits, cap, g)).Ok?
    ensures Canonical(Upsert(approved, Settled(limits, cap, g)).value)
    ensures SettledSoFar(limits, cap, original, short, j + 1, Upsert(approved, Settled(limits, cap, g)).value)
  {
    UpsertStores(approved, Settled(limits, cap, g));
    assert short[..j + 1] == short[..j] + [short[j]];
  }

  lemma {:induction false} AllSettled(limits: Envelope, cap: Capability, original: GuaranteeSet, approved: GuaranteeSet)
    requires Canonical(original) && Canonical(approved) && CanonicalBounds(limits.bounds)
    requires forall k | k in Shortfalls(cap, original) ::
      Find(original, k).Some? && Reachable(limits, cap, Find(original, k).value)
    requires SettledSoFar(limits, cap, original, Shortfalls(cap, original), |Shortfalls(cap, original)|, approved)
    ensures AllReachable(limits, cap, original)
    ensures approved == SettledSet(limits, cap, original)
  {
    var short := Shortfalls(cap, original);
    assert short[..|short|] == short;
    ShortfallsMeaning(cap, original);
    forall i | 0 <= i < |original| ensures Reachable(limits, cap, original[i]) {
      FindAt(original, i);
      assert !IsSupported(cap, original[i]) ==> original[i].kind in short;
    }
    SettledMeaning(limits, cap, original);
    Extensional(approved, SettledSet(limits, cap, original));
  }

  // Pass 2: weaken each shortfall to the strongest value the envelope allows.
  method Weaken(c: ServiceContract, cap: Capability, limits: Envelope, kept: GuaranteeSet, short: seq<Kind>)
    returns (ok: bool, approved: GuaranteeSet)
    requires ValidContract(c) && CanonicalBounds(limits.bounds)
    requires kept == SupportedPart(cap, c.original) && short == Shortfalls(cap, c.original)
    ensures ok <==> AllReachable(limits, cap, c.original)
    ensures ok ==> approved == SettledSet(limits, cap, c.original)
  {
    ShortfallsMeaning(cap, c.original);
    KeptStarts(limits, cap, c.original);
    approved := kept;
    for j := 0 to |short|
      invariant Canonical(approved)
      invariant forall i | 0 <= i < j :: Reachable(limits, cap, Find(c.original, short[i]).value)
      invariant SettledSoFar(limits, cap, c.original, short, j, approved)
    {
      assert short[j] in short;
      var g := Find(c.original, short[j]).value;
      if !Reachable(limits, cap, g) {
        assert g in c.original;
        return false, [];
      }
      SettledValid(limits, cap, g);
      SettleOne(limits, cap, c.original, short, j, approved, g);
      approved := Upsert(approved, Settled(limits, cap, g)).value;
    }
    AllSettled(limits, cap, c.original, approved);
    return true, approved;
  }

  method AssessContract(c: ServiceContract, cap: Capability, p: Policy) returns (a: Assessment)
    requires ValidContract(c) && ValidPolicy(p)
    ensures a == Assess(c, cap, p)
  {
    if !Usable(cap) { return OnBadEvidence(c, cap.state, p); }
    EnvelopeExists(p, c);
    var envelope := EffectiveEnvelope(p, c);
    if envelope.Err? {
      return Declined(c, UnsupportedService, if envelope.error.NotFound? then NoRuleForServiceClass else PolicyNoRule,
                      true);
    }
    var limits := envelope.value;
    var kept, short := Classify(c, cap);
    if short == [] {
      NoShortfalls(cap, c.original);
      return Assessment(c, c.Rigid(), true, kept, Full, OriginalObligationsSupportable, false);
    }
    var rule := SelectRule(p.rules, c.serviceClass, c.scope, short[0]);
    if c.Rigid() { return OnRigidShortfall(c, rule); }
    if rule.None? { return Declined(c, UnsupportedService, PolicyNoRule, true); }
    match rule.value.action
    case Refuse => return Declined(c, RefusedService, ShortfallReason(cap), false);
    case Escalate => return Declined(c, EscalatedService, ProtectedObligationUnmet, true);
    case Protect => return Declined(c, RefusedService, PolicyRequiresProtection, false);
    case Degrade =>
      var ok, approved := Weaken(c, cap, limits, kept, short);
      if !ok { return Declined(c, UnsupportedService, PolicyEnvelopeExceeded, true); }
      SettledMeaning(limits, cap, c.original);
      var permitted := CheckPermits(limits, c.original, approved);
      if !permitted { return Declined(c, UnsupportedService, PolicyEnvelopeExceeded, true); }
      return Assessment(c, c.Rigid(), true, approved, DegradedService, ShortfallReason(cap), false);
  }
}
