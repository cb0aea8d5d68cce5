// What an admitted entry promises: on every kind but the contended bandwidth it is
// the strongest value that both the contract asked for and the snapshot supports.
module AdmittedService {
  import opened Core
  import opened Guarantees
  import opened Envelopes
  import opened Evidence
  import opened Contracts
  import opened Assessments
  import opened Allocator
  import opened Sorting
  import opened PlanAcceptance

  predicate AsStrong(k: Kind, g: u64, h: u64) {
    if ComparatorFor(k).AtLeast? then h <= g else h >= g
  }

  // g is supported, asks no more than base, and is as strong as anything that does both.
  ghost predicate Strongest(cap: Capability, base: Guarantee, g: Guarantee) {
    && g.kind == base.kind && g.hard == base.hard
    && NoStronger(base, g) && IsSupported(cap, g)
    && forall h: Guarantee | h.kind == base.kind && NoStronger(base, h) && IsSupported(cap, h) ::
         AsStrong(base.kind, g.value, h.value)
  }

  // On every kind but bandwidth, `approved` is the meet of `original` and the snapshot.
  ghost predicate IsMeet(cap: Capability, original: GuaranteeSet, approved: GuaranteeSet) {
    && Canonical(approved)
    && (forall k | k != Bandwidth :: Find(original, k).None? <==> Find(approved, k).None?)
    && (forall k | k != Bandwidth && Find(original, k).Some? && Find(approved, k).Some? ::
          Strongest(cap, Find(original, k).value, Find(approved, k).value))
  }

  // --------------------------------------------------------------------------
  // Assessment
  // --------------------------------------------------------------------------

  lemma {:induction false} SettledIsStrongest(limits: Envelope, cap: Capability, g: Guarantee)
    requires ValidGuarantee(g) && g.kind != Bandwidth && Usable(cap)
    requires CanonicalBounds(limits.bounds) && Reachable(limits, cap, g)
    ensures Strongest(cap, g, Settled(limits, cap, g))
  {
    SettledValid(limits, cap, g);
  }

  lemma {:induction false} SupportedIsMeet(cap: Capability, s: GuaranteeSet)
    requires Canonical(s) && Shortfalls(cap, s) == []
    ensures IsMeet(cap, s, s)
  {
    hide Canonical;
    NoShortfalls(cap, s);
    forall k | k != Bandwidth && Find(s, k).Some? ensures Strongest(cap, Find(s, k).value, Find(s, k).value) {
      var i :| 0 <= i < |s| && s[i] == Find(s, k).value;
    }
  }

  lemma {:induction false} SettledIsMeet(limits: Envelope, cap: Capability, s: GuaranteeSet)
    requires Canonical(s) && Usable(cap) && CanonicalBounds(limits.bounds) && AllReachable(limits, cap, s)
    ensures IsMeet(cap, s, SettledSet(limits, cap, s))
  {
    hide Settled, CanonicalBounds, SettledSet;
    SettledMeaning(limits, cap, s);
    var t := SettledSet(limits, cap, s);
    forall k | k != Bandwidth && Find(s, k).Some? && Find(t, k).Some?
      ensures Strongest(cap, Find(s, k).value, Find(t, k).value) {
      var i :| 0 <= i < |s| && s[i] == Find(s, k).value;
      SettledIsStrongest(limits, cap, s[i]);
    }
  }

  // A contract that asks for no bandwidth keeps its bandwidth guarantee untouched.
  lemma {:induction false} IdleBandwidthKept(limits: Envelope, cap: Capability, c: ServiceContract)
    requires ValidContract(c) && Usable(cap) && CanonicalBounds(limits.bounds)
    requires AllReachable(limits, cap, c.original) && c.Demand() == 0
    ensures Find(SettledSet(limits, cap, c.original), Bandwidth) == Find(c.original, Bandwidth)
  {
    hide SettledSet, CanonicalBounds;
    SettledMeaning(limits, cap, c.original);
    if Find(c.original, Bandwidth).Some? {
      var i :| 0 <= i < |c.original| && c.original[i] == Find(c.original, Bandwidth).value;
    }
  }

  lemma {:induction false} AssessedIsMeet(a: Assessment, c: ServiceContract, r: Request)
    requires AssessedAs(a, c, r) && ValidPolicy(r.policy) && a.admissible
    ensures Usable(r.capability) && ValidContract(c) && IsMeet(r.capability, c.original, a.approved)
    ensures c.Demand() == 0 ==> Find(a.approved, Bandwidth) == Find(c.original, Bandwidth)
  {
    hide IsMeet, Canonical, AllReachable, SettledSet, EffectiveEnvelope, ValidPolicy, AssessedAs, Shortfalls,
         ServiceContract.Demand, CanonicalBounds;
    if IsRigid(a) {
      RigidIsWhole(a, c, r);
      OriginalCanonical(c);
      SupportedIsMeet(r.capability, c.original);
    } else {
      FlexibleIsOffered(a, c, r);
      OriginalCanonical(c);
      if a.approved == c.original && Shortfalls(r.capability, c.original) == [] {
        SupportedIsMeet(r.capability, c.original);
      } else {
        var limits := EffectiveEnvelope(r.policy, c).value;
        SettledIsMeet(limits, r.capability, c.original);
        if c.Demand() == 0 { IdleBandwidthKept(limits, r.capability, c); }
      }
    }
  }

  lemma {:induction false} OriginalCanonical(c: ServiceContract)
    requires ValidContract(c)
    ensures Canonical(c.original)
  {
  }

  // --------------------------------------------------------------------------
  // Bandwidth
  // --------------------------------------------------------------------------

  predicate SoftBandwidth(c: ServiceContract) {
    c.Demand() > 0 && Find(c.original, Bandwidth).Some? && !Find(c.original, Bandwidth).value.hard
  }

  ghost predicate AllSupported(cap: Capability, s: GuaranteeSet) {
    forall i | 0 <= i < |s| :: IsSupported(cap, s[i])
  }

  lemma {:induction false} SupportedByKind(cap: Capability, original: GuaranteeSet, s: GuaranteeSet)
    requires IsMeet(cap, original, s)
    requires Find(s, Bandwidth).Some? ==> IsSupported(cap, Find(s, Bandwidth).value)
    ensures AllSupported(cap, s)
  {
    hide IsSupported, Canonical;
    forall i | 0 <= i < |s| ensures IsSupported(cap, s[i]) {
      FindAt(s, i);
    }
  }

  lemma {:induction false} MeetWeakens(cap: Capability, original: GuaranteeSet, s: GuaranteeSet)
    requires Canonical(original) && IsMeet(cap, original, s)
    ensures Weakens(original, s) <==>
      (Find(s, Bandwidth).Some? ==>
         Find(original, Bandwidth).Some? && NoStronger(Find(original, Bandwidth).value, Find(s, Bandwidth).value))
  {
    hide IsSupported, Canonical, Find, NoStronger;
    forall k | k != Bandwidth && Find(s, k).Some?
      ensures Find(original, k).Some? && NoStronger(Find(original, k).value, Find(s, k).value)
    {
      assert Find(original, k).Some?;
    }
  }

  lemma {:induction false} UpsertKeepsMeet(cap: Capability, original: GuaranteeSet, s: GuaranteeSet, g: Guarantee)
    requires IsMeet(cap, original, s) && g.kind == Bandwidth && ValidGuarantee(g)
    ensures Upsert(s, g).Ok? && IsMeet(cap, original, Upsert(s, g).value)
    ensures Find(Upsert(s, g).value, Bandwidth) == Some(g)
  {
    hide Find, Upsert, Strongest, Canonical;
    UpsertStores(s, g);
  }

  lemma {:induction false} BandwidthBase(c: ServiceContract)
    requires ValidContract(c)
    ensures Find(c.original, Bandwidth).Some? ==>
      Find(c.original, Bandwidth).value.comparator == AtLeast && Find(c.original, Bandwidth).value.value == c.Demand()
    ensures c.Demand() > 0 ==> Find(c.original, Bandwidth).Some?
    ensures c.Demand() <= MAX_BANDWIDTH_KBPS
  {
    FloorBelowDemand(c);
    if Find(c.original, Bandwidth).Some? {
      var i :| 0 <= i < |c.original| && c.original[i] == Find(c.original, Bandwidth).value;
    }
  }

  // What first-fit approves for a flexible contract, whatever is left to offer.
  ghost predicate Approves(cap: Capability, c: ServiceContract, approved: GuaranteeSet) {
    && IsMeet(cap, c.original, approved)
    && AllSupported(cap, approved)
    && (Weakens(c.original, approved) <==> !SoftBandwidth(c))
  }

  lemma {:induction false} OfferApproves(a: Assessment, c: ServiceContract, r: Request, remaining: nat)
    requires AssessedAs(a, c, r) && ValidPolicy(r.policy) && IsFlexible(a) && remaining <= r.capability.bandwidth
    ensures OfferedSet(a, remaining).Ok? && Approves(r.capability, c, OfferedSet(a, remaining).value)
  {
    hide AssessedAs, ValidPolicy, IsMeet, Canonical, Upsert, Find, ServiceContract.Demand, Weakens, ContractFault,
         AllSupported;
    AssessedIsMeet(a, c, r);
    OriginalCanonical(c);
    BandwidthBase(c);
    AboutContract(a, c, r);
    var cap := r.capability;
    if c.Demand() > 0 {
      var g := Guarantee(Bandwidth, AtLeast, Offer(a, remaining), true);
      UpsertKeepsMeet(cap, c.original, a.approved, g);
      var s := Upsert(a.approved, g).value;
      SupportedByKind(cap, c.original, s);
      MeetWeakens(cap, c.original, s);
    } else {
      IdleBandwidthSupported(c, cap);
      SupportedByKind(cap, c.original, a.approved);
      MeetWeakens(cap, c.original, a.approved);
    }
  }

  lemma {:induction false} AboutContract(a: Assessment, c: ServiceContract, r: Request)
    requires AssessedAs(a, c, r)
    ensures a.contract == c
  {
    hide ContractFault;
  }

  lemma {:induction false} IdleBandwidthSupported(c: ServiceContract, cap: Capability)
    requires ValidContract(c) && c.Demand() == 0 && Usable(cap)
    ensures Find(c.original, Bandwidth).Some? ==> IsSupported(cap, Find(c.original, Bandwidth).value)
    ensures Find(c.original, Bandwidth).Some? ==>
      NoStronger(Find(c.original, Bandwidth).value, Find(c.original, Bandwidth).value)
  {
    if Find(c.original, Bandwidth).Some? {
      var i :| 0 <= i < |c.original| && c.original[i] == Find(c.original, Bandwidth).value;
    }
  }

  // --------------------------------------------------------------------------
  // Verdicts and entries
  // --------------------------------------------------------------------------

  // A verdict of admission, for the contract it was given to.
  ghost predicate Promise(v: Verdict, c: ServiceContract, r: Request) {
    && Usable(r.capability)
    && IsMeet(r.capability, c.original, v.approved)
    && AllSupported(r.capability, v.approved)
    && EffectiveEnvelope(r.policy, c).Ok?
    && Permits(EffectiveEnvelope(r.policy, c).value, c.original, v.approved)
  }

  lemma {:induction false} RigidPromise(a: Assessment, c: ServiceContract, r: Request, v: Verdict)
    requires AssessedAs(a, c, r) && ValidPolicy(r.policy) && IsRigid(a) && v.approved == a.approved
    ensures Promise(v, c, r) && Weakens(c.original, v.approved)
  {
    hide AssessedAs, ValidPolicy, IsMeet, Permits, EffectiveEnvelope, ContractFault, Canonical;
    RigidIsWhole(a, c, r);
    OriginalCanonical(c);
    SupportedIsMeet(r.capability, c.original);
    NoShortfalls(r.capability, c.original);
    PermitsItself(EffectiveEnvelope(r.policy, c).value, c.original);
    WeakensReflexive(c.original);
  }

  lemma {:induction false} FlexPromise(a: Assessment, c: ServiceContract, r: Request, remaining: nat)
    requires AssessedAs(a, c, r) && ValidPolicy(r.policy) && IsFlexible(a) && remaining <= r.capability.bandwidth
    ensures var v := FlexVerdict(a, remaining, r.policy);
      v.admitted ==> Promise(v, c, r) && (Weakens(c.original, v.approved) <==> !SoftBandwidth(c))
  {
    hide AssessedAs, ValidPolicy, IsMeet, Permits, EffectiveEnvelope, FlexVerdict, OfferedSet, Weakens, AllSupported,
         ContractFault;
    AboutContract(a, c, r);
    AssessedIsMeet(a, c, r);
    OfferApproves(a, c, r, remaining);
    FlexVerdictMeaning(a, remaining, r.policy);
  }

  // A verdict admits iff its outcome authorises; an admitted one is a promise, and a
  // lawful weakening unless a soft bandwidth guarantee was hardened.
  lemma {:induction false} VerdictMeaning(r: Request, sorted: seq<ServiceContract>, assessed: seq<Assessment>, i: nat)
    requires Prepared(r, sorted, assessed) && i < |assessed|
    ensures var v, c := Verdicts(assessed, r)[i], sorted[i];
      && (!v.admitted ==> !Authorising(v.outcome))
      && (v.admitted ==> Promise(v, c, r))
      && (v.admitted ==> (Weakens(c.original, v.approved) <==> IsRigid(assessed[i]) || !SoftBandwidth(c)))
      && (v.admitted ==> assessed[i].admissible)
  {
    hide AssessAll, Promise, Weakens, FlexVerdict, ServedFor, FlexFor, SpareFor, SortBy, Assess, ValidPolicy, IdsAscend;
    var a, c, v := assessed[i], sorted[i], Verdicts(assessed, r)[i];
    assert AssessedAs(a, c, r);
    if IsRigid(a) {
      if v.admitted { RigidPromise(a, c, r, v); }
    } else if IsFlexible(a) {
      var room := FlexVerdictOf(r, sorted, assessed, i);
      SpareBounded(assessed, r);
      FlexPromise(a, c, r, room);
      FlexVerdictMeaning(a, room, r.policy);
    } else {
      RefusedIsSilent(a, c, r);
    }
  }

  lemma {:induction false} SpareBounded(assessed: seq<Assessment>, r: Request)
    ensures SpareFor(assessed, r) <= r.capability.bandwidth
  {
    hide RigidUse;
  }

  // What an entry of a returned plan stands for.
  ghost predicate EntryPromise(e: Entry, r: Request) {
    exists c | c in r.contracts ::
      && e.contract == c.id
      && Usable(r.capability)
      && IsMeet(r.capability, c.original, e.approved)
      && AllSupported(r.capability, e.approved)
      && EffectiveEnvelope(r.policy, c).Ok?
      && Permits(EffectiveEnvelope(r.policy, c).value, c.original, e.approved)
      && Weakens(c.original, e.approved)
  }

  ghost predicate EntrySound(e: Entry, r: Request) {
    && (e.admitted <==> Authorising(e.outcome))
    && (e.admitted ==> EntryPromise(e, r))
  }

  lemma {:induction false} IdleEntriesSound(sorted: seq<ServiceContract>, r: Request)
    ensures forall e | e in IdleEntries(sorted, r.scope) :: EntrySound(e, r)
  {
    hide EntryPromise;
    if sorted != [] { IdleEntriesSound(sorted[1..], r); }
  }

  lemma {:induction false} EscalatedEntriesSound(sorted: seq<ServiceContract>, r: Request)
    ensures forall e | e in EscalatedEntries(sorted, r.scope) :: EntrySound(e, r)
  {
    hide EntryPromise;
  }

  lemma {:induction false} EntryForSound(c: ServiceContract, v: Verdict, r: Request)
    requires c in r.contracts && (!v.admitted ==> !Authorising(v.outcome))
    requires v.admitted ==> Promise(v, c, r) && Weakens(c.original, v.approved)
    ensures EntrySound(EntryFor(c, r.scope, v), r)
  {
    hide IsMeet, Permits, EffectiveEnvelope, AllSupported, Weakens, DeltaOf;
  }

  lemma {:induction false} EntriesSound(r: Request, sorted: seq<ServiceContract>, assessed: seq<Assessment>)
    requires Prepared(r, sorted, assessed) && DeltasExist(assessed, r)
    ensures forall e | e in EntriesFor(assessed, r) :: EntrySound(e, r)
  {
    hide AssessAll, Promise, Weakens, EntrySound, EntryFor, Verdicts, SortBy, ValidPolicy, IdsAscend, Assess,
         ContractFault;
    SameElements(sorted, r.contracts);
    var entries, v := EntriesFor(assessed, r), Verdicts(assessed, r);
    forall i | 0 <= i < |entries| ensures EntrySound(entries[i], r) {
      VerdictMeaning(r, sorted, assessed, i);
      assert AssessedAs(assessed[i], sorted[i], r);
      assert sorted[i] in sorted;
      EntryForSound(sorted[i], v[i], r);
    }
  }

  lemma {:induction false} SortedSound(entries: seq<Entry>, sorted: seq<Entry>, r: Request)
    requires multiset(entries) == multiset(sorted) && forall e | e in entries :: EntrySound(e, r)
    ensures forall e | e in sorted :: EntrySound(e, r)
  {
    hide EntrySound;
    SameElements(entries, sorted);
  }

  // Every entry of every returned plan: admitted iff its outcome authorises, and then
  // supported, inside the envelope, and the meet of what was asked and observed.
  lemma {:induction false} EveryEntrySound(r: Request)
    requires Allocate(r).Ok?
    ensures forall e | e in Allocate(r).value.entries :: EntrySound(e, r)
  {
    hide Allocate, Prepared, EntrySound, IdleEntries, EscalatedEntries, EntriesFor, Infeasible, ProofFor, SearchFor,
         RigidUse, Big, DeltasExist, SomeRefused;
    var sorted, assessed := Returned(r);
    IdleEntriesSound(sorted, r);
    var idle := IdleEntries(sorted, r.scope);
    if Infeasible(assessed, r) {
      EscalatedEntriesSound(sorted, r);
      SortedSound(idle + EscalatedEntries(sorted, r.scope), Allocate(r).value.entries, r);
    } else {
      EntriesSound(r, sorted, assessed);
      SortedSound(idle + EntriesFor(assessed, r), Allocate(r).value.entries, r);
    }
  }

  // Under a capability that is not Known nothing is admitted.
  lemma {:induction false} UnknownAdmitsNothing(r: Request)
    requires Allocate(r).Ok? && !Usable(r.capability)
    ensures forall e | e in Allocate(r).value.entries :: !e.admitted
  {
    hide Allocate, Usable, IsMeet, AllSupported, Permits, EffectiveEnvelope, Weakens;
    EveryEntrySound(r);
    forall e | e in Allocate(r).value.entries ensures !e.admitted {
      assert EntrySound(e, r);
    }
  }
}
