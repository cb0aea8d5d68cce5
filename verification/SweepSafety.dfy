// What survives a sweep (sweep_locked in src/runtime/coordinator.cpp): a live grant is
// carried over only when its promise still weakens what the current plan approves, and
// the bandwidth promised that way never exceeds what was observed.
module SweepSafety {
  import opened Core
  import opened Guarantees
  import opened Envelopes
  import opened Contracts
  import opened Assessments
  import opened Allocator
  import opened Grants
  import opened Sorting
  import opened Sums
  import opened Subsets
  import opened PlanAcceptance
  import opened AdmittedService

  // --------------------------------------------------------------------------
  // The decision the sweep takes about one grant
  // --------------------------------------------------------------------------

  datatype SweepVerdict = Untouched | Expire | FenceOff | Reevaluate

  // Only the observed capability moved between the two vectors.
  predicate CapabilityOnly(a: AuthorityVector, b: AuthorityVector) {
    a.term == b.term && a.boot == b.boot && a.policy == b.policy
  }

  // What the authority of a grant comes to before anything is evaluated.
  function Standing(g: Grant, current: AuthorityVector, now: u64): SweepVerdict {
    if now > g.expiresTick then Expire
    else if g.binding.vector == current then Untouched
    else if !CapabilityOnly(g.binding.vector, current) then FenceOff
    else Reevaluate
  }

  // Not expired, and of the authority in force only what was observed has moved.
  predicate OnlyCapabilityMoved(g: Grant, current: AuthorityVector, now: u64) {
    var v := g.binding.vector;
    now <= g.expiresTick && v != current && v.term == current.term && v.boot == current.boot
      && v.policy == current.policy
  }

  // `approved` is what the contract's entry in the current plan approves, if it
  // authorises service at all; it carries a grant whose promise weakens it.
  ghost predicate StillCovers(approved: Option<GuaranteeSet>, g: Grant) {
    approved.Some? && Weakens(approved.value, g.degraded)
  }

  // --------------------------------------------------------------------------
  // Bandwidth behind an entry
  // --------------------------------------------------------------------------

  function BandwidthOf(s: GuaranteeSet): nat {
    match Find(s, Bandwidth)
    case Some(g) => g.value
    case None => 0
  }

  lemma {:induction false} DemandIsBandwidth(c: ServiceContract)
    ensures c.Demand() == BandwidthOf(c.original)
  {
    hide Find;
  }

  lemma {:induction false} WeakeningPromisesLess(a: GuaranteeSet, b: GuaranteeSet)
    requires Weakens(a, b)
    ensures BandwidthOf(b) <= BandwidthOf(a)
  {
    hide Canonical;
    if Find(b, Bandwidth).Some? {
      assert NoStronger(Find(a, Bandwidth).value, Find(b, Bandwidth).value);
      BandwidthIsFloor(a);
    }
  }

  lemma {:induction false} BandwidthIsFloor(s: GuaranteeSet)
    requires Canonical(s)
    ensures Find(s, Bandwidth).Some? ==> Find(s, Bandwidth).value.comparator == AtLeast
  {
    if Find(s, Bandwidth).Some? {
      var i :| 0 <= i < |s| && s[i] == Find(s, Bandwidth).value;
    }
  }

  lemma {:induction false} OfferCovers(a: Assessment, c: ServiceContract, r: Request, remaining: nat)
    requires AssessedAs(a, c, r) && ValidPolicy(r.policy) && IsFlexible(a)
    requires FlexVerdict(a, remaining, r.policy).admitted
    ensures BandwidthOf(FlexVerdict(a, remaining, r.policy).approved) <= FlexVerdict(a, remaining, r.policy).granted
  {
    hide AssessedAs, ValidPolicy, IsMeet, Canonical, Upsert, Find, ServiceContract.Demand, FlexVerdict, Permits,
         EffectiveEnvelope, ContractFault;
    AboutContract(a, c, r);
    AssessedIsMeet(a, c, r);
    FlexVerdictMeaning(a, remaining, r.policy);
    BandwidthBase(c);
    DemandIsBandwidth(c);
    var v := FlexVerdict(a, remaining, r.policy);
    if c.Demand() > 0 {
      UpsertKeepsMeet(r.capability, c.original, a.approved, Guarantee(Bandwidth, AtLeast, Offer(a, remaining), true));
    }
  }

  lemma {:induction false} VerdictCovers(r: Request, sorted: seq<ServiceContract>, assessed: seq<Assessment>, i: nat)
    requires Prepared(r, sorted, assessed) && i < |assessed| && Verdicts(assessed, r)[i].admitted
    ensures BandwidthOf(Verdicts(assessed, r)[i].approved) <= Verdicts(assessed, r)[i].granted
  {
    hide AssessAll, FlexVerdict, ServedFor, FlexFor, SpareFor, SortBy, Assess, ValidPolicy, IdsAscend, BandwidthOf,
         ServiceContract.Demand;
    var a, c := assessed[i], sorted[i];
    assert AssessedAs(a, c, r);
    if IsRigid(a) {
      RigidIsWhole(a, c, r);
      DemandIsBandwidth(c);
    } else {
      var room := FlexVerdictOf(r, sorted, assessed, i);
      OfferCovers(a, c, r, room);
    }
  }

  ghost predicate Covered(e: Entry) {
    e.admitted ==> BandwidthOf(e.approved) <= e.granted
  }

  lemma {:induction false} EntriesCovered(r: Request, sorted: seq<ServiceContract>, assessed: seq<Assessment>)
    requires Prepared(r, sorted, assessed)
    ensures forall e | e in EntriesFor(assessed, r) :: Covered(e)
  {
    hide Prepared, BandwidthOf, Verdicts, DeltaOf;
    var entries, v := EntriesFor(assessed, r), Verdicts(assessed, r);
    forall i | 0 <= i < |entries| ensures Covered(entries[i]) {
      if v[i].admitted { VerdictCovers(r, sorted, assessed, i); }
    }
  }

  // --------------------------------------------------------------------------
  // The plan holds no more than the capacity
  // --------------------------------------------------------------------------

  lemma {:induction false} IdleHoldNothing(sorted: seq<ServiceContract>, scope: u64)
    ensures forall e | e in IdleEntries(sorted, scope) :: !e.admitted && e.granted == 0
  {
    if sorted != [] { IdleHoldNothing(sorted[1..], scope); }
  }

  lemma {:induction false} NoneGranted(entries: seq<Entry>)
    requires forall e | e in entries :: e.granted == 0
    ensures SumBy(GrantedOf, entries) == 0
  {
    if entries != [] {
      assert entries[0] in entries;
      NoneGranted(entries[1..]);
    }
  }

  // Every returned plan covers its promises and stays within the observed capacity.
  ghost predicate Affordable(entries: seq<Entry>, capacity: nat) {
    && (forall e | e in entries :: Covered(e))
    && SumBy(GrantedOf, entries) <= capacity
  }

  lemma {:induction false} AffordableSorted(entries: seq<Entry>, sorted: seq<Entry>, capacity: nat)
    requires Affordable(entries, capacity) && multiset(entries) == multiset(sorted)
    ensures Affordable(sorted, capacity)
  {
    hide Covered, SumBy;
    SameElements(entries, sorted);
    SumPermutes(GrantedOf, entries, sorted);
  }

  lemma {:induction false} EscalatedHoldNothing(sorted: seq<ServiceContract>, scope: u64)
    ensures forall e | e in EscalatedEntries(sorted, scope) :: !e.admitted && e.granted == 0
  {
  }

  lemma {:induction false} JoinedAffordable(idle: seq<Entry>, entries: seq<Entry>, capacity: nat)
    requires (forall e | e in idle :: !e.admitted && e.granted == 0) && Affordable(entries, capacity)
    ensures Affordable(idle + entries, capacity)
  {
    hide BandwidthOf, SumBy;
    NoneGranted(idle);
    SumAppend(GrantedOf, idle, entries);
  }

  lemma {:induction false} PlanAffordable(r: Request)
    requires Allocate(r).Ok?
    ensures Affordable(Allocate(r).value.entries, r.capability.bandwidth)
  {
    hide Allocate, Prepared, IdleEntries, EscalatedEntries, EntriesFor, Infeasible, ProofFor, SearchFor, RigidUse, Big,
         DeltasExist, SomeRefused, SumBy, Covered, SortBy;
    var sorted, assessed := Returned(r);
    var plan, idle := Allocate(r).value, IdleEntries(sorted, r.scope);
    IdleHoldNothing(sorted, r.scope);
    if Infeasible(assessed, r) {
      var entries := EscalatedEntries(sorted, r.scope);
      EscalatedHoldNothing(sorted, r.scope);
      NoneGranted(entries);
      NothingCovered(entries);
      JoinedAffordable(idle, entries, r.capability.bandwidth);
      AffordableSorted(idle + entries, plan.entries, r.capability.bandwidth);
    } else {
      var entries := EntriesFor(assessed, r);
      EntriesCovered(r, sorted, assessed);
      JoinedAffordable(idle, entries, r.capability.bandwidth);
      AffordableSorted(idle + entries, plan.entries, r.capability.bandwidth);
    }
  }

  lemma {:induction false} NothingCovered(entries: seq<Entry>)
    requires forall e | e in entries :: !e.admitted
    ensures forall e | e in entries :: Covered(e)
  {
  }

  // --------------------------------------------------------------------------
  // Grants carried over
  // --------------------------------------------------------------------------

  function PromisedBy(g: Grant): nat {
    BandwidthOf(g.degraded)
  }

  function ContractKey(g: Grant): nat {
    g.binding.contract
  }

  // The current plan has an authorising entry for the grant's contract that the
  // grant's promise weakens.
  ghost predicate Backed(g: Grant, e: Entry, entries: seq<Entry>) {
    e in entries && e.contract == g.binding.contract && e.admitted && Weakens(e.approved, g.degraded)
  }

  lemma {:induction false} SubSum<T>(f: T -> nat, a: seq<T>, b: seq<T>)
    requires SubOf(a, b)
    ensures SumBy(f, a) <= SumBy(f, b)
    decreases |a|
  {
    if a != [] {
      var i := RemoveFirst(a, b);
      SubSum(f, a[1..], b[..i] + b[i + 1..]);
      SumRemove(f, b, i);
    }
  }

  // One entry per grant, in order.
  ghost predicate BackedBy(gs: seq<Grant>, es: seq<Entry>, entries: seq<Entry>) {
    |es| == |gs| && forall i | 0 <= i < |gs| :: Backed(gs[i], es[i], entries)
  }

  lemma {:induction false} BackingIsSub(gs: seq<Grant>, es: seq<Entry>, entries: seq<Entry>)
    requires BackedBy(gs, es, entries) && DistinctBy(ContractKey, gs)
    ensures SubOf(es, entries)
    decreases |gs|
  {
    hide Weakens;
    if gs != [] {
      var rest := es[1..];
      assert forall i | 0 <= i < |gs[1..]| :: gs[1..][i] == gs[i + 1] && rest[i] == es[i + 1];
      BackingIsSub(gs[1..], rest, entries);
      forall i | 0 <= i < |rest| ensures rest[i] != es[0] {
        assert ContractKey(gs[0]) != ContractKey(gs[i + 1]);
        assert Backed(gs[0], es[0], entries) && Backed(gs[i + 1], es[i + 1], entries);
      }
      AddDistinct(es[0], rest, entries);
      assert es == [es[0]] + rest;
    }
  }

  lemma {:induction false} AddDistinct<T>(x: T, rest: seq<T>, xs: seq<T>)
    requires SubOf(rest, xs) && x in xs && (forall i | 0 <= i < |rest| :: rest[i] != x)
    ensures SubOf([x] + rest, xs)
  {
    assert x !in multiset(rest);
    assert x in multiset(xs);
  }

  lemma {:induction false} PromisesBelow(gs: seq<Grant>, es: seq<Entry>, entries: seq<Entry>)
    requires BackedBy(gs, es, entries) && forall e | e in entries :: Covered(e)
    ensures SumBy(PromisedBy, gs) <= SumBy(GrantedOf, es)
    decreases |gs|
  {
    hide BandwidthOf, Weakens;
    if gs != [] {
      assert forall i | 0 <= i < |gs[1..]| :: gs[1..][i] == gs[i + 1] && es[1..][i] == es[i + 1];
      PromisesBelow(gs[1..], es[1..], entries);
      assert Backed(gs[0], es[0], entries);
      WeakeningPromisesLess(es[0].approved, gs[0].degraded);
      assert Covered(es[0]);
    }
  }

  // Grants carried over by a sweep, one per contract, promise together no more
  // bandwidth than the snapshot observed.
  lemma {:induction false} SweptPromisesFit(r: Request, gs: seq<Grant>, es: seq<Entry>)
    requires Allocate(r).Ok? && BackedBy(gs, es, Allocate(r).value.entries) && DistinctBy(ContractKey, gs)
    ensures SumBy(PromisedBy, gs) <= r.capability.bandwidth
  {
    hide Allocate, BackedBy, DistinctBy, SumBy, Covered;
    var entries := Allocate(r).value.entries;
    PlanAffordable(r);
    BackingIsSub(gs, es, entries);
    PromisesBelow(gs, es, entries);
    SubSum(GrantedOf, es, entries);
  }

  // What a sweep consults for a contract: the approved set of its entry.
  ghost predicate ApprovedFor(contract: u64, approved: Option<GuaranteeSet>, entries: seq<Entry>) {
    approved.Some? ==> exists e | e in entries ::
      e.contract == contract && Authorising(e.outcome) && e.approved == approved.value
  }

  // A grant carried over is backed.
  lemma {:induction false} CarriedIsBacked(r: Request, g: Grant, approved: Option<GuaranteeSet>) returns (e: Entry)
    requires Allocate(r).Ok? && ApprovedFor(g.binding.contract, approved, Allocate(r).value.entries)
    requires StillCovers(approved, g)
    ensures Backed(g, e, Allocate(r).value.entries)
  {
    hide Allocate, Weakens, EntryPromise;
    EveryEntrySound(r);
    e :| e in Allocate(r).value.entries && e.contract == g.binding.contract && Authorising(e.outcome)
      && e.approved == approved.value;
    assert EntrySound(e, r);
  }
}
