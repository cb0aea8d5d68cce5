// The coordinator's operations on grants (src/runtime/coordinator.cpp,
// include/dmf/ids.hpp).
//
// The coordinator finds grants through its index and commits records through the store.
// A commit may prune, and pruning may drop ended grants; the index is not told. Each
// operation is proved to keep the identities in order whatever retention drops, and to
// keep the index exact as long as it drops nothing.
module Coordinators {
  import opened Core
  import opened Guarantees
  import opened Contracts
  import opened Assessments
  import opened Grants
  import opened Store
  import opened Closure
  import opened Replay
  import opened GrantTables
  import opened Sorting
  import opened Sums
  import opened Subsets

  // --------------------------------------------------------------------------
  // Identity allocation
  // --------------------------------------------------------------------------

  // Zero stands for an exhausted allocator.
  function Successor(next: u64): u64 {
    if next == 0 || next == U64_MAX then 0 else next + 1
  }

  function Observed(next: u64, high: u64): u64 {
    if high == 0 || next == 0 then next
    else if high == U64_MAX then 0
    else Max(next, high + 1)
  }

  // Everything still to be allocated lies above x.
  predicate Above(next: u64, x: u64) {
    next == 0 || next > x
  }

  class IdAllocator {
    var next: u64

    constructor (start: u64)
      ensures next == start
    {
      next := start;
    }

    method Allocate() returns (id: Option<u64>)
      modifies this
      ensures id == if old(next) == 0 then None else Some(old(next))
      ensures next == Successor(old(next)) && Above(next, old(next))
    {
      if next == 0 { return None; }
      id := Some(next);
      var advanced := CheckedAdd(next, 1);
      next := if advanced.Some? then advanced.value else 0;
    }

    // Moves past a durable high-water mark, never backwards.
    method Observe(high: u64)
      modifies this
      ensures next == Observed(old(next), high)
      ensures Above(next, high) && forall x: u64 | Above(old(next), x) :: Above(next, x)
    {
      if high == 0 { return; }
      var candidate := CheckedAdd(high, 1);
      var observed: u64 := if candidate.Some? then candidate.value else 0;
      if next == 0 { return; }
      if observed == 0 || observed > next { next := observed; }
    }
  }

  // --------------------------------------------------------------------------
  // What retention does to the grants
  // --------------------------------------------------------------------------

  ghost predicate IdsClimb(gs: seq<Grant>) {
    forall i, j | 0 <= i < j < |gs| :: gs[i].id < gs[j].id
  }

  ghost predicate IdsBelow(gs: seq<Grant>, high: u64) {
    forall g | g in gs :: g.id <= high
  }

  lemma {:induction false} ClimbIsDistinct(gs: seq<Grant>)
    requires IdsClimb(gs)
    ensures DistinctBy(GrantKey, gs)
  {
  }

  lemma {:induction false} CountIsFilter(gs: seq<Grant>)
    ensures Count(IsLive, gs) == |Filter(IsLive, gs)|
  {
    if gs != [] { CountIsFilter(gs[1..]); }
  }

  // A store within its retention bound drops nothing when it is pruned.
  lemma {:induction false} NothingDropped(gs: seq<Grant>, cfg: Config)
    requires |gs| <= cfg.maxGrants
    ensures Dropped(gs, cfg) == 0
  {
    hide SortBy;
    LiveAndEnded(gs);
    SameElements(gs, Filter(IsLive, gs) + Filter(IsEnded, gs));
    CountIsFilter(gs);
  }

  // Pruning that drops nothing leaves the grants where they are.
  lemma {:induction false} GrantsStay(gs: seq<Grant>, cfg: Config)
    requires IdsClimb(gs) && Dropped(gs, cfg) == 0
    ensures KeptGrants(gs, cfg) == gs
  {
    hide KeptGrants, Dropped, DistinctBy, StrictTotal, SortBy;
    var gone := RetentionSplits(gs, cfg);
    var kept := KeptGrants(gs, cfg);
    assert kept + gone == kept;
    ClimbIsDistinct(gs);
    KeyOrderTotal(GrantKey, GrantBefore, gs);
    KeptIsSorted(gs, cfg);
    ClimbIsSorted(gs);
    SortedIsUnique(GrantBefore, multiset(gs), kept, gs);
  }

  lemma {:induction false} ClimbIsSorted(gs: seq<Grant>)
    requires IdsClimb(gs)
    ensures Sorted(GrantBefore, gs)
  {
  }

  lemma {:induction false} SortedClimbs(gs: seq<Grant>)
    requires Sorted(GrantBefore, gs) && DistinctBy(GrantKey, gs)
    ensures IdsClimb(gs)
  {
    forall i, j | 0 <= i < j < |gs| ensures gs[i].id < gs[j].id {
      assert !GrantBefore(gs[j], gs[i]) && GrantKey(gs[i]) != GrantKey(gs[j]);
    }
  }

  lemma {:induction false} SortedById(gs: seq<Grant>)
    ensures Sorted(GrantBefore, SortBy(GrantBefore, gs))
  {
    SortByWeak(GrantBefore, gs);
  }

  lemma {:induction false} KeptIsSorted(gs: seq<Grant>, cfg: Config)
    ensures Sorted(GrantBefore, KeptGrants(gs, cfg))
  {
    hide Sorted, SortBy, Count;
    SortedById(Filter(IsLive, gs) + EndedByAge(gs)[..|EndedByAge(gs)| - Dropped(gs, cfg)]);
  }

  // hs is gs with some ended grants taken out.
  ghost predicate Remains(hs: seq<Grant>, gs: seq<Grant>) {
    && (forall h | h in hs :: h in gs)
    && (forall g | g in gs && IsLive(g) :: g in hs)
    && multiset(Filter(IsLive, hs)) == multiset(Filter(IsLive, gs))
  }

  lemma {:induction false} AllRemain(gs: seq<Grant>)
    ensures Remains(gs, gs)
  {
  }

  lemma {:induction false} RemainsTwice(a: seq<Grant>, b: seq<Grant>, c: seq<Grant>)
    requires Remains(a, b) && Remains(b, c)
    ensures Remains(a, c)
  {
    hide Filter;
  }

  lemma {:induction false} RemainsCounted(hs: seq<Grant>, gs: seq<Grant>)
    requires Remains(hs, gs)
    ensures Count(IsLive, hs) == Count(IsLive, gs)
  {
    hide Filter, Count;
    CountIsFilter(hs);
    CountIsFilter(gs);
    SameElements(Filter(IsLive, hs), Filter(IsLive, gs));
  }

  lemma {:induction false} RemainsBelow(hs: seq<Grant>, gs: seq<Grant>, high: u64)
    requires Remains(hs, gs) && IdsBelow(gs, high)
    ensures IdsBelow(hs, high)
  {
    hide Filter;
  }

  lemma {:induction false} NotBoth()
    ensures forall g: Grant :: IsLive(g) <==> !IsEnded(g)
  {
  }

  // Retention keeps every live grant and the order of identities.
  lemma {:induction false} KeptRemains(gs: seq<Grant>, cfg: Config)
    requires IdsClimb(gs)
    ensures Remains(KeptGrants(gs, cfg), gs) && IdsClimb(KeptGrants(gs, cfg))
  {
    hide KeptGrants, Dropped, IdsClimb, IsLive, IsEnded, Filter;
    var kept := KeptGrants(gs, cfg);
    var gone := RetentionSplits(gs, cfg);
    SameElements(gs, kept + gone);
    NotBoth();
    LiveOfKept(gs, kept, gone);
    KeptIsSorted(gs, cfg);
    ClimbIsDistinct(gs);
    assert SubOf(kept, gs);
    DistinctBySub(GrantKey, kept, gs);
    SortedClimbs(kept);
  }

  lemma {:induction false} LiveOfKept(gs: seq<Grant>, kept: seq<Grant>, gone: seq<Grant>)
    requires multiset(gs) == multiset(kept + gone) && forall g | g in gone :: IsEnded(g)
    ensures multiset(Filter(IsLive, kept)) == multiset(Filter(IsLive, gs))
  {
    hide Filter;
    FilterPermutes(IsLive, gs, kept + gone);
    FilterAppend(IsLive, kept, gone);
    FilterNone(IsLive, gone);
    assert Filter(IsLive, kept) + [] == Filter(IsLive, kept);
  }

  // --------------------------------------------------------------------------
  // Committing a record
  // --------------------------------------------------------------------------

  // The run's surroundings: configuration, and whether the retained-evidence bound was
  // met when the n-th record was appended.
  datatype Env = Env(cfg: Config, full: nat -> bool)

  function Commit(s: Durable, r: Record, env: Env): Effect {
    Append(s, r, env.full(s.journalRecords), env.cfg)
  }

  // The state once the record has its number.
  function Numbered(s: Durable): Durable {
    s.(journalSequence := s.journalSequence + 1, journalRecords := s.journalRecords + 1)
  }

  // No grant was dropped between the two states.
  predicate Undropped(a: Durable, b: Durable) {
    b.counters.pruned == a.counters.pruned
  }

  // If this commit prunes, the pruning drops no grant.
  predicate DropsNothing(s: Durable, r: Record, env: Env) {
    var a := Apply(Numbered(s), r, env.cfg);
    var pruning := a.status.None? && (Overfull(a.state, env.cfg) || env.full(s.journalRecords));
    pruning ==> Dropped(a.state.grants, env.cfg) == 0
  }

  lemma {:induction false} NumberedRoomy(s: Durable)
    requires Sound(s) && s.journalRecords < U64_MAX
    ensures Roomy(Numbered(s)) && Sound(Numbered(s))
  {
    hide Count, DecisionSum, Ended;
  }

  lemma {:induction false} KeepsSound(n: Durable, e: Effect)
    requires Roomy(n) && Sound(n) && Keeps(n, e)
    ensures Sound(e.state)
  {
    hide Closed, Within;
  }

  lemma {:induction false} KeepsMeans(n: Durable, e: Effect)
    requires Keeps(n, e)
    ensures e.status.Some? ==> e.state == n
  {
    hide Closed, Within;
  }

  // The parts of the state that decide which grants exist and which identities are taken.
  ghost predicate SameGrants(a: Durable, b: Durable) {
    && a.grants == b.grants && a.grantHigh == b.grantHigh && a.fenceHigh == b.fenceHigh
    && a.boot == b.boot && a.term == b.term
  }

  // Only pruning counts pruned grants.
  lemma {:induction false} ApplyPrunesNothing(s: Durable, r: Record, cfg: Config)
    requires Admissible(r, s)
    ensures Undropped(s, Apply(s, r, cfg).state)
  {
    hide GrantAt, ContractAt, Count;
  }

  lemma {:induction false} PruneCounts(s: Durable, cfg: Config)
    requires Sound(s)
    ensures var e := Prune(s, cfg);
      && e.status.None? && Sound(e.state) && e.state.grants == KeptGrants(s.grants, cfg)
      && e.state.counters.pruned == s.counters.pruned + Dropped(s.grants, cfg)
      && e.state.grantHigh == s.grantHigh && e.state.fenceHigh == s.fenceHigh
      && e.state.boot == s.boot && e.state.term == s.term
  {
    hide KeptGrants, Dropped, SortBy, Sound;
    PruneKeeps(s, cfg);
  }

  // Everything a commit can do: apply its record and then possibly prune, or leave the
  // grants alone.
  lemma {:induction false} CommitCases(s: Durable, r: Record, env: Env)
    requires Sound(s) && Admissible(r, Numbered(s))
    ensures var a, e := Apply(Numbered(s), r, env.cfg), Commit(s, r, env);
      && Sound(e.state)
      && (e.status.Some? ==> SameGrants(e.state, s) && Undropped(s, e.state))
      && (e.status.None? ==> a.status.None? && Sound(a.state) && Undropped(s, a.state))
      && (e.status.None? && !(Overfull(a.state, env.cfg) || env.full(s.journalRecords)) ==> e.state == a.state)
      && (e.status.None? && (Overfull(a.state, env.cfg) || env.full(s.journalRecords)) ==>
            (&& SameGrants(e.state, a.state.(grants := KeptGrants(a.state.grants, env.cfg)))
             && e.state.counters.pruned == s.counters.pruned + Dropped(a.state.grants, env.cfg)))
  {
    hide Apply, Prune, Overfull, Sound, Roomy, Keeps, Admissible, KeptGrants, Dropped;
    if s.journalSequence < U64_MAX && s.journalRecords < U64_MAX {
      var n := Numbered(s);
      NumberedRoomy(s);
      ApplyKeeps(n, r, env.cfg);
      ApplyPrunesNothing(n, r, env.cfg);
      var a := Apply(n, r, env.cfg);
      KeepsSound(n, a);
      KeepsMeans(n, a);
      if a.status.None? { PruneCounts(a.state, env.cfg); }
    }
  }

  // The pruned counter never goes back, and stands still exactly under the guard.
  lemma {:induction false} DropGuard(s: Durable, r: Record, env: Env)
    requires Sound(s) && Admissible(r, Numbered(s))
    ensures s.counters.pruned <= Commit(s, r, env).state.counters.pruned
    ensures Commit(s, r, env).status.None? ==> (Undropped(s, Commit(s, r, env).state) <==> DropsNothing(s, r, env))
  {
    hide Apply, Commit, Overfull, Sound, Admissible, KeptGrants, Dropped;
    CommitCases(s, r, env);
  }

  // A commit that drops nothing applies its record and moves no grant, or leaves the
  // grants alone.
  lemma {:induction false} CommitMeans(s: Durable, r: Record, env: Env)
    requires Sound(s) && Admissible(r, Numbered(s)) && Undropped(s, Commit(s, r, env).state)
    requires var a := Apply(Numbered(s), r, env.cfg); a.status.None? ==> IdsClimb(a.state.grants)
    ensures var a, e := Apply(Numbered(s), r, env.cfg), Commit(s, r, env);
      && Sound(e.state)
      && (e.status.None? ==> a.status.None? && SameGrants(e.state, a.state))
      && (e.status.Some? ==> SameGrants(e.state, s))
  {
    hide Apply, Commit, Overfull, IdsClimb, Sound, Admissible, KeptGrants, Dropped;
    CommitCases(s, r, env);
    var a := Apply(Numbered(s), r, env.cfg);
    if a.status.None? && Dropped(a.state.grants, env.cfg) == 0 { GrantsStay(a.state.grants, env.cfg); }
  }

  // Any commit applies its record and takes out ended grants at most, or leaves the
  // grants alone.
  lemma {:induction false} CommitRemains(s: Durable, r: Record, env: Env)
    requires Sound(s) && Admissible(r, Numbered(s))
    requires var a := Apply(Numbered(s), r, env.cfg); a.status.None? ==> IdsClimb(a.state.grants)
    ensures var a, e := Apply(Numbered(s), r, env.cfg), Commit(s, r, env);
      && Sound(e.state)
      && (e.status.None? ==> (&& a.status.None? && Remains(e.state.grants, a.state.grants) && IdsClimb(e.state.grants)
                              && e.state.grantHigh == a.state.grantHigh))
      && (e.status.Some? ==> SameGrants(e.state, s))
  {
    hide Apply, Commit, Overfull, IdsClimb, Sound, Admissible, KeptGrants, Dropped, Remains;
    CommitCases(s, r, env);
    var a := Apply(Numbered(s), r, env.cfg);
    if a.status.None? {
      AllRemain(a.state.grants);
      KeptRemains(a.state.grants, env.cfg);
    }
  }

  // --------------------------------------------------------------------------
  // The coordinator's operations on grants
  // --------------------------------------------------------------------------

  datatype Coord = Coord(state: Durable, index: map<u64, nat>, nextGrant: u64, nextAttempt: u64, nextFence: u64)

  datatype Reply = Accepted(grant: Grant) | Declined(error: ErrorCode)

  function CurrentVector(s: Durable): AuthorityVector {
    AuthorityVector(s.term, s.boot, s.fabricGeneration, s.capacityGeneration,
                    if s.policy.Some? then s.policy.value.generation else 0, s.evidenceGeneration)
  }

  // fence_grant_locked.
  function FenceGrant(c: Coord, id: u64, kind: EndKind, now: u64, env: Env): (Coord, Option<ErrorCode>) {
    match Lookup(c.index, c.state.grants, id)
    case None => (c, Some(NotFound))
    case Some(g) =>
      if !g.Live() then (c, Some(InvalidState))
      else if c.nextFence == 0 then (c, Some(Exhausted))
      else
        var fence := Fence(c.nextFence, id, g.binding, g.binding.(vector := CurrentVector(c.state)), now);
        var e := Commit(c.state, GrantEnded(kind, fence), env);
        (c.(state := e.state, nextFence := Successor(c.nextFence)), e.status)
  }

  // A report on a grant it may move: a new attempt, one record, and what then stands at
  // the indexed position.
  function MoveFound(c: Coord, next: GrantState, id: u64, g: Grant, now: u64, env: Env): (Coord, Reply) {
    var taken := c.(nextAttempt := Successor(c.nextAttempt));
    if c.nextAttempt == 0 || g.sequence == U64_MAX then (taken, Declined(Exhausted))
    else
      var record := if next.Acknowledged? then GrantAcknowledged(id, now, c.nextAttempt, g.sequence + 1)
                    else GrantApplied(id, now, c.nextAttempt, g.sequence + 1);
      var e := Commit(c.state, record, env);
      var done := taken.(state := e.state);
      if e.status.Some? then (done, Declined(e.status.value))
      else
        match Lookup(done.index, done.state.grants, id)
        case None => (done, Declined(NotFound))
        case Some(updated) => (done, Accepted(updated))
  }

  // acknowledge_locked and report_applied_locked, which differ only in the state they
  // move the grant to.
  function ReportGrant(c: Coord, next: GrantState, id: u64, attempt: u64, now: u64, env: Env): (Coord, Reply) {
    match Lookup(c.index, c.state.grants, id)
    case None => (c, Declined(NotFound))
    case Some(g) =>
      if !g.Live() then (c, Declined(InvalidState))
      else if now > g.expiresTick then (FenceGrant(c, id, ByExpiry, now, env).0, Declined(Stale))
      else if attempt == 0 || attempt != g.lastAttempt then (c, Declined(ReplayDetected))
      else if !Allowed(g.state, next) then (c, Declined(InvalidState))
      else MoveFound(c, next, id, g, now, env)
  }

  // What an authorising decision offers.
  datatype Offer = Offer(binding: Binding, original: GuaranteeSet, degraded: GuaranteeSet, expires: u64)

  // acquire_locked, past its evaluation.
  function AcquireGrant(c: Coord, offer: Offer, now: u64, maxLive: nat, env: Env): (Coord, Reply) {
    if Count(IsLive, c.state.grants) >= maxLive then (c, Declined(Exhausted))
    else
      var taken := c.(nextGrant := Successor(c.nextGrant), nextAttempt := Successor(c.nextAttempt));
      if c.nextGrant == 0 || c.nextAttempt == 0 then (taken, Declined(Exhausted))
      else
        var g := Grant(c.nextGrant, offer.binding, offer.original, offer.degraded, 1, c.nextAttempt, now, offer.expires,
                       now, Issued);
        var e := Commit(c.state, GrantIssued(g), env);
        var done := taken.(state := e.state);
        if e.status.Some? then (done, Declined(e.status.value))
        else if g.id in c.index then (done, Declined(AlreadyExists))
        else (done.(index := c.index[g.id := |c.index|]), Accepted(g))
  }

  // acquire_locked: the evaluation, if it gets that far, commits its decision before
  // anything is issued.
  function ObtainGrant(c: Coord, decided: Result<Decision>, offer: Offer, now: u64, maxLive: nat, env: Env)
    : (Coord, Reply)
  {
    match decided
    case Err(e) => (c, Declined(e))
    case Ok(decision) =>
      var status := Commit(c.state, DecisionRecorded(decision), env).status;
      var next := CommitNeutral(c, DecisionRecorded(decision), env);
      if status.Some? then (next, Declined(status.value))
      else if !Authorising(decision.outcome) then (next, Declined(Refused))
      else AcquireGrant(next, offer, now, maxLive, env)
  }

  // A record that touches no grant, or only a live grant's binding.
  predicate Neutral(r: Record) {
    !r.GrantIssued? && !r.GrantAcknowledged? && !r.GrantApplied? && !r.GrantEnded? && !r.BootAdvanced?
      && !r.AccountingCheckpoint?
  }

  function CommitNeutral(c: Coord, r: Record, env: Env): Coord {
    c.(state := Commit(c.state, r, env).state)
  }

  // --------------------------------------------------------------------------
  // What every operation keeps
  // --------------------------------------------------------------------------

  ghost predicate AttemptsBelow(gs: seq<Grant>, next: u64) {
    forall g | g in gs && g.Live() :: g.lastAttempt != 0 && Above(next, g.lastAttempt)
  }

  ghost predicate IndexedBelow(index: map<u64, nat>, high: u64) {
    forall id | id in index :: id <= high
  }

  // Identities climb, and whatever is allocated next is new. Every operation keeps this,
  // whether or not retention drops grants.
  ghost predicate Orderly(c: Coord) {
    && Sound(c.state)
    && IdsClimb(c.state.grants)
    && IdsBelow(c.state.grants, c.state.grantHigh)
    && IndexedBelow(c.index, c.state.grantHigh)
    && Above(c.nextGrant, c.state.grantHigh)
  }

  // And the index mirrors the grants, and attempts handed out are behind the allocator.
  // Every operation that drops no grant keeps this.
  ghost predicate Good(c: Coord) {
    Orderly(c) && Indexes(c.index, c.state.grants) && AttemptsBelow(c.state.grants, c.nextAttempt)
  }

  lemma {:induction false} OrderlyParts(c: Coord)
    requires Orderly(c)
    ensures Sound(c.state) && IdsClimb(c.state.grants) && IdsBelow(c.state.grants, c.state.grantHigh)
    ensures Above(c.nextGrant, c.state.grantHigh)
  {
    hide Sound, IdsClimb, IdsBelow;
  }

  lemma {:induction false} GoodParts(c: Coord)
    requires Good(c)
    ensures Orderly(c) && Indexes(c.index, c.state.grants) && AttemptsBelow(c.state.grants, c.nextAttempt)
    ensures Sound(c.state) && IdsClimb(c.state.grants) && IdsBelow(c.state.grants, c.state.grantHigh)
  {
    hide Sound, IdsClimb, IdsBelow, Indexes, AttemptsBelow;
  }

  // In a good state the index finds exactly the grant with the identity.
  lemma {:induction false} FindsIt(c: Coord, id: u64)
    requires Good(c)
    ensures Lookup(c.index, c.state.grants, id) == ScanFor(c.state.grants, id)
  {
    hide Sound, IdsBelow, AttemptsBelow, Lookup, ScanFor, IndexedBelow;
    ClimbIsDistinct(c.state.grants);
    AgreesWhenAligned(c.index, c.state.grants, c.state.grants, id);
  }

  lemma {:induction false} ClimbUpdate(gs: seq<Grant>, i: nat, g: Grant)
    requires IdsClimb(gs) && i < |gs| && g.id == gs[i].id
    ensures IdsClimb(gs[i := g])
  {
    var t := gs[i := g];
    assert forall k | 0 <= k < |t| :: t[k].id == gs[k].id;
  }

  lemma {:induction false} BelowUpdate(gs: seq<Grant>, i: nat, g: Grant, high: u64)
    requires IdsBelow(gs, high) && i < |gs| && g.id == gs[i].id
    ensures IdsBelow(gs[i := g], high)
  {
    assert gs[i] in gs;
  }

  lemma {:induction false} AttemptsUpdate(gs: seq<Grant>, i: nat, g: Grant, next: u64, later: u64)
    requires AttemptsBelow(gs, next) && i < |gs| && (later == next || later == Successor(next))
    requires g.Live() ==> g.lastAttempt != 0 && Above(later, g.lastAttempt)
    ensures AttemptsBelow(gs[i := g], later)
  {
    forall x | x in gs[i := g] && x.Live() ensures x.lastAttempt != 0 && Above(later, x.lastAttempt) {
      assert x == g || x in gs;
    }
  }

  lemma {:induction false} LiveAttempt(c: Coord, i: nat)
    requires Good(c) && i < |c.state.grants| && c.state.grants[i].Live()
    ensures c.state.grants[i].lastAttempt != 0 && Above(c.nextAttempt, c.state.grants[i].lastAttempt)
  {
    hide Orderly, Indexes;
    assert c.state.grants[i] in c.state.grants;
  }

  // Nothing about grants changed but what has been allocated.
  lemma {:induction false} OrderlySame(c: Coord, d: Coord)
    requires Orderly(c) && Sound(d.state) && d.state.grants == c.state.grants && d.state.grantHigh == c.state.grantHigh
    requires d.index == c.index && (d.nextGrant == c.nextGrant || d.nextGrant == Successor(c.nextGrant))
    requires d.nextAttempt == c.nextAttempt || d.nextAttempt == Successor(c.nextAttempt)
    ensures Orderly(d) && (Good(c) ==> Good(d))
  {
    hide Sound, Indexes, IdsClimb;
  }

  // --------------------------------------------------------------------------
  // Records as changes to one grant
  // --------------------------------------------------------------------------

  // The state after, seen from before: grant i became g, nothing else about grants moved.
  ghost predicate Became(s: Durable, e: Effect, i: nat, g: Grant) {
    i < |s.grants| && e.state.grants == s.grants[i := g] && e.state.grantHigh == s.grantHigh && g.id == s.grants[i].id
  }

  lemma {:induction false} EndedBecomes(s: Durable, k: EndKind, f: Fence, cfg: Config)
    ensures var e, i := Apply(s, GrantEnded(k, f), cfg), GrantAt(s.grants, f.grant);
      e.status.None? ==>
        (&& i < |s.grants| && s.grants[i].Live()
         && Became(s, e, i, Transitioned(s.grants[i], EndState(k), f.tick, 0, 0)))
  {
    hide GrantAt;
  }

  lemma {:induction false} ReportBecomes(s: Durable, next: GrantState, id: u64, tick: u64, attempt: u64, sequence: u64)
    ensures var e, i := ApplyMoved(s, id, next, tick, attempt, sequence), GrantAt(s.grants, id);
      e.status.None? ==>
        i < |s.grants| && s.grants[i].Live()
          && Became(s, e, i, Transitioned(s.grants[i], next, tick, attempt, sequence))
  {
    hide GrantAt;
  }

  lemma {:induction false} ReboundBecomes(s: Durable, id: u64, b: Binding)
    ensures var e, i := ApplyRebound(s, id, b), GrantAt(s.grants, id);
      e.status.None? ==> i < |s.grants| && s.grants[i].Live() && Became(s, e, i, s.grants[i].(binding := b))
  {
    hide GrantAt;
  }

  // One commit that changes one grant.
  ghost predicate Changes(c: Coord, r: Record, env: Env, i: nat, g: Grant, d: Coord) {
    && Admissible(r, Numbered(c.state))
    && (var a := Apply(Numbered(c.state), r, env.cfg); a.status.None? ==> Became(Numbered(c.state), a, i, g))
    && d.state == Commit(c.state, r, env).state && d.index == c.index && d.nextGrant == c.nextGrant
    && (d.nextAttempt == c.nextAttempt || d.nextAttempt == Successor(c.nextAttempt))
  }

  // It keeps the coordinator orderly, whatever retention takes out.
  lemma {:induction false} ChangeOrderly(c: Coord, r: Record, env: Env, i: nat, g: Grant, d: Coord)
    requires Orderly(c) && Changes(c, r, env, i, g, d)
    ensures Orderly(d) && d.state.grantHigh == c.state.grantHigh
    ensures Commit(c.state, r, env).status.None? ==>
      i < |c.state.grants| && Remains(d.state.grants, c.state.grants[i := g])
    ensures Commit(c.state, r, env).status.Some? ==> d.state.grants == c.state.grants
  {
    hide Apply, Commit, Sound, Admissible, Remains;
    var gs, a := c.state.grants, Apply(Numbered(c.state), r, env.cfg);
    if a.status.None? { ClimbUpdate(gs, i, g); }
    CommitRemains(c.state, r, env);
    if Commit(c.state, r, env).status.None? {
      BelowUpdate(gs, i, g, c.state.grantHigh);
      RemainsBelow(d.state.grants, gs[i := g], c.state.grantHigh);
    } else {
      OrderlySame(c, d);
    }
  }

  // It keeps a good coordinator good if nothing was dropped.
  lemma {:induction false} ChangeGood(c: Coord, r: Record, env: Env, i: nat, g: Grant, d: Coord)
    requires Good(c) && Changes(c, r, env, i, g, d) && Undropped(c.state, d.state)
    requires g.Live() ==> g.lastAttempt != 0 && Above(d.nextAttempt, g.lastAttempt)
    ensures Good(d) && d.state.grantHigh == c.state.grantHigh && |d.state.grants| == |c.state.grants|
    ensures Commit(c.state, r, env).status.None? ==> i < |c.state.grants| && d.state.grants == c.state.grants[i := g]
    ensures Commit(c.state, r, env).status.Some? ==> d.state.grants == c.state.grants
  {
    hide Apply, Commit, Sound, Indexes, Admissible, Orderly, IdsClimb, AttemptsBelow, Remains;
    GoodParts(c);
    ChangeOrderly(c, r, env, i, g, d);
    var a := Apply(Numbered(c.state), r, env.cfg);
    if a.status.None? { ClimbUpdate(c.state.grants, i, g); }
    CommitMeans(c.state, r, env);
    if Commit(c.state, r, env).status.None? {
      IndexesUpdate(c.index, c.state.grants, i, g);
      AttemptsUpdate(c.state.grants, i, g, c.nextAttempt, d.nextAttempt);
    } else {
      OrderlySame(c, d);
    }
  }

  // --------------------------------------------------------------------------
  // Fencing
  // --------------------------------------------------------------------------

  // The change a fence commits to the grant with the identity.
  lemma {:induction false} FenceChanges(c: Coord, id: u64, f: Fence, kind: EndKind, now: u64, env: Env, d: Coord)
    requires f.grant == id && f.tick == now
    requires d.state == Commit(c.state, GrantEnded(kind, f), env).state && d.index == c.index
    requires d.nextGrant == c.nextGrant && d.nextAttempt == c.nextAttempt
    ensures var i := GrantAt(c.state.grants, id);
      i < |c.state.grants| ==>
        Changes(c, GrantEnded(kind, f), env, i, Transitioned(c.state.grants[i], EndState(kind), now, 0, 0), d)
    ensures GrantAt(c.state.grants, id) == |c.state.grants| ==>
      Apply(Numbered(c.state), GrantEnded(kind, f), env.cfg).status.Some?
  {
    hide Commit, GrantAt, Apply;
    EndedBecomes(Numbered(c.state), kind, f, env.cfg);
  }

  // A record that does not apply changes nothing.
  lemma {:induction false} RefusedSame(c: Coord, r: Record, env: Env, d: Coord)
    requires Orderly(c) && Admissible(r, Numbered(c.state)) && Apply(Numbered(c.state), r, env.cfg).status.Some?
    requires d.state == Commit(c.state, r, env).state && d.index == c.index && d.nextGrant == c.nextGrant
    requires d.nextAttempt == c.nextAttempt || d.nextAttempt == Successor(c.nextAttempt)
    ensures Commit(c.state, r, env).status.Some? && Orderly(d) && (Good(c) ==> Good(d))
    ensures d.state.grants == c.state.grants && d.state.grantHigh == c.state.grantHigh && Undropped(c.state, d.state)
  {
    hide Apply, Commit, Sound, Admissible, Good, Orderly;
    OrderlyParts(c);
    CommitCases(c.state, r, env);
    OrderlySame(c, d);
  }

  function FenceFor(c: Coord, g: Grant, id: u64, now: u64): Fence
    requires c.nextFence != 0
  {
    Fence(c.nextFence, id, g.binding, g.binding.(vector := CurrentVector(c.state)), now)
  }

  // Fencing under any index: orderly, and on success the grant with the identity, live
  // until then, has ended.
  lemma {:induction false} FenceOrderly(c: Coord, id: u64, kind: EndKind, now: u64, env: Env)
    requires Orderly(c)
    ensures var (d, status) := FenceGrant(c, id, kind, now, env);
      var i := GrantAt(c.state.grants, id);
      && Orderly(d) && d.state.grantHigh == c.state.grantHigh && d.index == c.index
      && d.nextAttempt == c.nextAttempt && d.nextGrant == c.nextGrant
      && (status.None? ==>
            (&& i < |c.state.grants| && c.state.grants[i].Live()
             && Remains(d.state.grants,
                  c.state.grants[i := Transitioned(c.state.grants[i], EndState(kind), now, 0, 0)])))
      && (status.Some? ==> d.state.grants == c.state.grants)
      && c.state.counters.pruned <= d.state.counters.pruned
  {
    hide Orderly, Apply, Commit, GrantAt, Remains, Changes;
    OrderlyParts(c);
    var found := Lookup(c.index, c.state.grants, id);
    if found.Some? && found.value.Live() && c.nextFence != 0 {
      var fence := FenceFor(c, found.value, id, now);
      var r := GrantEnded(kind, fence);
      var d := FenceGrant(c, id, kind, now, env).0;
      var i := GrantAt(c.state.grants, id);
      FenceChanges(c, id, fence, kind, now, env, d);
      EndedBecomes(Numbered(c.state), kind, fence, env.cfg);
      DropGuard(c.state, r, env);
      CommitCases(c.state, r, env);
      if i < |c.state.grants| {
        ChangeOrderly(c, r, env, i, Transitioned(c.state.grants[i], EndState(kind), now, 0, 0), d);
      } else {
        RefusedSame(c, r, env, d);
      }
    }
  }

  // Fencing from a good state without dropping: exactly the named live grant ends.
  lemma {:induction false} FenceStep(c: Coord, id: u64, kind: EndKind, now: u64, env: Env)
    requires Good(c) && Undropped(c.state, FenceGrant(c, id, kind, now, env).0.state)
    ensures var (d, status) := FenceGrant(c, id, kind, now, env);
      var i := GrantAt(c.state.grants, id);
      && Good(d) && |d.state.grants| == |c.state.grants| && d.state.grantHigh == c.state.grantHigh
      && (status.None? ==>
            (&& i < |c.state.grants| && c.state.grants[i].Live()
             && d.state.grants == c.state.grants[i := Transitioned(c.state.grants[i], EndState(kind), now, 0, 0)]))
      && (status.Some? ==> d.state.grants == c.state.grants)
      && d.nextAttempt == c.nextAttempt && d.nextGrant == c.nextGrant && d.index == c.index
  {
    hide Good, Orderly, Apply, Commit, GrantAt, Remains, Changes;
    GoodParts(c);
    FenceOrderly(c, id, kind, now, env);
    var found := Lookup(c.index, c.state.grants, id);
    if found.Some? && found.value.Live() && c.nextFence != 0 {
      var fence := FenceFor(c, found.value, id, now);
      var d := FenceGrant(c, id, kind, now, env).0;
      var i := GrantAt(c.state.grants, id);
      FenceChanges(c, id, fence, kind, now, env, d);
      if i < |c.state.grants| {
        ChangeGood(c, GrantEnded(kind, fence), env, i, Transitioned(c.state.grants[i], EndState(kind), now, 0, 0), d);
      } else {
        RefusedSame(c, GrantEnded(kind, fence), env, d);
      }
    }
  }

  // --------------------------------------------------------------------------
  // Attempts
  // --------------------------------------------------------------------------

  // An accepted report: the grant and the attempt it was made under.
  datatype Pair = Pair(grant: u64, attempt: u64)

  // Every accepted pair lies in the past: its grant was issued, and if that grant is
  // still live it has moved on to a later attempt.
  ghost predicate InPast(p: Pair, gs: seq<Grant>) {
    forall g | g in gs && g.id == p.grant && g.Live() :: p.attempt < g.lastAttempt
  }

  ghost predicate Logged(c: Coord, log: seq<Pair>) {
    && Distinct(log)
    && forall p | p in log :: p.grant <= c.state.grantHigh && InPast(p, c.state.grants)
  }

  // The log survives a change to one grant that only moves its attempt forward.
  lemma {:induction false} LoggedUpdate(c: Coord, log: seq<Pair>, i: nat, g: Grant, d: Coord)
    requires Logged(c, log) && i < |c.state.grants| && g.id == c.state.grants[i].id
    requires d.state.grants == c.state.grants[i := g] && d.state.grantHigh == c.state.grantHigh
    requires g.Live() ==> c.state.grants[i].Live() && g.lastAttempt >= c.state.grants[i].lastAttempt
    ensures Logged(d, log)
  {
    hide Distinct;
    forall p | p in log ensures InPast(p, d.state.grants) {
      forall x | x in d.state.grants && x.id == p.grant && x.Live() ensures p.attempt < x.lastAttempt {
        assert InPast(p, c.state.grants) && c.state.grants[i] in c.state.grants;
        assert x == g || x in c.state.grants;
      }
    }
  }

  lemma {:induction false} LoggedSame(c: Coord, log: seq<Pair>, d: Coord)
    requires Logged(c, log) && d.state.grants == c.state.grants && d.state.grantHigh == c.state.grantHigh
    ensures Logged(d, log)
  {
    hide Distinct;
  }

  // A pair that is being accepted was never accepted before, and is past afterwards.
  lemma {:induction false} LogAccepted(c: Coord, log: seq<Pair>, i: nat, g: Grant, d: Coord)
    requires Logged(c, log) && IdsClimb(c.state.grants) && IdsBelow(c.state.grants, c.state.grantHigh)
    requires i < |c.state.grants| && c.state.grants[i].Live() && g.id == c.state.grants[i].id
    requires d.state.grants == c.state.grants[i := g] && d.state.grantHigh == c.state.grantHigh
    requires g.lastAttempt > c.state.grants[i].lastAttempt
    ensures var p := Pair(g.id, c.state.grants[i].lastAttempt);
      p !in log && Logged(d, log + [p])
  {
    var p := Pair(g.id, c.state.grants[i].lastAttempt);
    assert c.state.grants[i] in c.state.grants;
    assert forall q | q in log :: InPast(q, c.state.grants);
    assert p !in log;
    LoggedUpdate(c, log, i, g, d);
    forall x | x in d.state.grants && x.id == p.grant && x.Live() ensures p.attempt < x.lastAttempt {
      var k :| 0 <= k < |d.state.grants| && d.state.grants[k] == x;
      assert k == i;
    }
    assert Distinct(log + [p]) by {
      forall a, b | 0 <= a < b < |log + [p]| ensures (log + [p])[a] != (log + [p])[b] {
        assert a < |log| ==> log[a] in log;
      }
    }
  }

  // The record a report on a grant with sequence g.sequence commits.
  function ReportRecord(c: Coord, next: GrantState, id: u64, g: Grant, now: u64): Record
    requires g.sequence < U64_MAX
  {
    if next.Acknowledged? then GrantAcknowledged(id, now, c.nextAttempt, g.sequence + 1)
    else GrantApplied(id, now, c.nextAttempt, g.sequence + 1)
  }

  lemma {:induction false} AppliedReport(n: Durable, next: GrantState, id: u64, now: u64, attempt: u64, sequence: u64,
                                         cfg: Config)
    requires next.Acknowledged? || next.Applied?
    ensures var r := if next.Acknowledged? then GrantAcknowledged(id, now, attempt, sequence)
                     else GrantApplied(id, now, attempt, sequence);
      Apply(n, r, cfg) == ApplyMoved(n, id, next, now, attempt, sequence)
  {
    hide ApplyMoved;
  }

  // The change a report commits to the grant with the identity; g is whatever the index found.
  lemma {:induction false} ReportChanges(c: Coord, next: GrantState, id: u64, g: Grant, now: u64, env: Env, d: Coord)
    requires (next.Acknowledged? || next.Applied?) && g.sequence < U64_MAX && c.nextAttempt != 0
    requires d == c.(nextAttempt := Successor(c.nextAttempt),
                     state := Commit(c.state, ReportRecord(c, next, id, g, now), env).state)
    ensures var i := GrantAt(c.state.grants, id);
      i < |c.state.grants| ==>
        Changes(c, ReportRecord(c, next, id, g, now), env, i,
                Transitioned(c.state.grants[i], next, now, c.nextAttempt, g.sequence + 1), d)
    ensures GrantAt(c.state.grants, id) == |c.state.grants| ==>
      Apply(Numbered(c.state), ReportRecord(c, next, id, g, now), env.cfg).status.Some?
  {
    hide Commit, GrantAt, Apply;
    var sequence: u64 := g.sequence + 1;
    AppliedReport(Numbered(c.state), next, id, now, c.nextAttempt, sequence, env.cfg);
    ReportBecomes(Numbered(c.state), next, id, now, c.nextAttempt, sequence);
  }

  // Past every refusal, a report commits its record for whatever grant the index found.
  predicate Admits(c: Coord, next: GrantState, id: u64, attempt: u64, now: u64) {
    var found := Lookup(c.index, c.state.grants, id);
    && found.Some? && found.value.Live() && now <= found.value.expiresTick
    && attempt != 0 && attempt == found.value.lastAttempt && Allowed(found.value.state, next)
  }

  // Reporting under any index: orderly, and an acceptance moves the grant with the identity.
  lemma {:induction false} ReportOrderly(c: Coord, next: GrantState, id: u64, attempt: u64, now: u64, env: Env)
    requires Orderly(c) && (next.Acknowledged? || next.Applied?)
    ensures var (d, reply) := ReportGrant(c, next, id, attempt, now, env);
      && Orderly(d) && d.state.grantHigh == c.state.grantHigh && d.index == c.index && d.nextGrant == c.nextGrant
      && c.state.counters.pruned <= d.state.counters.pruned
      && (reply.Accepted? ==> Admits(c, next, id, attempt, now))
  {
    hide Orderly, Apply, Commit, GrantAt, Changes, Allowed, FenceGrant, Remains;
    var found := Lookup(c.index, c.state.grants, id);
    if found.Some? && found.value.Live() {
      var g := found.value;
      FenceOrderly(c, id, ByExpiry, now, env);
      if Admits(c, next, id, attempt, now) {
        TakenOrderly(c);
        if c.nextAttempt != 0 && g.sequence < U64_MAX { ReportCommits(c, next, id, g, now, env); }
      }
    }
  }

  lemma {:induction false} TakenOrderly(c: Coord)
    requires Orderly(c)
    ensures Orderly(c.(nextAttempt := Successor(c.nextAttempt)))
    ensures Good(c) ==> Good(c.(nextAttempt := Successor(c.nextAttempt)))
  {
    hide Sound, Indexes, IdsClimb;
  }

  lemma {:induction false} ReportCommits(c: Coord, next: GrantState, id: u64, g: Grant, now: u64, env: Env)
    requires Orderly(c) && (next.Acknowledged? || next.Applied?) && g.sequence < U64_MAX && c.nextAttempt != 0
    ensures var r, i := ReportRecord(c, next, id, g, now), GrantAt(c.state.grants, id);
      var d := c.(nextAttempt := Successor(c.nextAttempt), state := Commit(c.state, r, env).state);
      && Orderly(d) && d.state.grantHigh == c.state.grantHigh && c.state.counters.pruned <= d.state.counters.pruned
      && (Commit(c.state, r, env).status.None? ==>
            (&& i < |c.state.grants| && c.state.grants[i].Live()
             && Remains(d.state.grants,
                        c.state.grants[i :=
                          Transitioned(c.state.grants[i], next, now, c.nextAttempt, g.sequence + 1)])))
      && (Commit(c.state, r, env).status.Some? ==> d.state.grants == c.state.grants)
  {
    hide Orderly, Apply, Commit, GrantAt, Changes, Remains;
    OrderlyParts(c);
    var r := ReportRecord(c, next, id, g, now);
    var d := c.(nextAttempt := Successor(c.nextAttempt), state := Commit(c.state, r, env).state);
    var i := GrantAt(c.state.grants, id);
    ReportChanges(c, next, id, g, now, env, d);
    DropGuard(c.state, r, env);
    CommitCases(c.state, r, env);
    var sequence: u64 := g.sequence + 1;
    AppliedReport(Numbered(c.state), next, id, now, c.nextAttempt, sequence, env.cfg);
    ReportBecomes(Numbered(c.state), next, id, now, c.nextAttempt, sequence);
    if i < |c.state.grants| {
      ChangeOrderly(c, r, env, i, Transitioned(c.state.grants[i], next, now, c.nextAttempt, g.sequence + 1), d);
    } else {
      RefusedSame(c, r, env, d);
    }
  }

  // An accepted report moves the grant it names on by one sequence number.
  predicate Advances(g: Grant, h: Grant, id: u64, attempt: u64, next: GrantState) {
    g.id == h.id == id && g.Live() && g.lastAttempt == attempt && h.sequence == g.sequence + 1 && h.state == next
  }

  // Reporting on a grant: an acceptance is new, strictly raises the sequence and moves
  // the attempt forward; a refusal accepts nothing.
  lemma {:induction false} ReportStep(c: Coord, log: seq<Pair>, next: GrantState, id: u64, attempt: u64, now: u64,
                                      env: Env)
    requires Good(c) && Logged(c, log) && (next.Acknowledged? || next.Applied?)
    requires Undropped(c.state, ReportGrant(c, next, id, attempt, now, env).0.state)
    ensures var (d, reply) := ReportGrant(c, next, id, attempt, now, env);
      && Good(d) && |d.state.grants| == |c.state.grants| && d.state.grantHigh == c.state.grantHigh
      && (reply.Declined? ==> Logged(d, log))
      && (reply.Accepted? ==> Pair(id, attempt) !in log && Logged(d, log + [Pair(id, attempt)]))
      && (reply.Accepted? ==> exists g | g in c.state.grants :: Advances(g, reply.grant, id, attempt, next))
  {
    hide Good, Apply, Commit, GrantAt, Logged, Allowed, FenceGrant, Numbered, IdsClimb, IdsBelow;
    FindsIt(c, id);
    var i := GrantAt(c.state.grants, id);
    var (d, reply) := ReportGrant(c, next, id, attempt, now, env);
    if i < |c.state.grants| && c.state.grants[i].Live() {
      var g := c.state.grants[i];
      if now > g.expiresTick {
        FenceStep(c, id, ByExpiry, now, env);
        var f := FenceGrant(c, id, ByExpiry, now, env);
        if f.1.None? {
          LoggedUpdate(c, log, i, Transitioned(g, Expired, now, 0, 0), f.0);
        } else {
          LoggedSame(c, log, f.0);
        }
      } else if attempt == 0 || attempt != g.lastAttempt || !Allowed(g.state, next) {
        assert d == c;
      } else if c.nextAttempt == 0 || g.sequence == U64_MAX {
        GoodParts(c);
        TakenOrderly(c);
        LoggedSame(c, log, d);
      } else {
        CommitReport(c, log, next, id, attempt, now, env, i);
      }
    }
  }

  lemma {:induction false} CommitReport(c: Coord, log: seq<Pair>, next: GrantState, id: u64, attempt: u64, now: u64,
                                        env: Env, i: nat)
    requires Good(c) && Logged(c, log) && (next.Acknowledged? || next.Applied?)
    requires i == GrantAt(c.state.grants, id) < |c.state.grants| && c.state.grants[i].Live()
    requires now <= c.state.grants[i].expiresTick
    requires attempt != 0 && attempt == c.state.grants[i].lastAttempt && Allowed(c.state.grants[i].state, next)
    requires c.nextAttempt != 0 && c.state.grants[i].sequence < U64_MAX
    requires Undropped(c.state, ReportGrant(c, next, id, attempt, now, env).0.state)
    ensures var (d, reply) := ReportGrant(c, next, id, attempt, now, env);
      && Good(d) && |d.state.grants| == |c.state.grants| && d.state.grantHigh == c.state.grantHigh
      && (reply.Declined? ==> Logged(d, log))
      && (reply.Accepted? ==> Pair(id, attempt) !in log && Logged(d, log + [Pair(id, attempt)]))
      && (reply.Accepted? ==> Advances(c.state.grants[i], reply.grant, id, attempt, next))
  {
    hide Good, Orderly, Apply, Commit, GrantAt, Logged, Allowed, FenceGrant, IdsClimb, IdsBelow, Lookup, Changes;
    FindsIt(c, id);
    GoodParts(c);
    LiveAttempt(c, i);
    var g := c.state.grants[i];
    var record := ReportRecord(c, next, id, g, now);
    var moved := Transitioned(g, next, now, c.nextAttempt, g.sequence + 1);
    var done := c.(nextAttempt := Successor(c.nextAttempt), state := Commit(c.state, record, env).state);
    ReportChanges(c, next, id, g, now, env, done);
    ChangeGood(c, record, env, i, moved, done);
    if Commit(c.state, record, env).status.None? {
      LogAccepted(c, log, i, moved, done);
      FindsIt(done, id);
      SameScan(c.state.grants, i, moved, id);
    } else {
      LoggedSame(c, log, done);
    }
  }

  lemma {:induction false} SameScan(gs: seq<Grant>, i: nat, g: Grant, id: u64)
    requires i == GrantAt(gs, id) < |gs| && g.id == id
    ensures ScanFor(gs[i := g], id) == Some(g)
  {
    hide GrantAt;
    var t := gs[i := g];
    assert t[i].id == id && forall j | 0 <= j < i :: t[j].id == gs[j].id;
    assert GrantAt(t, id) == i;
  }

  // --------------------------------------------------------------------------
  // Acquiring
  // --------------------------------------------------------------------------

  lemma {:induction false} ClimbPush(gs: seq<Grant>, g: Grant, high: u64)
    requires IdsClimb(gs) && IdsBelow(gs, high) && high < g.id
    ensures IdsClimb(gs + [g]) && IdsBelow(gs + [g], g.id) && !Known(g.id, gs)
  {
    assert forall i | 0 <= i < |gs| :: gs[i] in gs;
  }

  lemma {:induction false} IssuedGrants(s: Durable, g: Grant, cfg: Config)
    ensures var e := Apply(s, GrantIssued(g), cfg);
      e.status.None? ==> e.state.grants == s.grants + [g] && e.state.grantHigh == Max(s.grantHigh, g.id)
  {
    hide Count, GrantAt;
  }

  function IssuedNow(c: Coord, offer: Offer, now: u64): Grant {
    Grant(c.nextGrant, offer.binding, offer.original, offer.degraded, 1, c.nextAttempt, now, offer.expires, now, Issued)
  }

  // What the coordinator is once the grant has been committed and indexed.
  function Inserted(c: Coord, g: Grant, env: Env): Coord {
    Coord(Commit(c.state, GrantIssued(g), env).state, c.index[g.id := |c.index|], Successor(c.nextGrant),
          Successor(c.nextAttempt), c.nextFence)
  }

  // Acquiring: orderly whatever retention takes out, and the identity is new.
  lemma {:induction false} AcquireOrderly(c: Coord, offer: Offer, now: u64, maxLive: nat, env: Env)
    requires Orderly(c)
    ensures var (d, reply) := AcquireGrant(c, offer, now, maxLive, env);
      && Orderly(d) && c.state.counters.pruned <= d.state.counters.pruned
      && (reply.Declined? ==>
           d.state.grants == c.state.grants && d.state.grantHigh == c.state.grantHigh && d.index == c.index)
      && (reply.Accepted? ==>
            (&& reply.grant == IssuedNow(c, offer, now) && reply.grant.id > c.state.grantHigh
              && d.state.grantHigh == reply.grant.id
             && d == Inserted(c, reply.grant, env) && reply.grant.id !in c.index
             && Remains(d.state.grants, c.state.grants + [reply.grant])))
  {
    hide Sound, Apply, Commit, Count, IdsClimb, IdsBelow, AttemptsBelow, IndexedBelow, Remains;
    var (d, reply) := AcquireGrant(c, offer, now, maxLive, env);
    if Count(IsLive, c.state.grants) < maxLive {
      if c.nextGrant == 0 || c.nextAttempt == 0 {
        OrderlySame(c, d);
      } else {
        var g := IssuedNow(c, offer, now);
        var r := GrantIssued(g);
        ClimbPush(c.state.grants, g, c.state.grantHigh);
        IssuedGrants(Numbered(c.state), g, env.cfg);
        CommitRemains(c.state, r, env);
        DropGuard(c.state, r, env);
        NotIndexed(c, g.id);
        if Commit(c.state, r, env).status.None? {
          InsertedOrderly(c, g, env);
        } else {
          OrderlySame(c, d);
        }
      }
    }
  }

  lemma {:induction false} NotIndexed(c: Coord, id: u64)
    requires IndexedBelow(c.index, c.state.grantHigh) && id > c.state.grantHigh
    ensures id !in c.index
  {
  }

  // The next grant identity is not indexed yet, stale or not.
  lemma {:induction false} FreshIdentity(c: Coord)
    requires Orderly(c)
    ensures c.nextGrant != 0 ==> c.nextGrant !in c.index
  {
    hide Sound, IdsClimb, IdsBelow;
    if c.nextGrant != 0 { NotIndexed(c, c.nextGrant); }
  }

  lemma {:induction false} InsertedOrderly(c: Coord, g: Grant, env: Env)
    requires Orderly(c) && g.id == c.nextGrant != 0
    requires var e := Commit(c.state, GrantIssued(g), env);
      Sound(e.state) && e.state.grantHigh == g.id && Remains(e.state.grants, c.state.grants + [g])
        && IdsClimb(e.state.grants)
    ensures Orderly(Inserted(c, g, env))
  {
    hide Sound, Commit, IdsClimb, Remains, IdsBelow;
    var d, gs := Inserted(c, g, env), c.state.grants + [g];
    ClimbPush(c.state.grants, g, c.state.grantHigh);
    RemainsBelow(d.state.grants, gs, g.id);
  }

  lemma {:induction false} AttemptsPush(gs: seq<Grant>, g: Grant, next: u64)
    requires AttemptsBelow(gs, next) && g.lastAttempt == next != 0
    ensures AttemptsBelow(gs + [g], Successor(next))
  {
  }

  lemma {:induction false} LoggedPush(c: Coord, log: seq<Pair>, g: Grant, d: Coord)
    requires Logged(c, log) && g.id > c.state.grantHigh
    requires d.state.grants == c.state.grants + [g] && d.state.grantHigh == g.id
    ensures Logged(d, log)
  {
    hide Distinct;
    forall p | p in log ensures InPast(p, d.state.grants) {
      assert InPast(p, c.state.grants);
    }
  }

  // Every issued identity is above every identity ever issued before.
  lemma {:induction false} AcquireStep(c: Coord, log: seq<Pair>, offer: Offer, now: u64, maxLive: nat, env: Env)
    requires Good(c) && Logged(c, log) && Undropped(c.state, AcquireGrant(c, offer, now, maxLive, env).0.state)
    ensures var (d, reply) := AcquireGrant(c, offer, now, maxLive, env);
      && Good(d) && Logged(d, log)
      && (reply.Declined? ==> d.state.grants == c.state.grants && d.state.grantHigh == c.state.grantHigh)
      && (reply.Accepted? ==> reply.grant.id > c.state.grantHigh && d.state.grantHigh == reply.grant.id)
      && (reply.Accepted? ==> d.state.grants == c.state.grants + [reply.grant])
  {
    hide Orderly, Apply, Commit, Indexes, Logged, Count, IdsClimb, IdsBelow, Remains, AttemptsBelow;
    GoodParts(c);
    AcquireOrderly(c, offer, now, maxLive, env);
    var (d, reply) := AcquireGrant(c, offer, now, maxLive, env);
    if reply.Accepted? {
      var g := reply.grant;
      ClimbPush(c.state.grants, g, c.state.grantHigh);
      IssuedGrants(Numbered(c.state), g, env.cfg);
      CommitMeans(c.state, GrantIssued(g), env);
      IndexesPush(c.index, c.state.grants, g);
      AttemptsPush(c.state.grants, g, c.nextAttempt);
      LoggedPush(c, log, g, d);
    } else {
      AttemptsLater(c.state.grants, c.nextAttempt, d.nextAttempt);
      LoggedSame(c, log, d);
    }
  }

  lemma {:induction false} AttemptsLater(gs: seq<Grant>, next: u64, later: u64)
    requires AttemptsBelow(gs, next) && (later == next || later == Successor(next))
    ensures AttemptsBelow(gs, later)
  {
  }

  // --------------------------------------------------------------------------
  // Everything else the coordinator commits
  // --------------------------------------------------------------------------

  lemma {:induction false} NeutralGrants(s: Durable, r: Record, cfg: Config)
    requires Neutral(r) && !r.GrantRebound?
    ensures var e := Apply(s, r, cfg); e.state.grants == s.grants && e.state.grantHigh == s.grantHigh
  {
    hide ContractAt;
  }

  lemma {:induction false} AppliedRebound(n: Durable, id: u64, b: Binding, cfg: Config)
    ensures Apply(n, GrantRebound(id, b), cfg) == ApplyRebound(n, id, b)
  {
    hide ApplyRebound;
  }

  lemma {:induction false} RebindChanges(c: Coord, id: u64, b: Binding, env: Env, d: Coord)
    requires Orderly(c) && d == c.(state := Commit(c.state, GrantRebound(id, b), env).state)
    ensures var i := GrantAt(c.state.grants, id);
      i < |c.state.grants| ==> Changes(c, GrantRebound(id, b), env, i, c.state.grants[i].(binding := b), d)
    ensures GrantAt(c.state.grants, id) == |c.state.grants| ==>
      Apply(Numbered(c.state), GrantRebound(id, b), env.cfg).status.Some?
  {
    hide Orderly, Commit, GrantAt, Apply;
    AppliedRebound(Numbered(c.state), id, b, env.cfg);
    ReboundBecomes(Numbered(c.state), id, b);
  }

  // Only a live grant is rebound.
  lemma {:induction false} ReboundWasLive(c: Coord, id: u64, b: Binding, env: Env)
    requires Orderly(c) && Commit(c.state, GrantRebound(id, b), env).status.None?
    ensures var i := GrantAt(c.state.grants, id); i < |c.state.grants| && c.state.grants[i].Live()
  {
    hide Sound, Commit, GrantAt, Apply;
    CommitCases(c.state, GrantRebound(id, b), env);
    AppliedRebound(Numbered(c.state), id, b, env.cfg);
    ReboundBecomes(Numbered(c.state), id, b);
  }

  // What a neutral record makes of the grants before retention.
  function Neutrally(c: Coord, r: Record): seq<Grant> {
    var i := if r.GrantRebound? then GrantAt(c.state.grants, r.grantId) else |c.state.grants|;
    if r.GrantRebound? && i < |c.state.grants| then c.state.grants[i := c.state.grants[i].(binding := r.binding)]
    else c.state.grants
  }

  // Any neutral commit keeps the coordinator orderly.
  lemma {:induction false} NeutralOrderly(c: Coord, r: Record, env: Env)
    requires Orderly(c) && Neutral(r)
    ensures var d := CommitNeutral(c, r, env);
      && Orderly(d) && d.state.grantHigh == c.state.grantHigh && c.state.counters.pruned <= d.state.counters.pruned
      && (Commit(c.state, r, env).status.None? ==> Remains(d.state.grants, Neutrally(c, r)))
      && (Commit(c.state, r, env).status.Some? ==> d.state.grants == c.state.grants)
  {
    hide Orderly, Apply, Commit, GrantAt, Changes, Remains;
    OrderlyParts(c);
    var d := CommitNeutral(c, r, env);
    DropGuard(c.state, r, env);
    if r.GrantRebound? {
      var i := GrantAt(c.state.grants, r.grantId);
      RebindChanges(c, r.grantId, r.binding, env, d);
      if i < |c.state.grants| {
        ChangeOrderly(c, r, env, i, c.state.grants[i].(binding := r.binding), d);
      } else {
        RefusedSame(c, r, env, d);
      }
    } else {
      UnchangedOrderly(c, r, env);
    }
  }

  lemma {:induction false} UnchangedOrderly(c: Coord, r: Record, env: Env)
    requires Orderly(c) && Neutral(r) && !r.GrantRebound?
    ensures var d := CommitNeutral(c, r, env);
      && Orderly(d) && d.state.grantHigh == c.state.grantHigh && Remains(d.state.grants, c.state.grants)
      && (Commit(c.state, r, env).status.Some? ==> d.state.grants == c.state.grants)
  {
    hide Sound, Apply, Commit, Remains, IdsClimb, IdsBelow;
    var d := CommitNeutral(c, r, env);
    NeutralGrants(Numbered(c.state), r, env.cfg);
    CommitRemains(c.state, r, env);
    AllRemain(c.state.grants);
    RemainsBelow(d.state.grants, c.state.grants, c.state.grantHigh);
  }

  lemma {:induction false} NeutralStep(c: Coord, log: seq<Pair>, r: Record, env: Env)
    requires Good(c) && Logged(c, log) && Neutral(r) && Undropped(c.state, CommitNeutral(c, r, env).state)
    ensures var d := CommitNeutral(c, r, env);
      && Good(d) && Logged(d, log) && |d.state.grants| == |c.state.grants| && d.state.grantHigh == c.state.grantHigh
      && (!r.GrantRebound? ==> d.state.grants == c.state.grants)
  {
    hide Orderly, Good, Apply, Commit, GrantAt, Logged, Changes, Remains;
    var d, s := CommitNeutral(c, r, env), c.state;
    GoodParts(c);
    if r.GrantRebound? {
      var i := GrantAt(s.grants, r.grantId);
      RebindChanges(c, r.grantId, r.binding, env, d);
      if i < |s.grants| {
        var g := s.grants[i].(binding := r.binding);
        if g.Live() { LiveAttempt(c, i); }
        ChangeGood(c, r, env, i, g, d);
        if Commit(s, r, env).status.None? { LoggedUpdate(c, log, i, g, d); } else { LoggedSame(c, log, d); }
      } else {
        RefusedSame(c, r, env, d);
        LoggedSame(c, log, d);
      }
    } else {
      NeutralGrants(Numbered(s), r, env.cfg);
      CommitMeans(s, r, env);
      OrderlySame(c, d);
      LoggedSame(c, log, d);
    }
  }

  // Acquiring, its evaluation included, whatever retention drops.
  lemma {:induction false} ObtainOrderly(c: Coord, decided: Result<Decision>, offer: Offer, now: u64, maxLive: nat,
                                         env: Env)
    requires Orderly(c)
    ensures var (d, reply) := ObtainGrant(c, decided, offer, now, maxLive, env);
      && Orderly(d) && c.state.counters.pruned <= d.state.counters.pruned
      && (reply.Declined? ==> d.state.grantHigh == c.state.grantHigh)
      && (reply.Accepted? ==> reply.grant.id > c.state.grantHigh && d.state.grantHigh == reply.grant.id)
  {
    hide Orderly, AcquireGrant, Commit, CommitNeutral, Remains, Neutrally, Inserted;
    if decided.Ok? {
      NeutralOrderly(c, DecisionRecorded(decided.value), env);
      AcquireOrderly(CommitNeutral(c, DecisionRecorded(decided.value), env), offer, now, maxLive, env);
    }
  }

  // And keeping the index exact while nothing is dropped.
  lemma {:induction false} ObtainStep(c: Coord, log: seq<Pair>, decided: Result<Decision>, offer: Offer, now: u64,
                                      maxLive: nat, env: Env)
    requires Good(c) && Logged(c, log)
    requires Undropped(c.state, ObtainGrant(c, decided, offer, now, maxLive, env).0.state)
    ensures var (d, reply) := ObtainGrant(c, decided, offer, now, maxLive, env);
      && Good(d) && Logged(d, log)
      && (reply.Declined? ==> d.state.grants == c.state.grants && d.state.grantHigh == c.state.grantHigh)
      && (reply.Accepted? ==> reply.grant.id > c.state.grantHigh && d.state.grantHigh == reply.grant.id)
      && (reply.Accepted? ==> d.state.grants == c.state.grants + [reply.grant])
      && (reply.Accepted? ==> decided.Ok? && Authorising(decided.value.outcome))
  {
    hide Good, Logged, AcquireGrant, Commit, CommitNeutral, Remains, Neutrally, Inserted, Orderly;
    if decided.Ok? {
      var r := DecisionRecorded(decided.value);
      var next := CommitNeutral(c, r, env);
      GoodParts(c);
      NeutralOrderly(c, r, env);
      AcquireOrderly(next, offer, now, maxLive, env);
      NeutralStep(c, log, r, env);
      if Undropped(next.state, AcquireGrant(next, offer, now, maxLive, env).0.state) {
        AcquireStep(next, log, offer, now, maxLive, env);
      }
    }
  }
}
