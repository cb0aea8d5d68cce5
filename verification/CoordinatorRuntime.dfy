// The coordinator in its own form (src/runtime/coordinator.cpp): allocators, index and
// store changed together by each operation, and the sweep loop over live grants.
module CoordinatorRuntime {
  import opened Core
  import opened Guarantees
  import opened Assessments
  import opened Grants
  import opened Store
  import opened StateStores
  import opened GrantTables
  import opened SweepSafety
  import opened Sweeps
  import opened Sums
  import opened Subsets
  import opened Sorting
  import C = Coordinators
  import B = BootFencing

  class Coordinator {
    const store: StateStore
    const table: GrantTable
    const grantIds: C.IdAllocator
    const attemptIds: C.IdAllocator
    const fenceIds: C.IdAllocator
    const full: nat -> bool

    // The members of a coordinator over an opened store, before it has booted.
    constructor (store: StateStore, maxLive: nat, full: nat -> bool)
      ensures this.store == store && this.full == full && table.maxLive == maxLive && table.Valid() && table.Mirrors([])
      ensures fresh(table) && fresh(grantIds) && fresh(attemptIds) && fresh(fenceIds) && Apart()
      ensures grantIds.next == 1 && attemptIds.next == 1 && fenceIds.next == 1
    {
      this.store, this.full := store, full;
      table := new GrantTable(maxLive);
      var ids := new C.IdAllocator(1);
      grantIds := ids;
      ids := new C.IdAllocator(1);
      attemptIds := ids;
      ids := new C.IdAllocator(1);
      fenceIds := ids;
    }

    ghost predicate Apart() {
      grantIds != attemptIds && attemptIds != fenceIds && fenceIds != grantIds
    }

    function View(): C.Coord
      reads store, table, grantIds, attemptIds, fenceIds
    {
      C.Coord(store.state, table.index, grantIds.next, attemptIds.next, fenceIds.next)
    }

    function Env(): C.Env
    {
      C.Env(store.cfg, full)
    }

    // What every operation keeps, whatever retention drops: the state is in order and the
    // table's live identities are those of the vector.
    ghost predicate Steady()
      reads store, table, grantIds, attemptIds, fenceIds
    {
      Apart() && table.Valid() && table.Counts(store.state.grants) && C.Orderly(View())
    }

    // The index answers for the vector too.
    ghost predicate Synced()
      reads store, table, grantIds, attemptIds, fenceIds
    {
      Steady() && C.Good(View())
    }

    // Commits one record.
    method CommitRecord(r: Record) returns (status: Option<ErrorCode>)
      modifies store
      ensures Effect(store.state, status) == C.Commit(old(store.state), r, Env())
    {
      hide Append;
      status := store.AppendRecord(r, full(store.state.journalRecords));
    }

    // Records in the table a transition just committed.
    method Note(id: u64, was: GrantState, next: GrantState, ghost gs: seq<Grant>, ghost i: nat, ghost g: Grant)
      requires table.Valid() && table.Counts(gs) && id in table.index
      requires Follows(gs, i, id, was, next, g) && C.Remains(store.state.grants, gs[i := g])
      modifies table
      ensures table.Valid() && table.index == old(table.index) && table.Counts(store.state.grants)
    {
      hide LiveIds, Sorted, C.Remains, GrantTable.Mirrors;
      var noted := table.NoteTransition(id, was, next, gs, i, g);
      RemainsLiveIds(store.state.grants, gs[i := g]);
    }

    // fence_grant_locked.
    method FenceGrant(id: u64, kind: EndKind, now: u64) returns (status: Option<ErrorCode>)
      requires Steady()
      modifies store, table, fenceIds
      ensures Steady() && (View(), status) == C.FenceGrant(old(View()), id, kind, now, Env())
      ensures old(Synced()) && C.Undropped(old(store.state), store.state) ==> Synced()
    {
      hide C.Orderly, C.Good, C.Commit, GrantAt, Lookup, C.Remains, GrantTable.Mirrors, GrantTable.Counts,
           GrantTable.Valid;
      ghost var gs, before := store.state.grants, View();
      C.FenceOrderly(before, id, kind, now, Env());
      if C.Good(before) && C.Undropped(before.state, C.FenceGrant(before, id, kind, now, Env()).0.state) {
        C.FenceStep(before, id, kind, now, Env());
      }
      var found := table.Find(store.state.grants, id);
      if found.None? { return Some(NotFound); }
      if !found.value.Live() { return Some(InvalidState); }
      var fenceId := fenceIds.Allocate();
      if fenceId.None? { return Some(Exhausted); }
      var g := found.value;
      var fence := Fence(fenceId.value, id, g.binding, g.binding.(vector := C.CurrentVector(store.state)), now);
      status := CommitRecord(GrantEnded(kind, fence));
      if status.Some? { return; }
      ghost var i := GrantAt(gs, id);
      FoundIsIndexed(before, id);
      Note(id, g.state, EndState(kind), gs, i, Transitioned(gs[i], EndState(kind), now, 0, 0));
    }

    // A report on a grant it may move.
    method MoveFound(next: GrantState, id: u64, g: Grant, now: u64) returns (reply: C.Reply)
      requires Steady() && (next.Acknowledged? || next.Applied?)
        && Lookup(table.index, store.state.grants, id) == Some(g) && g.Live()
      modifies store, table, attemptIds
      ensures Steady() && (View(), reply) == C.MoveFound(old(View()), next, id, g, now, Env())
    {
      hide C.Orderly, C.Good, C.Commit, GrantAt, Lookup, C.Remains, GrantTable.Mirrors, GrantTable.Counts,
           GrantTable.Valid;
      ghost var gs, before := store.state.grants, View();
      C.TakenOrderly(before);
      var nextAttempt := attemptIds.Allocate();
      if nextAttempt.None? || g.sequence == U64_MAX { return C.Declined(Exhausted); }
      var sequence: u64 := g.sequence + 1;
      C.ReportCommits(before, next, id, g, now, Env());
      var status := CommitRecord(if next.Acknowledged? then GrantAcknowledged(id, now, nextAttempt.value, sequence)
                                 else GrantApplied(id, now, nextAttempt.value, sequence));
      if status.Some? { return C.Declined(status.value); }
      FoundIsIndexed(before, id);
      ghost var i := GrantAt(gs, id);
      ghost var moved := Transitioned(gs[i], next, now, nextAttempt.value, sequence);
      Note(id, g.state, next, gs, i, moved);
      var updated := table.Find(store.state.grants, id);
      if updated.None? { return C.Declined(NotFound); }
      reply := C.Accepted(updated.value);
    }

    // acknowledge_locked (next is Acknowledged) and report_applied_locked (Applied).
    method Report(next: GrantState, id: u64, attempt: u64, now: u64) returns (reply: C.Reply)
      requires Steady() && (next.Acknowledged? || next.Applied?)
      modifies store, table, attemptIds, fenceIds
      ensures Steady() && (View(), reply) == C.ReportGrant(old(View()), next, id, attempt, now, Env())
      ensures old(Synced()) && C.Undropped(old(store.state), store.state) ==> Synced()
    {
      hide C.Orderly, C.Good, C.FenceGrant, C.MoveFound, Lookup, Allowed, GrantTable.Mirrors, GrantTable.Counts,
           GrantTable.Valid;
      StaysGood(View(), next, id, attempt, now, Env());
      var found := table.Find(store.state.grants, id);
      if found.None? { return C.Declined(NotFound); }
      var g := found.value;
      if !g.Live() { return C.Declined(InvalidState); }
      if now > g.expiresTick {
        var ignored := FenceGrant(id, ByExpiry, now);
        return C.Declined(Stale);
      }
      if attempt == 0 || attempt != g.lastAttempt { return C.Declined(ReplayDetected); }
      if !Allowed(g.state, next) { return C.Declined(InvalidState); }
      reply := MoveFound(next, id, g, now);
    }

    // acquire_locked, past its evaluation.
    method Issue(offer: C.Offer, now: u64) returns (reply: C.Reply)
      requires Steady()
      modifies store, table, grantIds, attemptIds
      ensures Steady() && (View(), reply) == C.AcquireGrant(old(View()), offer, now, table.maxLive, Env())
      ensures old(Synced()) && C.Undropped(old(store.state), store.state) ==> Synced()
    {
      hide C.Orderly, C.Good, C.Commit, LiveIds, Sorted, C.Remains, Indexes, DistinctBy, C.Logged, Count;
      ghost var gs, before := store.state.grants, View();
      LiveIdsCounted(gs);
      C.AcquireOrderly(before, offer, now, table.maxLive, Env());
      if C.Good(before) && C.Undropped(before.state, C.AcquireGrant(before, offer, now, table.maxLive, Env()).0.state) {
        NoPairs(before);
        C.AcquireStep(before, [], offer, now, table.maxLive, Env());
      }
      if |table.liveIds| >= table.maxLive { return C.Declined(Exhausted); }
      var grantId := grantIds.Allocate();
      var attemptId := attemptIds.Allocate();
      if grantId.None? || attemptId.None? { return C.Declined(Exhausted); }
      var g := Grant(grantId.value, offer.binding, offer.original, offer.degraded, 1, attemptId.value, now,
                     offer.expires, now, Issued);
      C.FreshIdentity(before);
      var status := CommitRecord(GrantIssued(g));
      if status.Some? { return C.Declined(status.value); }
      status := table.NoteInsert(g, gs);
      if status.Some? { return C.Declined(AlreadyExists); }
      RemainsLiveIds(store.state.grants, gs + [g]);
      reply := C.Accepted(g);
    }

    // Records one decision or rebinding.
    method CommitNeutrally(r: Record) returns (status: Option<ErrorCode>)
      requires Steady() && (r.DecisionRecorded? || r.GrantRebound?)
      modifies store
      ensures Steady() && View() == C.CommitNeutral(old(View()), r, Env())
      ensures status == C.Commit(old(store.state), r, Env()).status
    {
      hide C.Orderly, C.Good, C.Commit, GrantAt, LiveIds, Sorted, C.Remains, C.Neutrally;
      ghost var gs, before := store.state.grants, View();
      C.NeutralOrderly(before, r, Env());
      status := CommitRecord(r);
      if status.None? {
        if r.GrantRebound? { C.ReboundWasLive(before, r.grantId, r.binding, Env()); }
        NeutrallyLive(before, r);
        RemainsLiveIds(store.state.grants, C.Neutrally(before, r));
      }
    }

    // acquire_locked. What the evaluation decided, and what it offers, are given.
    method Acquire(decided: Result<Decision>, offer: C.Offer, now: u64) returns (reply: C.Reply)
      requires Steady()
      modifies store, table, grantIds, attemptIds
      ensures Steady() && (View(), reply) == C.ObtainGrant(old(View()), decided, offer, now, table.maxLive, Env())
      ensures old(Synced()) && C.Undropped(old(store.state), store.state) ==> Synced()
    {
      hide C.Orderly, C.Good, C.Commit, C.CommitNeutral, C.AcquireGrant, C.Logged, GrantTable.Counts, GrantTable.Valid;
      ghost var before := View();
      if C.Good(before)
        && C.Undropped(before.state, C.ObtainGrant(before, decided, offer, now, table.maxLive, Env()).0.state) {
        NoPairs(before);
        C.ObtainStep(before, [], decided, offer, now, table.maxLive, Env());
      }
      if decided.Err? { return C.Declined(decided.error); }
      var status := CommitNeutrally(DecisionRecorded(decided.value));
      if status.Some? { return C.Declined(status.value); }
      if !Authorising(decided.value.outcome) { return C.Declined(Refused); }
      reply := Issue(offer, now);
    }

    // Whether the approval still covers the grant's promise.
    method Carried(approved: Option<GuaranteeSet>, g: Grant) returns (ok: bool)
      ensures ok == StillCovers(approved, g)
    {
      hide Weakens;
      if approved.None? { return false; }
      var relation := ClassifyWeakening(approved.value, g.degraded);
      ok := relation == WeakensOrEquals;
    }

    // A grant whose capability alone moved.
    method Reconsider(id: u64, g: Grant, w: Round)
      requires Steady()
      modifies store, table, fenceIds
      ensures Steady() && View() == ReevaluateOne(old(View()), id, g, w, Env())
    {
      hide C.Orderly, C.Good, C.Commit, C.CommitNeutral, C.FenceGrant, LiveIds, Sorted, StillCovers, GrantTable.Counts;
      var decision := w.eval.decide(g.binding.contract, store.state.journalRecords);
      if decision.None? {
        var fenced := FenceGrant(id, ByFence, w.now);
        return;
      }
      var status := CommitNeutrally(DecisionRecorded(decision.value));
      var carried := Carried(w.eval.approved(g.binding.contract), g);
      if status.Some? || !carried {
        var fenced := FenceGrant(id, ByFence, w.now);
        return;
      }
      status := CommitNeutrally(GrantRebound(id, Rebound(g, w.current).binding));
      if status.Some? { var fenced := FenceGrant(id, ByFence, w.now); }
    }

    // One pass of the sweep.
    method SweepGrant(id: u64, w: Round)
      requires Steady()
      modifies store, table, fenceIds
      ensures Steady() && View() == SweepOne(old(View()), id, w, Env())
      ensures old(Synced()) && C.Undropped(old(store.state), store.state) ==> Synced()
    {
      hide C.Orderly, C.Good, C.FenceGrant, Lookup, LiveIds, Sorted, ReevaluateOne, GrantTable.Counts;
      ghost var before := View();
      if C.Good(before) && C.Undropped(before.state, SweepOne(before, id, w, Env()).state) {
        TurnGood(before, id, w, Env());
      }
      var found := table.Find(store.state.grants, id);
      if found.None? || !found.value.Live() { return; }
      match Standing(found.value, w.current, w.now)
      case Untouched => return;
      case Expire => var status := FenceGrant(id, ByExpiry, w.now);
      case FenceOff => var status := FenceGrant(id, ByFence, w.now);
      case Reevaluate => Reconsider(id, found.value, w);
    }

    // sweep_locked.
    method SweepLive(now: u64, eval: Evaluations)
      requires Steady()
      modifies store, table, fenceIds
      ensures Steady()
      ensures View() ==
        SweepAll(old(View()), LiveIds(old(store.state.grants)), Round(C.CurrentVector(old(store.state)), now, eval),
                 Env())
      ensures old(Synced()) && C.Undropped(old(store.state), store.state) ==> Synced()
    {
      hide C.Orderly, C.Good, SweepOne, LiveIds, Sorted, NoneMisjudged;
      var w, live := Round(C.CurrentVector(store.state), now, eval), table.liveIds;
      ghost var start := View();
      if C.Good(start) && C.Undropped(start.state, SweepAll(start, live, w, Env()).state) {
        ExactSweep(start, live, w, Env());
      }
      assert live[0..] == live;
      for i := 0 to |live|
        invariant Steady()
        invariant SweepAll(View(), live[i..], w, Env()) == SweepAll(start, live, w, Env())
      {
        assert live[i..] != [] && live[i..][1..] == live[i + 1..];
        SweepGrant(live[i], w);
      }
    }

    // Rebuilds the index from the store's grants.
    method Reindex()
      modifies table
      ensures table.Valid() && table.Counts(store.state.grants) && table.index == IndexOf(store.state.grants)
    {
      hide IndexOf, Indexes, LiveIds, DistinctBy, Sorted;
      table.Rebuild(store.state.grants);
    }

    // Sets each generation that was never set.
    method Bootstrap() returns (status: Option<ErrorCode>)
      modifies store
      ensures Effect(store.state, status) == B.Bootstraps(old(store.state), Env())
    {
      hide C.Commit;
      var fabric, capacity, evidence :=
        store.state.fabricGeneration == 0, store.state.capacityGeneration == 0, store.state.evidenceGeneration == 0;
      status := None;
      if fabric { status := CommitRecord(FabricAdvanced(1)); }
      if status.Some? { return; }
      if capacity { status := CommitRecord(CapacityAdvanced(1)); }
      if status.Some? { return; }
      if evidence { status := CommitRecord(EvidenceAdvanced(1)); }
    }

    // Fences every grant found live at start-up, while fence identities last.
    method FenceEarlier(ids: seq<u64>, clock: u64) returns (status: Option<ErrorCode>)
      requires Apart()
      modifies store, fenceIds
      ensures var r := B.FenceAll(old(View()), ids, clock, Env());
        if status.None? then r == Ok(View()) else r == Err(status.value)
    {
      hide C.Commit, Lookup;
      ghost var start := View();
      assert ids[0..] == ids;
      for i := 0 to |ids|
        invariant B.FenceAll(View(), ids[i..], clock, Env()) == B.FenceAll(start, ids, clock, Env())
      {
        assert ids[i..] != [] && ids[i..][1..] == ids[i + 1..] && ids[i..][0] == ids[i];
        var found := table.Find(store.state.grants, ids[i]);
        if found.Some? {
          var g := found.value;
          var fenceId := fenceIds.Allocate();
          if fenceId.None? { return None; }
          status := CommitRecord(GrantEnded(ByFence, Fence(fenceId.value, g.id, g.binding, g.binding, clock)));
          if status.Some? { return; }
        }
      }
      status := None;
    }
  }

  // The identities of the grants found live, in vector order.
  method CollectLive(gs: seq<Grant>) returns (ids: seq<u64>)
    ensures ids == B.LiveNow(gs)
  {
    hide Filter;
    ids := [];
    NoIds(gs);
    for i := 0 to |gs|
      invariant ids == B.LiveNow(gs[..i])
    {
      LiveNext(gs, i);
      if gs[i].Live() { ids := ids + [gs[i].id]; }
    }
    assert gs[..|gs|] == gs;
  }

  // Coordinator::create over an opened store. It leaves no earlier grant live exactly
  // when every live grant is looked up in turn and there are fence identities for all,
  // and then the coordinator starts synced.
  method Open(store: StateStore, maxLive: nat, full: nat -> bool) returns (r: Result<Coordinator>)
    requires B.Recovered(store.state)
    modifies store
    ensures var made := B.Create(old(store.state), C.Env(store.cfg, full));
      && (r.Err? ==> made == Err(r.error))
      && (r.Ok? ==> fresh(r.value) && r.value.store == store && r.value.full == full && made == Ok(r.value.View()))
    ensures r.Ok? ==>
      (var rep := old(store.state);
       && r.value.Steady()
       && (B.AllEnded(store.state.grants) <==>
             (&& B.AllInTurn(rep, C.Env(store.cfg, full))
              && Count(IsLive, rep.grants) <= B.FencesLeft(C.Observed(1, rep.fenceHigh))))
       && (B.AllEnded(store.state.grants) ==> r.value.Synced()))
  {
    hide B.Recovered, C.Commit, B.FenceAll, B.LiveNow, IndexOf, C.Observed, C.Good, C.Orderly, Indexes, LiveIds,
         DistinctBy, Count, B.Bootstraps, B.Clock, GrantTable.Mirrors, B.FencesLeft, Sorted, B.AllInTurn, B.AllEnded;
    ghost var rep, env := store.state, C.Env(store.cfg, full);
    var made := new Coordinator(store, maxLive, full);
    made.Reindex();
    made.grantIds.Observe(store.state.grantHigh);
    made.fenceIds.Observe(store.state.fenceHigh);
    var clock := B.Clock(store.state);
    if store.state.boot == U64_MAX || store.state.term == U64_MAX { return Err(Exhausted); }
    var status := made.CommitRecord(BootAdvanced(store.state.boot + 1, store.state.term + 1, clock));
    if status.Some? { return Err(status.value); }
    status := made.Bootstrap();
    if status.Some? { return Err(status.value); }
    var ids := CollectLive(store.state.grants);
    status := made.FenceEarlier(ids, clock);
    if status.Some? { return Err(status.value); }
    B.BootEndsExactly(rep, env);
    made.Reindex();
    r := Ok(made);
  }

  // --------------------------------------------------------------------------
  // Live identities through a commit
  // --------------------------------------------------------------------------

  // Retention drops ended grants only, so the live identities stay.
  lemma {:induction false} RemainsLiveIds(hs: seq<Grant>, gs: seq<Grant>)
    requires C.Remains(hs, gs)
    ensures LiveIds(hs) == LiveIds(gs)
  {
    hide Filter, SortBy;
    MappedPermutes(IdOf, Filter(IsLive, hs), Filter(IsLive, gs));
    LiveIdsSorted(hs);
    SameElements(LiveIds(hs), Mapped(IdOf, Filter(IsLive, hs)));
    SameElements(LiveIds(gs), Mapped(IdOf, Filter(IsLive, gs)));
    AreLiveIds(LiveIds(hs), gs);
  }

  // A rebinding leaves the live identities alone.
  lemma {:induction false} NeutrallyLive(c: C.Coord, r: Record)
    requires r.DecisionRecorded? || r.GrantRebound?
    requires r.GrantRebound? && GrantAt(c.state.grants, r.grantId) < |c.state.grants| ==>
      c.state.grants[GrantAt(c.state.grants, r.grantId)].Live()
    ensures LiveIds(C.Neutrally(c, r)) == LiveIds(c.state.grants)
  {
    hide GrantAt, LiveIds, Sorted;
    if r.GrantRebound? && GrantAt(c.state.grants, r.grantId) < |c.state.grants| {
      var i := GrantAt(c.state.grants, r.grantId);
      LiveIdsUpdate(c.state.grants, i, c.state.grants[i].(binding := r.binding));
      LiveIdsSorted(C.Neutrally(c, r));
      AreLiveIds(LiveIds(C.Neutrally(c, r)), c.state.grants);
    }
  }

  lemma {:induction false} LiveIdsCounted(gs: seq<Grant>)
    ensures |LiveIds(gs)| == Count(IsLive, gs)
  {
    hide Count, Filter, SortBy;
    C.CountIsFilter(gs);
    SameElements(LiveIds(gs), Mapped(IdOf, Filter(IsLive, gs)));
  }

  lemma {:induction false} FoundIsIndexed(c: C.Coord, id: u64)
    requires Lookup(c.index, c.state.grants, id).Some?
    ensures id in c.index
  {
  }

  // A report that drops nothing keeps a good coordinator good.
  lemma {:induction false} StaysGood(c: C.Coord, next: GrantState, id: u64, attempt: u64, now: u64, env: C.Env)
    requires next.Acknowledged? || next.Applied?
    ensures var d := C.ReportGrant(c, next, id, attempt, now, env).0;
      C.Good(c) && C.Undropped(c.state, d.state) ==> C.Good(d)
  {
    hide C.Good, C.ReportGrant, C.Logged, C.Advances;
    if C.Good(c) && C.Undropped(c.state, C.ReportGrant(c, next, id, attempt, now, env).0.state) {
      NoPairs(c);
      C.ReportStep(c, [], next, id, attempt, now, env);
    }
  }
}
