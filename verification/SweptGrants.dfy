// What a sweep leaves behind (sweep_locked in src/runtime/coordinator.cpp), under
// conditions the coordinator shows before it: everything still live is current, is as it
// was or backed by the plan, and what was carried over on a scope fits what was observed.
module SweptGrants {
  import opened Core
  import opened Guarantees
  import opened Allocator
  import opened Grants
  import opened Store
  import opened Closure
  import opened GrantTables
  import opened Coordinators
  import opened BootFencing
  import opened SweepSafety
  import opened Sweeps
  import opened Sorting
  import opened Sums
  import opened Subsets

  // --------------------------------------------------------------------------
  // Room that can be checked before the sweep
  // --------------------------------------------------------------------------

  // No pruning within so many fences, decisions and records.
  predicate Room(s: Durable, fences: nat, decisions: nat, records: nat, env: Env) {
    && |s.grants| <= env.cfg.maxGrants * 2 && |s.fences| + fences <= env.cfg.maxFences * 2
    && |s.decisions| + decisions <= env.cfg.maxDecisions * 2
    && forall k | s.journalRecords <= k < s.journalRecords + records :: !env.full(k)
  }

  // Pruning drops no grant for that long: there is no pruning, or there are no more grants
  // than are retained.
  predicate Ample(s: Durable, fences: nat, decisions: nat, records: nat, env: Env) {
    |s.grants| <= env.cfg.maxGrants || Room(s, fences, decisions, records, env)
  }

  lemma {:induction false} AmpleLess(s: Durable, fences: nat, decisions: nat, records: nat, f: nat, d: nat, n: nat,
                                     env: Env)
    requires Ample(s, fences, decisions, records, env) && f <= fences && d <= decisions && n <= records
    ensures Ample(s, f, d, n, env)
  {
  }

  // A commit that fails leaves everything but the numbering.
  lemma {:induction false} FailureLeaves(s: Durable, r: Record, env: Env)
    requires Sound(s) && Admissible(r, Numbered(s)) && Commit(s, r, env).status.Some?
    ensures Commit(s, r, env).state == s || Commit(s, r, env).state == Numbered(s)
  {
    hide Apply, Prune, Overfull, Sound, Roomy, Keeps, Admissible;
    if s.journalSequence < U64_MAX && s.journalRecords < U64_MAX {
      var n := Numbered(s);
      NumberedRoomy(s);
      ApplyKeeps(n, r, env.cfg);
      KeepsMeans(n, Apply(n, r, env.cfg));
      KeepsSound(n, Apply(n, r, env.cfg));
      PruneCounts(Apply(n, r, env.cfg).state, env.cfg);
    }
  }

  // A record that lists no new grant and changes no counter but its own.
  predicate RoutineRecord(r: Record) {
    r.GrantEnded? || r.DecisionRecorded? || r.GrantRebound? || r.GrantAcknowledged? || r.GrantApplied?
  }

  // What such a record adds before retention.
  lemma {:induction false} RecordAdds(s: Durable, r: Record, cfg: Config)
    requires RoutineRecord(r) && Apply(s, r, cfg).status.None?
    ensures var t := Apply(s, r, cfg).state;
      && |t.grants| == |s.grants| && |t.fences| == |s.fences| + One(r.GrantEnded?)
      && |t.decisions| == |s.decisions| + One(r.DecisionRecorded?)
      && t.journalRecords == s.journalRecords && t.journalSequence == s.journalSequence
  {
    hide GrantAt, DecisionCount, SetDecisionCount;
  }

  // With room the record is applied and nothing is pruned.
  lemma {:induction false} RoomCommit(s: Durable, r: Record, fences: nat, decisions: nat, records: nat, env: Env)
    requires Sound(s) && RoutineRecord(r) && Room(s, fences, decisions, records, env) && records > 0
    requires (r.GrantEnded? ==> fences > 0) && (r.DecisionRecorded? ==> decisions > 0)
    ensures var t := Commit(s, r, env).state;
      && Undropped(s, t)
      && Room(t, fences - One(r.GrantEnded?), decisions - One(r.DecisionRecorded?), records - 1, env)
  {
    hide Apply, Sound, Commit, Prune;
    if Commit(s, r, env).status.Some? {
      FailureLeaves(s, r, env);
    } else {
      CommitCases(s, r, env);
      RecordAdds(Numbered(s), r, env.cfg);
      assert !env.full(s.journalRecords);
    }
  }

  // Within retention a pruning drops nothing.
  lemma {:induction false} SmallCommit(s: Durable, r: Record, env: Env)
    requires Sound(s) && RoutineRecord(r) && |s.grants| <= env.cfg.maxGrants
    ensures Undropped(s, Commit(s, r, env).state)
  {
    hide Apply, Sound, Commit, Dropped;
    CommitCases(s, r, env);
    if Commit(s, r, env).status.None? {
      RecordAdds(Numbered(s), r, env.cfg);
      NothingDropped(Apply(Numbered(s), r, env.cfg).state.grants, env.cfg);
    }
  }

  // What an operation that commits one record leaves of the room.
  ghost predicate Spares(c: Coord, d: Coord, fences: nat, decisions: nat, records: nat, env: Env) {
    Good(d) && Undropped(c.state, d.state) && Ample(d.state, fences, decisions, records, env)
  }

  // A fence commit that has room drops nothing and takes at most one fence and one record.
  lemma {:induction false} FenceRoom(c: Coord, id: u64, k: EndKind, now: u64, fences: nat, decisions: nat,
                                     records: nat, env: Env)
    requires Sound(c.state) && fences > 0 && records > 0
    ensures var d := FenceGrant(c, id, k, now, env).0;
      && (|c.state.grants| <= env.cfg.maxGrants ==> Undropped(c.state, d.state))
      && (Room(c.state, fences, decisions, records, env) ==>
            Undropped(c.state, d.state) && Room(d.state, fences - 1, decisions, records - 1, env))
  {
    hide Commit, Lookup, Sound;
    var found := Lookup(c.index, c.state.grants, id);
    if found.Some? && found.value.Live() && c.nextFence != 0 {
      var r := GrantEnded(k, FenceFor(c, found.value, id, now));
      if |c.state.grants| <= env.cfg.maxGrants { SmallCommit(c.state, r, env); }
      if Room(c.state, fences, decisions, records, env) { RoomCommit(c.state, r, fences, decisions, records, env); }
    }
  }

  lemma {:induction false} FenceSpares(c: Coord, id: u64, k: EndKind, now: u64, fences: nat, decisions: nat,
                                       records: nat, env: Env)
    requires Good(c) && Ample(c.state, fences, decisions, records, env) && fences > 0 && records > 0
    ensures Spares(c, FenceGrant(c, id, k, now, env).0, fences - 1, decisions, records - 1, env)
  {
    hide Good, FenceGrant, Room, Sound;
    GoodParts(c);
    FenceRoom(c, id, k, now, fences, decisions, records, env);
    FenceStep(c, id, k, now, env);
  }

  lemma {:induction false} NeutralSpares(c: Coord, r: Record, fences: nat, decisions: nat, records: nat, env: Env)
    requires Good(c) && (r.DecisionRecorded? || r.GrantRebound?)
    requires Ample(c.state, fences, decisions, records, env) && One(r.DecisionRecorded?) <= decisions && records > 0
    ensures Spares(c, CommitNeutral(c, r, env), fences, decisions - One(r.DecisionRecorded?), records - 1, env)
  {
    hide Good, Commit, Room, Sound, Logged;
    GoodParts(c);
    if |c.state.grants| <= env.cfg.maxGrants {
      SmallCommit(c.state, r, env);
    } else {
      RoomCommit(c.state, r, fences, decisions, records, env);
    }
    NoPairs(c);
    NeutralStep(c, [], r, env);
  }

  lemma {:induction false} SparesOn(c: Coord, d: Coord, e: Coord, f: nat, n: nat, k: nat, fences: nat, decisions: nat,
                                    records: nat, env: Env)
    requires Undropped(c.state, d.state) && Spares(d, e, f, n, k, env)
    requires fences <= f && decisions <= n && records <= k
    ensures Spares(c, e, fences, decisions, records, env)
  {
    hide Good;
    AmpleLess(e.state, f, n, k, fences, decisions, records, env);
  }

  lemma {:induction false} ReevaluateSpares(c: Coord, id: u64, g: Grant, w: Round, n: nat, env: Env)
    requires Good(c) && n > 0 && Ample(c.state, n, n, 3 * n, env)
    ensures Spares(c, ReevaluateOne(c, id, g, w, env), n - 1, n - 1, 3 * n - 3, env)
  {
    hide Good, Commit, CommitNeutral, FenceGrant, StillCovers, Ample;
    var decision := w.eval.decide(g.binding.contract, c.state.journalRecords);
    if decision.None? {
      FenceSpares(c, id, ByFence, w.now, n, n, 3 * n, env);
      SparesOn(c, c, FenceGrant(c, id, ByFence, w.now, env).0, n - 1, n, 3 * n - 1, n - 1, n - 1, 3 * n - 3, env);
    } else {
      var r := DecisionRecorded(decision.value);
      var d := CommitNeutral(c, r, env);
      NeutralSpares(c, r, n, n, 3 * n, env);
      if Commit(c.state, r, env).status.Some? || !StillCovers(w.eval.approved(g.binding.contract), g) {
        FenceSpares(d, id, ByFence, w.now, n, n - 1, 3 * n - 1, env);
        SparesOn(c, d, FenceGrant(d, id, ByFence, w.now, env).0, n - 1, n - 1, 3 * n - 2, n - 1, n - 1, 3 * n - 3, env);
      } else {
        RebindSpares(c, d, id, GrantRebound(id, Rebound(g, w.current).binding), w, n, env);
      }
    }
  }

  lemma {:induction false} RebindSpares(c: Coord, d: Coord, id: u64, r: Record, w: Round, n: nat, env: Env)
    requires n > 0 && Spares(c, d, n, n - 1, 3 * n - 1, env) && r.GrantRebound?
    ensures var moved := CommitNeutral(d, r, env);
      && Spares(c, moved, n - 1, n - 1, 3 * n - 3, env)
      && Spares(c, FenceGrant(moved, id, ByFence, w.now, env).0, n - 1, n - 1, 3 * n - 3, env)
  {
    hide Good, Commit, CommitNeutral, FenceGrant, Room;
    NeutralSpares(d, r, n, n - 1, 3 * n - 1, env);
    var moved := CommitNeutral(d, r, env);
    SparesOn(c, d, moved, n, n - 1, 3 * n - 2, n - 1, n - 1, 3 * n - 3, env);
    FenceSpares(moved, id, ByFence, w.now, n, n - 1, 3 * n - 2, env);
    var fenced := FenceGrant(moved, id, ByFence, w.now, env).0;
    SparesOn(c, moved, fenced, n - 1, n - 1, 3 * n - 3, n - 1, n - 1, 3 * n - 3, env);
  }

  lemma {:induction false} TurnSpares(c: Coord, id: u64, w: Round, n: nat, env: Env)
    requires Good(c) && n > 0 && Ample(c.state, n, n, 3 * n, env)
    ensures Spares(c, SweepOne(c, id, w, env), n - 1, n - 1, 3 * n - 3, env)
  {
    hide Good, FenceGrant, ReevaluateOne, Standing, Lookup, Ample;
    AmpleLess(c.state, n, n, 3 * n, n - 1, n - 1, 3 * n - 3, env);
    FenceSpares(c, id, ByExpiry, w.now, n, n, 3 * n, env);
    FenceSpares(c, id, ByFence, w.now, n, n, 3 * n, env);
    SparesOn(c, c, FenceGrant(c, id, ByExpiry, w.now, env).0, n - 1, n, 3 * n - 1, n - 1, n - 1, 3 * n - 3, env);
    SparesOn(c, c, FenceGrant(c, id, ByFence, w.now, env).0, n - 1, n, 3 * n - 1, n - 1, n - 1, 3 * n - 3, env);
    var found := Lookup(c.index, c.state.grants, id);
    if found.Some? { ReevaluateSpares(c, id, found.value, w, n, env); }
  }

  // With an exact index and room for three records per identity, or within retention, a
  // sweep drops nothing.
  lemma {:induction false} SweepDropsNothing(c: Coord, ids: seq<u64>, w: Round, env: Env)
    requires Good(c) && Ample(c.state, |ids|, |ids|, 3 * |ids|, env)
    ensures Undropped(c.state, SweepAll(c, ids, w, env).state)
    decreases |ids|
  {
    hide Good, SweepOne, Ample;
    if ids != [] {
      TurnSpares(c, ids[0], w, |ids|, env);
      SweepDropsNothing(SweepOne(c, ids[0], w, env), ids[1..], w, env);
    }
  }

  // So such a sweep is fair: what it leaves live is as it was, or rebound because it was
  // itself to be re-evaluated and the approval covers it.
  lemma {:induction false} SweepSurvivors(c: Coord, ids: seq<u64>, w: Round, env: Env)
    requires Good(c) && Distinct(ids) && Ample(c.state, |ids|, |ids|, 3 * |ids|, env)
    ensures Good(SweepAll(c, ids, w, env))
    ensures FairlySwept(c.state.grants, SweepAll(c, ids, w, env).state.grants, w)
  {
    hide Good, SweepAll, Ample, FairlySwept, NoneMisjudged, Distinct;
    GoodParts(c);
    SweepDropsNothing(c, ids, w, env);
    ExactSweep(c, ids, w, env);
    SweepIsFairIff(c, ids, w, env);
  }

  // --------------------------------------------------------------------------
  // Nothing outdated stays live
  // --------------------------------------------------------------------------

  lemma {:induction false} EndApplies(n: Durable, k: EndKind, f: Fence, cfg: Config)
    requires Roomy(n) && LiveAt(n.grants, f.grant).Some?
    ensures Apply(n, GrantEnded(k, f), cfg).status.None?
  {
    hide GrantAt, Count, Closed;
    ApplyKeeps(n, GrantEnded(k, f), cfg);
  }

  // In its place, with a fence identity and a record left, a live grant can be ended.
  lemma {:induction false} FenceEnds(c: Coord, id: u64, k: EndKind, now: u64, env: Env)
    requires Good(c) && LiveAt(c.state.grants, id).Some? && c.nextFence != 0
    requires c.state.journalSequence < U64_MAX && c.state.journalRecords < U64_MAX
    ensures LiveAt(FenceGrant(c, id, k, now, env).0.state.grants, id).None?
  {
    hide Good, Orderly, Apply, Commit, Sound, Lookup, GrantAt, Roomy, SameBut;
    GoodParts(c);
    FindsIt(c, id);
    var g := LiveAt(c.state.grants, id).value;
    var r := GrantEnded(k, FenceFor(c, g, id, now));
    NumberedRoomy(c.state);
    EndApplies(Numbered(c.state), k, r.fence, env.cfg);
    CommitSucceedsIff(c.state, r, env);
    FenceLive(c, id, k, now, env);
  }

  // A turn takes at most one fence identity and three records.
  ghost predicate Spends(c: Coord, d: Coord, records: nat) {
    && (d.nextFence == c.nextFence || d.nextFence == Successor(c.nextFence))
    && c.state.journalSequence <= d.state.journalSequence <= c.state.journalSequence + records
    && c.state.journalRecords <= d.state.journalRecords <= c.state.journalRecords + records
  }

  lemma {:induction false} FenceSpends(c: Coord, id: u64, k: EndKind, now: u64, env: Env)
    ensures Spends(c, FenceGrant(c, id, k, now, env).0, 1)
  {
    hide Commit, Lookup;
    var found := Lookup(c.index, c.state.grants, id);
    if found.Some? && found.value.Live() && c.nextFence != 0 {
      CommitNumbers(c.state, GrantEnded(k, FenceFor(c, found.value, id, now)), env);
    }
  }

  lemma {:induction false} ReevaluateSpends(c: Coord, id: u64, g: Grant, w: Round, env: Env)
    ensures Spends(c, ReevaluateOne(c, id, g, w, env), 3)
  {
    hide Commit, FenceGrant, StillCovers;
    var decision := w.eval.decide(g.binding.contract, c.state.journalRecords);
    FenceSpends(c, id, ByFence, w.now, env);
    if decision.Some? {
      var r := DecisionRecorded(decision.value);
      var d := CommitNeutral(c, r, env);
      CommitNumbers(c.state, r, env);
      FenceSpends(d, id, ByFence, w.now, env);
      var s := GrantRebound(id, Rebound(g, w.current).binding);
      CommitNumbers(d.state, s, env);
      FenceSpends(CommitNeutral(d, s, env), id, ByFence, w.now, env);
    }
  }

  lemma {:induction false} TurnSpends(c: Coord, id: u64, w: Round, env: Env)
    ensures Spends(c, SweepOne(c, id, w, env), 3)
  {
    hide FenceGrant, ReevaluateOne, Standing, Lookup;
    FenceSpends(c, id, ByExpiry, w.now, env);
    FenceSpends(c, id, ByFence, w.now, env);
    var found := Lookup(c.index, c.state.grants, id);
    if found.Some? { ReevaluateSpends(c, id, found.value, w, env); }
  }

  // Whatever of the identity is still live is not expired and is bound to the authority in
  // force.
  ghost predicate SettledAt(gs: seq<Grant>, id: u64, w: Round) {
    LiveAt(gs, id).Some? ==>
      w.now <= LiveAt(gs, id).value.expiresTick && LiveAt(gs, id).value.binding.vector == w.current
  }

  lemma {:induction false} ReboundIsCurrent(g: Grant, w: Round)
    requires Standing(g, w.current, w.now) == Reevaluate
    ensures w.now <= Rebound(g, w.current).expiresTick && Rebound(g, w.current).binding.vector == w.current
  {
  }

  lemma {:induction false} ReevaluateSettles(c: Coord, id: u64, g: Grant, w: Round, env: Env)
    requires Good(c) && LiveAt(c.state.grants, id) == Some(g) && c.nextFence != 0
    requires Undropped(c.state, ReevaluateOne(c, id, g, w, env).state) && Standing(g, w.current, w.now) == Reevaluate
    requires c.state.journalSequence + 3 <= U64_MAX && c.state.journalRecords + 3 <= U64_MAX
    ensures SettledAt(ReevaluateOne(c, id, g, w, env).state.grants, id, w)
  {
    hide Good, Orderly, Commit, FenceGrant, StillCovers, LiveAt, SameBut, SameSubject;
    GoodParts(c);
    var decision := w.eval.decide(g.binding.contract, c.state.journalRecords);
    if decision.None? {
      FenceEnds(c, id, ByFence, w.now, env);
    } else {
      var r := DecisionRecorded(decision.value);
      var d := CommitNeutral(c, r, env);
      DecisionLive(c, decision.value, env);
      CommitNumbers(c.state, r, env);
      assert LiveAt(d.state.grants, id) == Some(g);
      if !StillCovers(w.eval.approved(g.binding.contract), g) {
        FenceLive(d, id, ByFence, w.now, env);
        NeutralGood(c, r, env);
        FenceEnds(d, id, ByFence, w.now, env);
      } else {
        RebindLive(d, id, Rebound(g, w.current).binding, env);
        SameRebinding(g, g, w.current);
        ReboundIsCurrent(g, w);
      }
    }
  }

  // A turn that finds the grant in its place leaves it current or ends it, unless it runs
  // out of fence identities or of records.
  lemma {:induction false} TurnSettles(c: Coord, id: u64, w: Round, env: Env)
    requires Good(c) && Undropped(c.state, SweepOne(c, id, w, env).state)
    ensures SettledAt(SweepOne(c, id, w, env).state.grants, id, w) || c.nextFence == 0
      || c.state.journalSequence + 3 > U64_MAX || c.state.journalRecords + 3 > U64_MAX
  {
    hide Good, Orderly, FenceGrant, ReevaluateOne, Lookup, GrantAt;
    FindsIt(c, id);
    GoodParts(c);
    if LiveAt(c.state.grants, id).Some? && c.nextFence != 0
      && c.state.journalSequence + 3 <= U64_MAX && c.state.journalRecords + 3 <= U64_MAX {
      var g := LiveAt(c.state.grants, id).value;
      match Standing(g, w.current, w.now)
      case Untouched =>
      case Expire => FenceEnds(c, id, ByExpiry, w.now, env);
      case FenceOff => FenceEnds(c, id, ByFence, w.now, env);
      case Reevaluate => ReevaluateSettles(c, id, g, w, env);
    }
  }

  lemma {:induction false} OneFenceFewer(next: u64, n: nat)
    requires n > 0 && n <= FencesLeft(next)
    ensures next != 0 && n - 1 <= FencesLeft(next) && n - 1 <= FencesLeft(Successor(next))
  {
  }

  // So with a fence identity and three records for every identity swept, nothing swept
  // stays live outdated.
  lemma {:induction false} SweepSettles(c: Coord, ids: seq<u64>, w: Round, env: Env)
    requires Good(c) && Distinct(ids) && Undropped(c.state, SweepAll(c, ids, w, env).state)
    requires |ids| <= FencesLeft(c.nextFence)
    requires c.state.journalSequence + 3 * |ids| <= U64_MAX && c.state.journalRecords + 3 * |ids| <= U64_MAX
    ensures forall id | id in ids :: SettledAt(SweepAll(c, ids, w, env).state.grants, id, w)
    decreases |ids|
  {
    hide Good, Orderly, SweepOne, LiveAt, Standing, SameBut, CarriesOver, FencesLeft;
    if ids != [] {
      var d, rest := SweepOne(c, ids[0], w, env), ids[1..];
      GoodParts(c);
      TurnOutcome(c, ids[0], w, env);
      SweepAdvances(d, rest, w, env);
      TurnGood(c, ids[0], w, env);
      OneFenceFewer(c.nextFence, |ids|);
      TurnSpends(c, ids[0], w, env);
      TurnSettles(c, ids[0], w, env);
      SweepSettles(d, rest, w, env);
      SweepElsewhere(d, rest, w, env, ids[0]);
      assert forall id | id in ids :: id == ids[0] || id in rest;
    }
  }

  // --------------------------------------------------------------------------
  // The sweep over all live grants
  // --------------------------------------------------------------------------

  lemma {:induction false} LiveIdsDistinct(gs: seq<Grant>)
    requires IdsClimb(gs)
    ensures Distinct(LiveIds(gs)) && forall id: u64 | LiveAt(gs, id).Some? :: id in LiveIds(gs)
  {
    hide SortBy, Filter, GrantAt;
    var live := Filter(IsLive, gs);
    var ids := Mapped(IdOf, live);
    LiveClimb(gs);
    SameElements(LiveIds(gs), ids);
    assert forall i, j | 0 <= i < j < |ids| :: ids[i] == IdOf(live[i]) && ids[j] == IdOf(live[j]);
    DistinctPermutes(ids, LiveIds(gs));
    FilterKeepsAll(IsLive, gs);
    forall id: u64 | LiveAt(gs, id).Some? ensures id in LiveIds(gs) {
      var g := LiveAt(gs, id).value;
      LiveIsMember(gs, id);
      assert g in live;
      var k: nat :| k < |live| && live[k] == g;
      assert ids[k] == IdOf(live[k]) && ids[k] in ids;
    }
  }

  lemma {:induction false} RepeatCounts(s: seq<u64>, i: nat, j: nat)
    requires i < j < |s| && s[i] == s[j]
    ensures multiset(s)[s[i]] >= 2
  {
    assert s == s[..j] + [s[j]] + s[j + 1..];
    assert s[..j] == s[..i] + [s[i]] + s[i + 1..j];
  }

  lemma {:induction false} DistinctPermutes(a: seq<u64>, b: seq<u64>)
    requires Distinct(a) && multiset(a) == multiset(b)
    ensures Distinct(b)
  {
    DistinctCounts(a);
    forall i, j | 0 <= i < j < |b| && b[i] == b[j] ensures false {
      RepeatCounts(b, i, j);
    }
  }

  lemma {:induction false} DistinctCounts(a: seq<u64>)
    requires Distinct(a)
    ensures forall x :: multiset(a)[x] <= 1
  {
    if a != [] {
      DistinctCounts(a[1..]);
      assert a == [a[0]] + a[1..];
      assert a[0] !in a[1..];
    }
  }

  // Everything live after the sweep over all live grants is current, and is as it was or
  // was rebound because the plan backs it. All of this can be read off the coordinator
  // before: the index is exact, pruning drops nothing for as long as the sweep lasts, and
  // there are fence identities and records enough.
  lemma {:induction false} SweepLeavesCurrent(c: Coord, w: Round, env: Env)
    requires Good(c)
    requires var n := |LiveIds(c.state.grants)|;
      && Ample(c.state, n, n, 3 * n, env) && n <= FencesLeft(c.nextFence)
      && c.state.journalSequence + 3 * n <= U64_MAX && c.state.journalRecords + 3 * n <= U64_MAX
    ensures var after := SweepAll(c, LiveIds(c.state.grants), w, env).state.grants;
      FairlySwept(c.state.grants, after, w) && forall id: u64 :: SettledAt(after, id, w)
  {
    hide Good, Orderly, SweepAll, Ample, FairlySwept, NoneMisjudged, Distinct, LiveIds, LiveAt, Standing, FencesLeft;
    GoodParts(c);
    var ids := LiveIds(c.state.grants);
    LiveIdsDistinct(c.state.grants);
    SweepSurvivors(c, ids, w, env);
    SweepDropsNothing(c, ids, w, env);
    SweepSettles(c, ids, w, env);
    forall id: u64 ensures SettledAt(SweepAll(c, ids, w, env).state.grants, id, w) {
      if id !in ids { SweepElsewhere(c, ids, w, env, id); }
    }
  }

  // --------------------------------------------------------------------------
  // The grants on one scope
  // --------------------------------------------------------------------------

  // What the sweep consulted for the contracts of these grants is the plan of the request.
  ghost predicate FromPlan(eval: Evaluations, r: Request, gs: seq<Grant>) {
    && Allocate(r).Ok?
    && forall g | g in gs ::
         ApprovedFor(g.binding.contract, eval.approved(g.binding.contract), Allocate(r).value.entries)
  }

  // g is live after the sweep and was not there like that before.
  ghost predicate MovedBySweep(g: Grant, before: seq<Grant>, after: seq<Grant>) {
    LiveAt(after, g.id) == Some(g) && LiveAt(before, g.id) != Some(g)
  }

  lemma {:induction false} MovedIsBacked(g: Grant, before: seq<Grant>, after: seq<Grant>, w: Round, r: Request)
    returns (e: Entry)
    requires FairlySwept(before, after, w) && MovedBySweep(g, before, after) && Allocate(r).Ok?
    requires ApprovedFor(g.binding.contract, w.eval.approved(g.binding.contract), Allocate(r).value.entries)
    ensures Backed(g, e, Allocate(r).value.entries)
  {
    hide Allocate, Standing, Weakens, ApprovedFor, LiveAt;
    assert FairAt(before, after, g.id, w);
    var l := LiveAt(before, g.id).value;
    e := CarriedIsBacked(r, l, w.eval.approved(l.binding.contract));
  }

  ghost predicate IsBacked(g: Grant, entries: seq<Entry>) {
    exists e :: Backed(g, e, entries)
  }

  lemma {:induction false} NoneBacked(entries: seq<Entry>)
    ensures BackedBy([], [], entries)
  {
  }

  lemma {:induction false} BackedNext(gs: seq<Grant>, es: seq<Entry>, entries: seq<Entry>)
    requires gs != [] && es != [] && Backed(gs[0], es[0], entries) && BackedBy(gs[1..], es[1..], entries)
    ensures BackedBy(gs, es, entries)
  {
    hide Backed;
    assert forall i | 0 <= i < |gs[1..]| :: gs[1..][i] == gs[i + 1] && es[1..][i] == es[i + 1];
  }

  lemma {:induction false} CollectBacking(gs: seq<Grant>, before: seq<Grant>, after: seq<Grant>, w: Round, r: Request)
    returns (es: seq<Entry>)
    requires FairlySwept(before, after, w) && FromPlan(w.eval, r, gs)
    requires forall i | 0 <= i < |gs| :: MovedBySweep(gs[i], before, after)
    ensures BackedBy(gs, es, Allocate(r).value.entries)
    decreases |gs|
  {
    hide Allocate, FairlySwept, MovedBySweep, ApprovedFor, Backed, BackedBy;
    if gs == [] {
      NoneBacked(Allocate(r).value.entries);
      es := [];
    } else {
      assert gs[0] in gs;
      var e := MovedIsBacked(gs[0], before, after, w, r);
      var rest := CollectBacking(gs[1..], before, after, w, r);
      es := [e] + rest;
      BackedNext(gs, es, Allocate(r).value.entries);
    }
  }

  // After a fair sweep, the grants it carried over on one scope, one per contract, promise
  // together no more bandwidth than the snapshot observed, each a weakening of what the
  // current plan approves.
  lemma {:induction false} FairGrantsFit(before: seq<Grant>, after: seq<Grant>, w: Round, r: Request, gs: seq<Grant>)
    requires FairlySwept(before, after, w) && FromPlan(w.eval, r, gs) && DistinctBy(ContractKey, gs)
    requires forall i | 0 <= i < |gs| :: MovedBySweep(gs[i], before, after)
    ensures SumBy(PromisedBy, gs) <= r.capability.bandwidth
    ensures forall i | 0 <= i < |gs| :: IsBacked(gs[i], Allocate(r).value.entries)
  {
    hide FairlySwept, Allocate, MovedBySweep, ApprovedFor, SumBy, DistinctBy, Backed;
    var es := CollectBacking(gs, before, after, w, r);
    SweptPromisesFit(r, gs, es);
    forall i | 0 <= i < |gs| ensures IsBacked(gs[i], Allocate(r).value.entries) {
      assert Backed(gs[i], es[i], Allocate(r).value.entries);
    }
  }

  // And a sweep is fair when the index is exact and pruning drops nothing while it lasts.
  lemma {:induction false} SweptGrantsFit(c: Coord, ids: seq<u64>, w: Round, env: Env, r: Request, gs: seq<Grant>)
    requires Good(c) && Distinct(ids) && Ample(c.state, |ids|, |ids|, 3 * |ids|, env)
    requires FromPlan(w.eval, r, gs) && DistinctBy(ContractKey, gs)
    requires var after := SweepAll(c, ids, w, env).state.grants;
      forall i | 0 <= i < |gs| :: MovedBySweep(gs[i], c.state.grants, after)
    ensures SumBy(PromisedBy, gs) <= r.capability.bandwidth
    ensures forall i | 0 <= i < |gs| :: IsBacked(gs[i], Allocate(r).value.entries)
  {
    hide Good, FairlySwept, SweepAll, Allocate, MovedBySweep, ApprovedFor, SumBy, DistinctBy, Backed, Ample, Distinct;
    SweepSurvivors(c, ids, w, env);
    FairGrantsFit(c.state.grants, SweepAll(c, ids, w, env).state.grants, w, r, gs);
  }
}
