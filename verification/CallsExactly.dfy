// How acquisitions and reports are answered (acquire_locked, acknowledge_locked and
// report_applied_locked in src/runtime/coordinator.cpp), told from the fields of the grant
// with the identity.
module CallsExactly {
  import opened Core
  import opened Assessments
  import opened Grants
  import opened Store
  import opened Closure
  import opened Replay
  import opened GrantTables
  import opened Coordinators
  import opened Sweeps
  import opened SweptGrants
  import opened SweptExactly
  import opened StaleReports
  import opened Sums

  // --------------------------------------------------------------------------
  // Reports
  // --------------------------------------------------------------------------

  // A live grant may be acknowledged while it is only issued, and applied until it is.
  predicate MayBecome(state: GrantState, next: GrantState) {
    (next.Acknowledged? && state.Issued?) || (next.Applied? && (state.Issued? || state.Acknowledged?))
  }

  // What a report makes of the grant with the identity, which stands at position i.
  ghost predicate Reported(c: Coord, i: nat, next: GrantState, attempt: u64, now: u64, d: Coord, reply: Reply)
    requires i < |c.state.grants|
  {
    var gs := c.state.grants;
    var g := gs[i];
    if !g.Live() then reply == Declined(InvalidState) && d == c
    else if now > g.expiresTick then
      reply == Declined(Stale) && d.state.grants == if c.nextFence != 0 then gs[i := Over(g, Expired, now)] else gs
    else if attempt != g.lastAttempt then reply == Declined(ReplayDetected) && d == c
    else if !MayBecome(g.state, next) then reply == Declined(InvalidState) && d == c
    else if c.nextAttempt == 0 || g.sequence == U64_MAX then reply == Declined(Exhausted) && d.state == c.state
    else
      var h := g.(state := next, lastTransition := now, lastAttempt := c.nextAttempt, sequence := g.sequence + 1);
      reply == Accepted(h) && d.state.grants == gs[i := h] && d.nextAttempt == Successor(c.nextAttempt)
  }

  lemma {:induction false} AllowedMeans(state: GrantState, next: GrantState)
    requires (next.Acknowledged? || next.Applied?) && !Terminal(state)
    ensures Allowed(state, next) <==> MayBecome(state, next)
  {
  }

  // A record of a report drops nothing where there is room for it.
  lemma {:induction false} RoutineDropsNothing(s: Durable, r: Record, env: Env)
    requires Sound(s) && RoutineRecord(r) && Ample(s, 1, 1, 1, env)
    ensures Undropped(s, Commit(s, r, env).state)
  {
    hide Sound, Commit, Room;
    if |s.grants| <= env.cfg.maxGrants { SmallCommit(s, r, env); } else { RoomCommit(s, r, 1, 1, 1, env); }
  }

  // The move a report commits, where the grant stands in its place.
  lemma {:induction false} MoveExact(c: Coord, i: nat, next: GrantState, id: u64, now: u64, env: Env)
    requires Good(c) && i == GrantAt(c.state.grants, id) < |c.state.grants| && (next.Acknowledged? || next.Applied?)
    requires Allowed(c.state.grants[i].state, next) && c.nextAttempt != 0 && c.state.grants[i].sequence < U64_MAX
    requires c.state.journalSequence < U64_MAX && c.state.journalRecords < U64_MAX && Ample(c.state, 1, 1, 1, env)
    ensures var g := c.state.grants[i];
      var r := ReportRecord(c, next, id, g, now);
      var e := Commit(c.state, r, env);
      && e.status.None?
      && e.state.grants == c.state.grants[i := Transitioned(g, next, now, c.nextAttempt, g.sequence + 1)]
  {
    hide Good, Orderly, Apply, Commit, GrantAt, Allowed, IdsClimb, IdsBelow, Sound, Roomy, Ample, ApplyMoved;
    var s, g := c.state, c.state.grants[i];
    var r := ReportRecord(c, next, id, g, now);
    GoodParts(c);
    NumberedRoomy(s);
    AppliedReport(Numbered(s), next, id, now, c.nextAttempt, g.sequence + 1, env.cfg);
    MoveSucceeds(Numbered(s), next, id, now, c.nextAttempt, g.sequence + 1, i);
    CommitSucceedsIff(s, r, env);
    RoutineDropsNothing(s, r, env);
    ClimbUpdate(s.grants, i, Transitioned(g, next, now, c.nextAttempt, g.sequence + 1));
    CommitMeans(s, r, env);
  }

  lemma {:induction false} FenceOrNot(c: Coord, i: nat, id: u64, now: u64, env: Env)
    requires Good(c) && i == GrantAt(c.state.grants, id) < |c.state.grants| && c.state.grants[i].Live()
    requires c.state.journalSequence < U64_MAX && c.state.journalRecords < U64_MAX && Ample(c.state, 1, 1, 1, env)
    ensures var d, gs := FenceGrant(c, id, ByExpiry, now, env).0, c.state.grants;
      d.state.grants == if c.nextFence != 0 then gs[i := Over(gs[i], Expired, now)] else gs
  {
    hide Good, Ample, GrantAt, Commit, Lookup;
    FenceSpares(c, id, ByExpiry, now, 1, 1, 1, env);
    if c.nextFence != 0 { FenceExact(c, id, ByExpiry, now, env); }
  }

  // From an exact index, with room for one record, a report is answered by the fields of
  // the grant with the identity: not found, ended, expired, another attempt, no longer
  // possible, identities exhausted, or moved on under a new attempt.
  lemma {:induction false} ReportExactly(c: Coord, next: GrantState, id: u64, attempt: u64, now: u64, env: Env)
    requires Good(c) && (next.Acknowledged? || next.Applied?) && Ample(c.state, 1, 1, 1, env)
    requires c.state.journalSequence < U64_MAX && c.state.journalRecords < U64_MAX
    ensures var (d, reply) := ReportGrant(c, next, id, attempt, now, env);
      && ((forall g | g in c.state.grants :: g.id != id) ==> reply == Declined(NotFound) && d == c)
      && (forall i: nat | i < |c.state.grants| && c.state.grants[i].id == id ::
            Reported(c, i, next, attempt, now, d, reply))
  {
    hide Good, GrantAt, Lookup, Ample, Commit, FenceGrant, MoveFound, Allowed, IdsClimb, IdsBelow, Reported;
    var gs := c.state.grants;
    FindsIt(c, id);
    GoodParts(c);
    ClimbIsDistinct(gs);
    forall i: nat | i < |gs| && gs[i].id == id
      ensures var (d, reply) := ReportGrant(c, next, id, attempt, now, env);
        Reported(c, i, next, attempt, now, d, reply) {
      ScanMeaning(gs, i);
      ReportAt(c, i, next, id, attempt, now, env);
    }
  }

  lemma {:induction false} ReportAt(c: Coord, i: nat, next: GrantState, id: u64, attempt: u64, now: u64, env: Env)
    requires Good(c) && (next.Acknowledged? || next.Applied?) && Ample(c.state, 1, 1, 1, env)
    requires c.state.journalSequence < U64_MAX && c.state.journalRecords < U64_MAX
    requires i == GrantAt(c.state.grants, id) < |c.state.grants|
    ensures var (d, reply) := ReportGrant(c, next, id, attempt, now, env);
      Reported(c, i, next, attempt, now, d, reply)
  {
    hide Good, GrantAt, Lookup, Ample, Commit, FenceGrant, Allowed, IdsClimb, IdsBelow, Orderly;
    FindsIt(c, id);
    GoodParts(c);
    var g := c.state.grants[i];
    if g.Live() {
      LiveAttempt(c, i);
      AllowedMeans(g.state, next);
      if now > g.expiresTick {
        FenceOrNot(c, i, id, now, env);
      } else if attempt == g.lastAttempt && Allowed(g.state, next) && c.nextAttempt != 0 && g.sequence < U64_MAX {
        MoveExact(c, i, next, id, now, env);
        MovedIsFound(c, i, next, id, now, env);
      }
    }
  }

  // What the index then leads to.
  lemma {:induction false} MovedIsFound(c: Coord, i: nat, next: GrantState, id: u64, now: u64, env: Env)
    requires Good(c) && i == GrantAt(c.state.grants, id) < |c.state.grants| && c.nextAttempt != 0
    requires c.state.grants[i].sequence < U64_MAX
    requires var g := c.state.grants[i];
      var e := Commit(c.state, ReportRecord(c, next, id, g, now), env);
      e.status.None? && e.state.grants == c.state.grants[i := Transitioned(g, next, now, c.nextAttempt, g.sequence + 1)]
    ensures var (d, reply) := MoveFound(c, next, id, c.state.grants[i], now, env);
      reply == Accepted(d.state.grants[i]) && i < |d.state.grants|
  {
    hide Good, GrantAt, Commit, IdsClimb, IdsBelow;
    GoodParts(c);
    PlaceInIndex(c, i);
  }

  lemma {:induction false} PlaceInIndex(c: Coord, i: nat)
    requires Indexes(c.index, c.state.grants) && i < |c.state.grants|
    ensures c.state.grants[i].id in c.index && c.index[c.state.grants[i].id] == i
  {
  }

  // --------------------------------------------------------------------------
  // Acquisitions
  // --------------------------------------------------------------------------

  lemma {:induction false} IssueOrFull(n: Durable, g: Grant, cfg: Config)
    requires Roomy(n) && GrantAt(n.grants, g.id) == |n.grants| && g.state.Issued?
    ensures var e := Apply(n, GrantIssued(g), cfg);
      e.status == if Count(IsLive, n.grants) >= cfg.maxGrants then Some(CapacityExceeded) else None
  {
    hide Count, GrantAt, Closed;
    ApplyKeeps(n, GrantIssued(g), cfg);
  }

  lemma {:induction false} IssuedStays(gs: seq<Grant>, hs: seq<Grant>, g: Grant)
    requires Remains(hs, gs + [g]) && g.Live()
    ensures g in hs
  {
    hide Filter;
    assert g in gs + [g] && IsLive(g);
  }

  // How an acquisition past its evaluation is answered: refused while the table or the
  // store is full or identities have run out, and otherwise a grant under a new identity
  // and a new attempt that says what was offered.
  lemma {:induction false} AcquireExactly(c: Coord, offer: Offer, now: u64, maxLive: nat, env: Env)
    requires Orderly(c) && c.state.journalSequence < U64_MAX && c.state.journalRecords < U64_MAX
    ensures var (d, reply) := AcquireGrant(c, offer, now, maxLive, env);
      var live := Count(IsLive, c.state.grants);
      if live >= maxLive || c.nextGrant == 0 || c.nextAttempt == 0 then reply == Declined(Exhausted)
      else if live >= env.cfg.maxGrants then reply == Declined(CapacityExceeded)
      else
        && reply.Accepted? && reply.grant in d.state.grants && d.nextGrant == Successor(c.nextGrant)
        && d.nextAttempt == Successor(c.nextAttempt)
        && (var g := reply.grant;
            && g.id == c.nextGrant && g.lastAttempt == c.nextAttempt && g.state.Issued? && g.sequence == 1
            && g.binding == offer.binding && g.original == offer.original && g.degraded == offer.degraded
            && g.expiresTick == offer.expires && g.issuedTick == now && g.lastTransition == now)
  {
    hide Orderly, Apply, Commit, Count, GrantAt, Sound, Roomy, IdsClimb, IdsBelow, Remains, Prune, Overfull, Known;
    OrderlyParts(c);
    FreshIdentity(c);
    AcquireOrderly(c, offer, now, maxLive, env);
    if Count(IsLive, c.state.grants) < maxLive && c.nextGrant != 0 && c.nextAttempt != 0 {
      var g := IssuedNow(c, offer, now);
      NumberedRoomy(c.state);
      ClimbPush(c.state.grants, g, c.state.grantHigh);
      NotFoundWhenUnknown(c.state.grants, g.id);
      IssueOrFull(Numbered(c.state), g, env.cfg);
      CommitSucceedsIff(c.state, GrantIssued(g), env);
      CommitUnfolds(c.state, GrantIssued(g), env);
      var (d, reply) := AcquireGrant(c, offer, now, maxLive, env);
      if reply.Accepted? { IssuedStays(c.state.grants, d.state.grants, g); }
    }
  }

  lemma {:induction false} EndAppendsFence(s: Durable, k: EndKind, f: Fence, env: Env)
    requires Commit(s, GrantEnded(k, f), env).status.None? && !env.full(s.journalRecords)
    requires |s.grants| <= env.cfg.maxGrants * 2 && |s.decisions| <= env.cfg.maxDecisions * 2
    requires |s.fences| < env.cfg.maxFences * 2
    ensures Commit(s, GrantEnded(k, f), env).state.fences == s.fences + [f]
  {
    hide GrantAt, Allowed, Prune;
  }

  // A fence that does not prune says which grant it ends, what it was bound to, and the
  // authority that was then in force.
  lemma {:induction false} FenceSaysWhy(c: Coord, i: nat, k: EndKind, now: u64, env: Env)
    requires Good(c) && i < |c.state.grants| && c.state.grants[i].Live() && c.nextFence != 0
    requires c.state.journalSequence < U64_MAX && c.state.journalRecords < U64_MAX && !env.full(c.state.journalRecords)
    requires |c.state.grants| <= env.cfg.maxGrants * 2 && |c.state.decisions| <= env.cfg.maxDecisions * 2
    requires |c.state.fences| < env.cfg.maxFences * 2
    ensures var s, g := c.state, c.state.grants[i];
      var policy := if s.policy.Some? then s.policy.value.generation else 0;
      var inForce := AuthorityVector(s.term, s.boot, s.fabricGeneration, s.capacityGeneration, policy,
                                     s.evidenceGeneration);
      FenceGrant(c, g.id, k, now, env).0.state.fences ==
        s.fences + [Fence(c.nextFence, g.id, g.binding, g.binding.(vector := inForce), now)]
  {
    hide Good, Lookup, GrantAt, Commit, Orderly, Sound, IdsClimb, IdsBelow, Indexes, AttemptsBelow, SameBut;
    var g := c.state.grants[i];
    FindsIt(c, g.id);
    GoodParts(c);
    ClimbIsDistinct(c.state.grants);
    ScanMeaning(c.state.grants, i);
    FenceEnds(c, g.id, k, now, env);
    FenceLive(c, g.id, k, now, env);
    EndAppendsFence(c.state, k, FenceFor(c, g, g.id, now), env);
  }
}
