// What a sweep makes of every grant (sweep_locked in src/runtime/coordinator.cpp), told
// from the grant's own fields.
module SweptExactly {
  import opened Core
  import opened Grants
  import opened Store
  import opened Closure
  import opened GrantTables
  import opened Coordinators
  import opened BootFencing
  import opened SweepSafety
  import opened Sweeps
  import opened SweptGrants
  import opened Sorting
  import opened Sums
  import opened Subsets

  function Over(g: Grant, state: GrantState, now: u64): Grant {
    g.(state := state, lastTransition := now)
  }

  // Past its tick a live grant has expired; under another term, boot or policy it is
  // fenced; under the authority in force it stays; and if only the capability moved it is
  // bound to the authority in force when what it promises is still covered and a decision
  // was made, and fenced otherwise. An ended grant stays what it is.
  ghost predicate SweptTo(g: Grant, h: Grant, w: Round) {
    var v, covered := g.binding.vector, StillCovers(w.eval.approved(g.binding.contract), g);
    if !g.Live() then h == g
    else if w.now > g.expiresTick then h == Over(g, Expired, w.now)
    else if v == w.current then h == g
    else if v.term != w.current.term || v.boot != w.current.boot || v.policy != w.current.policy then
      h == Over(g, Fenced, w.now)
    else
      || (h == g.(binding := g.binding.(vector := w.current)) && covered)
      || (h == Over(g, Fenced, w.now) && (covered ==> exists n: nat :: w.eval.decide(g.binding.contract, n).None?))
  }

  // --------------------------------------------------------------------------
  // One turn
  // --------------------------------------------------------------------------

  // In its place, with a fence identity and a record left, a live grant is ended as asked.
  lemma {:induction false} FenceExact(c: Coord, id: u64, k: EndKind, now: u64, env: Env)
    requires Good(c) && LiveAt(c.state.grants, id).Some? && c.nextFence != 0
    requires c.state.journalSequence < U64_MAX && c.state.journalRecords < U64_MAX
    requires Undropped(c.state, FenceGrant(c, id, k, now, env).0.state)
    ensures var gs, i := c.state.grants, GrantAt(c.state.grants, id);
      i < |gs| && FenceGrant(c, id, k, now, env).0.state.grants == gs[i := Over(gs[i], EndState(k), now)]
  {
    hide Good, GrantAt, FenceGrant;
    FenceEnds(c, id, k, now, env);
    FenceStep(c, id, k, now, env);
  }

  lemma {:induction false} DecisionExact(c: Coord, decision: Decision, env: Env)
    requires Good(c) && Undropped(c.state, CommitNeutral(c, DecisionRecorded(decision), env).state)
    ensures var d := CommitNeutral(c, DecisionRecorded(decision), env);
      Good(d) && d.state.grants == c.state.grants && d.nextFence == c.nextFence
  {
    hide Good, Commit, Logged;
    NoPairs(c);
    NeutralStep(c, [], DecisionRecorded(decision), env);
  }

  lemma {:induction false} RebindExact(c: Coord, id: u64, b: Binding, env: Env)
    requires Good(c) && LiveAt(c.state.grants, id).Some? && SameSubject(LiveAt(c.state.grants, id).value.binding, b)
    requires c.state.journalSequence < U64_MAX && c.state.journalRecords < U64_MAX
    requires Undropped(c.state, CommitNeutral(c, GrantRebound(id, b), env).state)
    ensures Commit(c.state, GrantRebound(id, b), env).status.None?
    ensures var gs, i := c.state.grants, GrantAt(c.state.grants, id);
      && i < |gs|
      && CommitNeutral(c, GrantRebound(id, b), env).state.grants == gs[i := gs[i].(binding := b)]
  {
    hide Good, Orderly, Commit, Apply, Sound, IdsClimb, IdsBelow, GrantAt, SameBut;
    GoodParts(c);
    RebindLive(c, id, b, env);
    var i := GrantAt(c.state.grants, id);
    AppliedRebound(Numbered(c.state), id, b, env.cfg);
    ClimbUpdate(c.state.grants, i, c.state.grants[i].(binding := b));
    CommitMeans(c.state, GrantRebound(id, b), env);
  }

  ghost predicate Placed(c: Coord, d: Coord, id: u64, w: Round) {
    var gs, hs, i := c.state.grants, d.state.grants, GrantAt(c.state.grants, id);
    && i < |gs| == |hs| && SweptTo(gs[i], hs[i], w) && forall j | 0 <= j < |gs| && j != i :: hs[j] == gs[j]
  }

  lemma {:induction false} PlacedAs(c: Coord, d: Coord, id: u64, h: Grant, w: Round)
    requires var gs, i := c.state.grants, GrantAt(c.state.grants, id);
      i < |gs| && SweptTo(gs[i], h, w) && d.state.grants == gs[i := h]
    ensures Placed(c, d, id, w)
  {
    hide SweptTo, GrantAt;
  }

  lemma {:induction false} ReevaluateExact(c: Coord, id: u64, g: Grant, w: Round, env: Env)
    requires Good(c) && LiveAt(c.state.grants, id) == Some(g) && c.nextFence != 0
    requires Undropped(c.state, ReevaluateOne(c, id, g, w, env).state) && OnlyCapabilityMoved(g, w.current, w.now)
    requires c.state.journalSequence + 3 <= U64_MAX && c.state.journalRecords + 3 <= U64_MAX
    ensures Placed(c, ReevaluateOne(c, id, g, w, env), id, w)
  {
    hide Good, Orderly, Commit, FenceGrant, StillCovers, SameBut, GrantAt, SameSubject, Placed;
    GoodParts(c);
    var end := ReevaluateOne(c, id, g, w, env);
    var decision := w.eval.decide(g.binding.contract, c.state.journalRecords);
    if decision.None? {
      FenceExact(c, id, ByFence, w.now, env);
      PlacedAs(c, end, id, Over(g, Fenced, w.now), w);
    } else {
      DecisionLive(c, decision.value, env);
      CommitNumbers(c.state, DecisionRecorded(decision.value), env);
      var d := CommitNeutral(c, DecisionRecorded(decision.value), env);
      if StillCovers(w.eval.approved(g.binding.contract), g) {
        var b := Rebound(g, w.current).binding;
        SameRebinding(g, g, w.current);
        RebindLive(d, id, b, env);
        DecidedRebind(c, d, id, decision.value, b, env);
        PlacedAs(c, end, id, g.(binding := b), w);
      } else {
        DecidedFence(c, d, id, decision.value, w.now, env);
        PlacedAs(c, end, id, Over(g, Fenced, w.now), w);
      }
    }
  }

  // A decision, then the fence.
  lemma {:induction false} DecidedFence(c: Coord, d: Coord, id: u64, decision: Decision, now: u64, env: Env)
    requires Good(c) && LiveAt(c.state.grants, id).Some? && c.nextFence != 0
    requires c.state.journalSequence + 2 <= U64_MAX && c.state.journalRecords + 2 <= U64_MAX
    requires d == CommitNeutral(c, DecisionRecorded(decision), env)
    requires Undropped(c.state, FenceGrant(d, id, ByFence, now, env).0.state)
    ensures var gs, i := c.state.grants, GrantAt(c.state.grants, id);
      i < |gs| && FenceGrant(d, id, ByFence, now, env).0.state.grants == gs[i := Over(gs[i], Fenced, now)]
  {
    hide Good, Commit, FenceGrant, GrantAt;
    GoodParts(c);
    DecisionLive(c, decision, env);
    CommitNumbers(c.state, DecisionRecorded(decision), env);
    FenceLive(d, id, ByFence, now, env);
    DecisionExact(c, decision, env);
    FenceExact(d, id, ByFence, now, env);
  }

  // A decision, then the new binding.
  lemma {:induction false} DecidedRebind(c: Coord, d: Coord, id: u64, decision: Decision, b: Binding, env: Env)
    requires Good(c) && LiveAt(c.state.grants, id).Some? && SameSubject(LiveAt(c.state.grants, id).value.binding, b)
    requires c.state.journalSequence + 2 <= U64_MAX && c.state.journalRecords + 2 <= U64_MAX
    requires d == CommitNeutral(c, DecisionRecorded(decision), env)
    requires Undropped(c.state, CommitNeutral(d, GrantRebound(id, b), env).state)
    ensures Commit(d.state, GrantRebound(id, b), env).status.None?
    ensures var gs, i := c.state.grants, GrantAt(c.state.grants, id);
      && i < |gs|
      && CommitNeutral(d, GrantRebound(id, b), env).state.grants == gs[i := gs[i].(binding := b)]
  {
    hide Good, Commit, GrantAt, SameSubject;
    GoodParts(c);
    DecisionLive(c, decision, env);
    CommitNumbers(c.state, DecisionRecorded(decision), env);
    RebindLive(d, id, b, env);
    DecisionExact(c, decision, env);
    RebindExact(d, id, b, env);
  }

  lemma {:induction false} TurnExact(c: Coord, id: u64, w: Round, env: Env)
    requires Good(c) && LiveAt(c.state.grants, id).Some? && c.nextFence != 0
    requires Undropped(c.state, SweepOne(c, id, w, env).state)
    requires c.state.journalSequence + 3 <= U64_MAX && c.state.journalRecords + 3 <= U64_MAX
    ensures Placed(c, SweepOne(c, id, w, env), id, w)
  {
    hide Good, Orderly, FenceGrant, ReevaluateOne, Lookup, GrantAt, StillCovers, Placed;
    FindsIt(c, id);
    GoodParts(c);
    var g, end := LiveAt(c.state.grants, id).value, SweepOne(c, id, w, env);
    match Standing(g, w.current, w.now)
    case Untouched => PlacedAs(c, end, id, g, w);
    case Expire =>
      FenceExact(c, id, ByExpiry, w.now, env);
      PlacedAs(c, end, id, Over(g, Expired, w.now), w);
    case FenceOff =>
      FenceExact(c, id, ByFence, w.now, env);
      PlacedAs(c, end, id, Over(g, Fenced, w.now), w);
    case Reevaluate => ReevaluateExact(c, id, g, w, env);
  }

  // --------------------------------------------------------------------------
  // The sweep
  // --------------------------------------------------------------------------

  ghost predicate SweptAt(gs: seq<Grant>, hs: seq<Grant>, ids: seq<u64>, w: Round, i: nat)
    requires i < |gs| == |hs|
  {
    if gs[i].id in ids then SweptTo(gs[i], hs[i], w) else hs[i] == gs[i]
  }

  // After one turn, the turns that are left find everything else as it was.
  lemma {:induction false} SweptOn(c: Coord, d: Coord, hs: seq<Grant>, ids: seq<u64>, w: Round, i: nat)
    requires ids != [] && ids[0] !in ids[1..] && IdsClimb(c.state.grants)
    requires Placed(c, d, ids[0], w) && |hs| == |d.state.grants| && i < |hs|
    requires forall j: nat | j < |d.state.grants| :: d.state.grants[j].id == c.state.grants[j].id
    requires SweptAt(d.state.grants, hs, ids[1..], w, i)
    ensures SweptAt(c.state.grants, hs, ids, w, i)
  {
    hide SweptTo, GrantAt;
    var gs, q := c.state.grants, GrantAt(c.state.grants, ids[0]);
    ClimbIsDistinct(gs);
    if gs[i].id == ids[0] { OnePlace(gs, i, q); }
  }

  lemma {:induction false} KeepsIdentity(g: Grant, h: Grant, w: Round)
    requires SweptTo(g, h, w)
    ensures h.id == g.id
  {
    hide StillCovers;
  }

  // Distinct identities of live grants, swept from an exact index without a drop: each is
  // made of what it comes to, and every other grant stays what it is.
  lemma {:induction false} SweepExact(c: Coord, ids: seq<u64>, w: Round, env: Env)
    requires Good(c) && Distinct(ids) && Undropped(c.state, SweepAll(c, ids, w, env).state)
    requires (forall id | id in ids :: LiveAt(c.state.grants, id).Some?) && |ids| <= FencesLeft(c.nextFence)
    requires c.state.journalSequence + 3 * |ids| <= U64_MAX && c.state.journalRecords + 3 * |ids| <= U64_MAX
    ensures var gs, hs := c.state.grants, SweepAll(c, ids, w, env).state.grants;
      |hs| == |gs| && forall i: nat | i < |gs| :: SweptAt(gs, hs, ids, w, i)
    decreases |ids|
  {
    hide Good, Orderly, SweepOne, LiveAt, Standing, SameBut, CarriesOver, FencesLeft, SweptTo, GrantAt, IdsClimb;
    if ids != [] {
      var d, rest := SweepOne(c, ids[0], w, env), ids[1..];
      GoodParts(c);
      TurnOutcome(c, ids[0], w, env);
      SweepAdvances(d, rest, w, env);
      TurnGood(c, ids[0], w, env);
      OneFenceFewer(c.nextFence, |ids|);
      TurnSpends(c, ids[0], w, env);
      TurnExact(c, ids[0], w, env);
      StillListed(c, d, ids, w);
      SweepExact(d, rest, w, env);
      var gs, q := c.state.grants, GrantAt(c.state.grants, ids[0]);
      KeepsIdentity(gs[q], d.state.grants[q], w);
      var hs := SweepAll(c, ids, w, env).state.grants;
      forall i: nat | i < |gs| ensures SweptAt(gs, hs, ids, w, i) { SweptOn(c, d, hs, ids, w, i); }
    }
  }

  lemma {:induction false} StillListed(c: Coord, d: Coord, ids: seq<u64>, w: Round)
    requires ids != [] && Distinct(ids) && SameBut(c.state.grants, d.state.grants, ids[0])
    requires forall id | id in ids :: LiveAt(c.state.grants, id).Some?
    ensures forall id | id in ids[1..] :: LiveAt(d.state.grants, id).Some?
  {
    hide LiveAt;
    forall id | id in ids[1..] ensures LiveAt(d.state.grants, id).Some? {
      assert id in ids && id != ids[0];
    }
  }

  // The sweep over all live grants makes of every grant exactly what its fields say. Its
  // conditions can be read off the coordinator before it.
  lemma {:induction false} SweepMakesExactly(c: Coord, w: Round, env: Env)
    requires Good(c)
    requires var n := |LiveIds(c.state.grants)|;
      && Ample(c.state, n, n, 3 * n, env) && n <= FencesLeft(c.nextFence)
      && c.state.journalSequence + 3 * n <= U64_MAX && c.state.journalRecords + 3 * n <= U64_MAX
    ensures var gs, hs := c.state.grants, SweepAll(c, LiveIds(c.state.grants), w, env).state.grants;
      |hs| == |gs| && forall i: nat | i < |gs| :: SweptTo(gs[i], hs[i], w)
  {
    hide Good, Orderly, SweepAll, Ample, Distinct, LiveIds, FencesLeft, SweptTo, IdsClimb;
    GoodParts(c);
    var gs, ids := c.state.grants, LiveIds(c.state.grants);
    LiveIdsDistinct(gs);
    LiveIdsAreLive(gs);
    SweepDropsNothing(c, ids, w, env);
    SweepExact(c, ids, w, env);
    var hs := SweepAll(c, ids, w, env).state.grants;
    forall i: nat | i < |gs| ensures SweptTo(gs[i], hs[i], w) {
      assert SweptAt(gs, hs, ids, w, i);
      if gs[i].id !in ids { UnlistedStays(gs, i, w); }
    }
  }

  lemma {:induction false} UnlistedStays(gs: seq<Grant>, i: nat, w: Round)
    requires IdsClimb(gs) && i < |gs| && gs[i].id !in LiveIds(gs)
    ensures SweptTo(gs[i], gs[i], w)
  {
    hide LiveIds, GrantAt, StillCovers;
    ClimbIsDistinct(gs);
    ScanMeaning(gs, i);
    LiveIdsDistinct(gs);
  }

  lemma {:induction false} LiveIdsAreLive(gs: seq<Grant>)
    requires IdsClimb(gs)
    ensures forall id | id in LiveIds(gs) :: LiveAt(gs, id).Some?
  {
    hide SortBy, GrantAt, Filter;
    var live := Filter(IsLive, gs);
    var ids := Mapped(IdOf, live);
    SameElements(LiveIds(gs), ids);
    FilterKeepsAll(IsLive, gs);
    ClimbIsDistinct(gs);
    forall id | id in LiveIds(gs) ensures LiveAt(gs, id).Some? {
      var k: nat :| k < |ids| && ids[k] == id;
      assert ids[k] == IdOf(live[k]) && live[k] in gs && IsLive(live[k]);
      var j: nat :| j < |gs| && gs[j] == live[k];
      ScanMeaning(gs, j);
    }
  }

  // --------------------------------------------------------------------------
  // Read the other way
  // --------------------------------------------------------------------------

  // So whatever is live afterwards is current and is not expired; what is bound to another
  // term, boot or policy is gone; and what was current is untouched.
  lemma {:induction false} SweptInShort(g: Grant, h: Grant, w: Round)
    requires SweptTo(g, h, w)
    ensures h.Live() ==> g.Live() && w.now <= h.expiresTick && h.binding.vector == w.current
    ensures h.Live() ==> (&& g.binding.vector.term == w.current.term && g.binding.vector.boot == w.current.boot
                          && g.binding.vector.policy == w.current.policy)
    ensures h.Live() ==> h == g || StillCovers(w.eval.approved(g.binding.contract), g)
    ensures g.Live() && w.now <= g.expiresTick && g.binding.vector == w.current ==> h == g
    ensures g.Live() && !h.Live() ==> h.state == if w.now > g.expiresTick then Expired else Fenced
  {
    hide StillCovers;
  }
}
