// What a stale grant index does to the sweep (sweep_locked in src/runtime/coordinator.cpp):
// after a run from a new store, a grant the plan does not back is carried over because the
// index leads to another one that it does back.
module StaleSweeps {
  import opened Core
  import opened Guarantees
  import opened Grants
  import opened Store
  import opened Closure
  import opened GrantTables
  import opened Coordinators
  import opened BootFencing
  import opened BootConditions
  import opened CoordinatorRuns
  import opened ShapedRuns
  import opened StaleReports
  import opened SweepSafety
  import opened Sweeps
  import opened SweptGrants
  import opened Sorting
  import opened Sums
  import opened Subsets

  // The sweep over the live grants, at tick 1 and against the authority in force.
  function Now(c: Coord, eval: Evaluations): Round {
    Round(CurrentVector(c.state), 1, eval)
  }

  // A live grant that was to be re-evaluated and that nothing approved covers, and that
  // the sweep leaves live, bound to the authority in force.
  ghost predicate CarriedUnbacked(c: Coord, l: Grant, eval: Evaluations, env: Env) {
    var w := Now(c, eval);
    && LiveAt(c.state.grants, l.id) == Some(l) && OnlyCapabilityMoved(l, w.current, w.now)
    && !StillCovers(eval.approved(l.binding.contract), l)
    && LiveAt(SweepAll(c, LiveIds(c.state.grants), w, env).state.grants, l.id) == Some(Rebound(l, w.current))
  }

  // A sweep that does this is not fair.
  lemma {:induction false} CarriedIsUnfair(c: Coord, l: Grant, eval: Evaluations, env: Env)
    requires CarriedUnbacked(c, l, eval, env)
    ensures var w := Now(c, eval);
      !FairlySwept(c.state.grants, SweepAll(c, LiveIds(c.state.grants), w, env).state.grants, w)
  {
    hide LiveAt, SweepAll, LiveIds, StillCovers;
    var w := Now(c, eval);
    ReboundIsCurrent(l, w);
    assert !FairAt(c.state.grants, SweepAll(c, LiveIds(c.state.grants), w, env).state.grants, l.id, w);
  }

  // --------------------------------------------------------------------------
  // The capability moves
  // --------------------------------------------------------------------------

  lemma {:induction false} CapacityMoves(c: Coord, l: Grant, m: Grant, n: Grant, env: Env)
    requires Misdirects(c, l, m, n) && HasRoom(c.state, 3) && c.state.capacityGeneration == 1 && env.cfg.maxGrants == 3
    ensures var d := CommitNeutral(c, CapacityAdvanced(2), env);
      && Misdirects(d, l, m, n) && HasRoom(d.state, 2)
      && CurrentVector(d.state) == CurrentVector(c.state).(capacity := 2)
  {
    hide Sound, Commit, IdsClimb, Roomy;
    var s, r := c.state, CapacityAdvanced(2);
    CommitSucceeds(s, r, env);
    DropGuard(s, r, env);
    NothingDropped(Apply(Numbered(s), r, env.cfg).state.grants, env.cfg);
    CommitMeans(s, r, env);
    CommitCounts(s, r, env);
    CommitCurrent(s, r, env);
  }

  // --------------------------------------------------------------------------
  // The sweep is misled
  // --------------------------------------------------------------------------

  lemma {:induction false} NoneBelowFirst(gs: seq<Grant>)
    requires IdsClimb(gs) && gs != []
    ensures forall id | id in LiveIds(gs) :: gs[0].id <= id
  {
    hide SortBy, Filter;
    var live := Filter(IsLive, gs);
    var ids := Mapped(IdOf, live);
    SameElements(LiveIds(gs), ids);
    FilterKeepsAll(IsLive, gs);
    forall id | id in LiveIds(gs) ensures gs[0].id <= id {
      var k: nat :| k < |ids| && ids[k] == id;
      assert ids[k] == IdOf(live[k]) && live[k] in gs;
    }
  }

  lemma {:induction false} FirstIsSwept(c: Coord, l: Grant, m: Grant, n: Grant)
    requires Misdirects(c, l, m, n) && l.Live()
    ensures var ids := LiveIds(c.state.grants); ids != [] && ids[0] == l.id && l.id !in ids[1..]
    ensures LiveAt(c.state.grants, l.id) == Some(l)
  {
    hide LiveIds, GrantAt, IdsClimb;
    var gs := c.state.grants;
    var ids := LiveIds(gs);
    FirstIsFound(gs, l.id);
    LiveIdsDistinct(gs);
    LiveIdsSorted(gs);
    NoneBelowFirst(gs);
    assert gs[0] == l && l.id in ids;
    var j: nat :| j < |ids| && ids[j] == l.id;
    assert ids[0] in ids;
    assert j > 0 ==> !Below(ids[j], ids[0]);
  }

  lemma {:induction false} MisjudgesFirst(c: Coord, l: Grant, m: Grant, n: Grant, w: Round)
    requires Misdirects(c, l, m, n) && HasRoom(c.state, 2) && l.Live() && n.Live()
    requires OnlyCapabilityMoved(l, w.current, w.now) && OnlyCapabilityMoved(n, w.current, w.now)
    requires w.eval.decide(n.binding.contract, c.state.journalRecords).Some? && SameSubject(l.binding, n.binding)
    requires StillCovers(w.eval.approved(n.binding.contract), n) && !StillCovers(w.eval.approved(l.binding.contract), l)
    ensures Misjudges(c, l.id, w)
  {
    hide GrantAt, StillCovers, Sound;
    FirstIsFound(c.state.grants, l.id);
  }

  // So what the approval does not cover stays live.
  lemma {:induction false} MisledSweep(c: Coord, l: Grant, m: Grant, n: Grant, eval: Evaluations, env: Env)
    requires Orderly(c) && Misdirects(c, l, m, n) && l.Live() && Misjudges(c, l.id, Now(c, eval))
    requires OnlyCapabilityMoved(l, CurrentVector(c.state), 1)
    ensures CarriedUnbacked(c, l, eval, env)
  {
    hide Orderly, SweepOne, LiveAt, LiveIds, StillCovers, SameBut, Lookup, Standing;
    var w, ids := Now(c, eval), LiveIds(c.state.grants);
    FirstIsSwept(c, l, m, n);
    TurnOutcome(c, l.id, w, env);
    SweepElsewhere(SweepOne(c, l.id, w, env), ids[1..], w, env, l.id);
  }

  // --------------------------------------------------------------------------
  // A run that gets there
  // --------------------------------------------------------------------------

  // Three grants of one contract made before the capability moved, an index that leads
  // from the first to the last, and the promises they make.
  ghost predicate Trapped(c: Coord, l: Grant, m: Grant, n: Grant, contract: u64, last: GuaranteeSet,
                          first: GuaranteeSet) {
    && Misdirects(c, l, m, n) && HasRoom(c.state, 2) && l.Live() && n.Live() && SameSubject(l.binding, n.binding)
    && l.binding.contract == contract && l.degraded == first && n.degraded == last
    && l.binding.vector == n.binding.vector && 1 <= l.expiresTick && 1 <= n.expiresTick
    && CapabilityOnly(l.binding.vector, CurrentVector(c.state)) && l.binding.vector != CurrentVector(c.state)
  }

  lemma {:induction false} CapacityTraps(c: Coord, l: Grant, m: Grant, n: Grant, contract: u64, last: GuaranteeSet,
                                         first: GuaranteeSet, env: Env)
    requires Misdirects(c, l, m, n) && HasRoom(c.state, 7) && l.Live() && n.Live() && env.cfg.maxGrants == 3
    requires c.state.capacityGeneration == 1 && Given(l, SomeOffer(CurrentVector(c.state), contract, first))
      && Given(n, SomeOffer(CurrentVector(c.state), contract, last))
    ensures Trapped(CommitNeutral(c, CapacityAdvanced(2), env), l, m, n, contract, last, first)
  {
    hide HasRoom, Misdirects, CommitNeutral;
    LessRoom(c.state, 7, 3);
    CapacityMoves(c, l, m, n, env);
  }

  lemma {:induction false} TrapIsReached(c: Coord, env: Env, start: Trail, contract: u64, last: GuaranteeSet,
                                         first: GuaranteeSet, offers: nat -> Offer, k: nat)
    returns (t: Trail, l: Grant, m: Grant, n: Grant)
    requires Walked(c, env, start) && Tame(start.at, NOTHING, offers, k) && Bounded(env, k)
    requires start.at.state.capacityGeneration == 1
    requires offers(2) == SomeOffer(CurrentVector(start.at.state), contract, first)
      && offers(6) == SomeOffer(CurrentVector(start.at.state), contract, last)
    ensures Walked(c, env, t) && start.ops <= t.ops && Trapped(t.at, l, m, n, contract, last, first)
  {
    hide Walked, Tame, CurrentVector, Misdirects, HasRoom, CommitNeutral, Given, SomeOffer, Trapped;
    var reached;
    reached, l, m, n := MisdirectionIsReached(c, env, start, offers, k);
    SameCapacity(start.at.state, reached.at.state);
    CapacityTraps(reached.at, l, m, n, contract, last, first, env);
    var op := CommitOther(CapacityAdvanced(2));
    WalkOn(c, env, reached, op);
    t := Onward(reached, op, env);
  }

  // Sweeping there carries the first grant over on the strength of the last.
  lemma {:induction false} TrapSprings(c: Coord, l: Grant, m: Grant, n: Grant, contract: u64, last: GuaranteeSet,
                                       first: GuaranteeSet, eval: Evaluations, env: Env)
    requires Orderly(c) && Trapped(c, l, m, n, contract, last, first)
    requires eval.approved(contract).Some? && eval.decide(contract, c.state.journalRecords).Some?
    requires Weakens(eval.approved(contract).value, last) && !Weakens(eval.approved(contract).value, first)
    ensures CarriedUnbacked(c, l, eval, env)
  {
    hide Orderly, CurrentVector, Misdirects, HasRoom, Weakens, Misjudges, CarriedUnbacked;
    MisjudgesFirst(c, l, m, n, Now(c, eval));
    MisledSweep(c, l, m, n, eval, env);
  }

  // Carrying over only what the plan backs fails of the code: on any new store that keeps
  // three grants, after any set-up, and whatever the evaluations approve for a contract,
  // some run leads to a sweep that carries over a promise the approval does not cover.
  lemma {:induction false} SomeSweepCarriesUnbacked(s: Durable, env: Env, setup: seq<Record>, contract: u64,
                                                    covered: GuaranteeSet, uncovered: GuaranteeSet, eval: Evaluations)
    requires Fresh(s) && (forall r | r in setup :: SettingUp(r)) && |setup| < env.cfg.maxContracts
    requires Bounded(env, |setup| + 4) && forall k: nat | k < |setup| + 4 :: !env.full(k)
    requires eval.approved(contract).Some? && forall n: nat :: eval.decide(contract, n).Some?
    requires Weakens(eval.approved(contract).value, covered) && !Weakens(eval.approved(contract).value, uncovered)
    ensures Create(s, env).Ok? && Good(Create(s, env).value)
    ensures exists ops, d, happened, l: Grant ::
      && SetupOps(setup) <= ops && Runs(Create(s, env).value, ops, env, d, happened)
      && l.binding.contract == contract && l.degraded == uncovered && CarriedUnbacked(d, l, eval, env)
  {
    hide Create, Good, Walked, Tame, Fresh, SetupOps, CurrentVector, Trapped, Weakens, Orderly, CarriedUnbacked,
         SomeOffer, Misdirects;
    var none := (i: nat) => SomeOffer(AuthorityVector(1, 1, 1, 1, 1, 1), contract, covered);
    var start := SetUp(s, env, setup, none);
    var c := Create(s, env).value;
    var offers := (i: nat) => SomeOffer(CurrentVector(start.at.state), contract, if i == 2 then uncovered else covered);
    AnyOffers(start.at, none, offers, |setup| + 4);
    var t, l, m, n := TrapIsReached(c, env, start, contract, covered, uncovered, offers, |setup| + 4);
    WalkedIsRun(c, env, t);
    GoodParts(c);
    IdentitiesClimb(c, t.ops, env, t.at, t.happened);
    TrapSprings(t.at, l, m, n, contract, covered, uncovered, eval, env);
    TrappedPromise(t.at, l, m, n, contract, covered, uncovered);
  }

  lemma {:induction false} TrappedPromise(c: Coord, l: Grant, m: Grant, n: Grant, contract: u64, last: GuaranteeSet,
                                          first: GuaranteeSet)
    requires Trapped(c, l, m, n, contract, last, first)
    ensures l.binding.contract == contract && l.degraded == first
  {
    hide Misdirects, HasRoom, CurrentVector;
  }

  lemma {:induction false} SameCapacity(s: Durable, t: Durable)
    requires CurrentVector(s) == CurrentVector(t)
    ensures s.capacityGeneration == t.capacityGeneration
  {
  }
}
