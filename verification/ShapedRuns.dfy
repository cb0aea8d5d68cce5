// Small runs of the coordinator, and of a store, whose grants are tracked by form: which
// of them are live, and what they were offered. They make the witnesses of what stale
// indexes do.
module ShapedRuns {
  import opened Core
  import opened Assessments
  import opened Grants
  import opened Store
  import opened Closure
  import opened GrantTables
  import opened Coordinators
  import opened BootFencing
  import opened CoordinatorRuns

  // --------------------------------------------------------------------------
  // Stores
  // --------------------------------------------------------------------------

  // Grants 1, 2, ... live or ended as the shape says, so many of them live, and how many
  // fences and decisions the store holds.
  datatype Form = Form(shape: seq<bool>, live: nat, fences: nat, decisions: nat)

  const NOTHING := Form([], 0, 0, 0)

  predicate Given(g: Grant, o: Offer) {
    g.binding == o.binding && g.degraded == o.degraded && g.expiresTick == o.expires
  }

  ghost predicate Shaped(s: Durable, f: Form, offers: nat -> Offer) {
    && |s.grants| == |f.shape| && s.grantHigh == |f.shape| && s.counters.issued == |f.shape|
    && (forall i | 0 <= i < |f.shape| ::
          (&& s.grants[i].id == i + 1 && Given(s.grants[i], offers(i))
           && if f.shape[i] then s.grants[i].state.Issued? else IsEnded(s.grants[i])))
    && Count(IsLive, s.grants) == f.live
    && |s.fences| == f.fences && s.fenceHigh == f.fences
    && s.counters.fenced == f.fences && s.counters.fencesTotal == f.fences
    && |s.decisions| == f.decisions
    && s.counters.decisionsTotal == f.decisions && s.counters.decisionsFull == f.decisions
  }

  // The store does not prune at this size.
  predicate Fits(f: Form, cfg: Config) {
    && |f.shape| <= cfg.maxGrants * 2 && f.fences <= cfg.maxFences * 2 && f.decisions <= cfg.maxDecisions * 2
    && |f.shape| < 100 && f.fences < 100 && f.decisions < 100
  }

  function WithGrant(f: Form): Form {
    f.(shape := f.shape + [true], live := f.live + 1)
  }

  function WithDecision(f: Form): Form {
    f.(decisions := f.decisions + 1)
  }

  function WithFence(f: Form, i: nat): Form
    requires i < |f.shape| && f.live > 0
  {
    f.(shape := f.shape[i := false], live := f.live - 1, fences := f.fences + 1)
  }

  lemma {:induction false} ShapedIssue(s: Durable, f: Form, offers: nat -> Offer, g: Grant, cfg: Config)
    requires Shaped(s, f, offers) && |f.shape| < 100 && f.live < cfg.maxGrants && g.id == |f.shape| + 1
    requires g.state.Issued? && Given(g, offers(|f.shape|))
    ensures var e := Apply(s, GrantIssued(g), cfg);
      && e.status.None? && Shaped(e.state, WithGrant(f), offers)
      && e.state == s.(grants := s.grants + [g], grantHigh := g.id,
                       counters := s.counters.(issued := |f.shape| + 1))
  {
    hide Count, GrantAt, IsEnded, Given;
    CountPush(IsLive, s.grants, g);
  }

  lemma {:induction false} ShapedAt(s: Durable, f: Form, offers: nat -> Offer, i: nat, id: u64)
    requires Shaped(s, f, offers) && i < |f.shape| && id == i + 1
    ensures GrantAt(s.grants, id) == i
  {
    hide Count, GrantAt, IsEnded, Given;
    assert s.grants[i].id == id;
  }

  lemma {:induction false} LiveIsCounted(s: Durable, f: Form, offers: nat -> Offer, i: nat)
    requires Shaped(s, f, offers) && i < |f.shape| && f.shape[i]
    ensures f.live > 0
  {
    hide Count, Given;
    var h := s.grants[i].(state := Fenced);
    CountUpdate(IsLive, s.grants, i, h);
  }

  lemma {:induction false} ShapedEnd(s: Durable, f: Form, offers: nat -> Offer, i: nat, fence: Fence, cfg: Config)
    requires Shaped(s, f, offers) && f.fences < 100 && i < |f.shape| && f.shape[i] && f.live > 0
    requires fence.grant == i + 1 && fence.id == f.fences + 1
    ensures var e := Apply(s, GrantEnded(ByFence, fence), cfg);
      && e.status.None? && Shaped(e.state, WithFence(f, i), offers)
      && e.state == s.(grants := e.state.grants, fences := e.state.fences, fenceHigh := fence.id,
                       counters := e.state.counters)
  {
    hide Count, GrantAt;
    ShapedAt(s, f, offers, i, fence.grant);
    CountUpdate(IsLive, s.grants, i, Transitioned(s.grants[i], Fenced, fence.tick, 0, 0));
  }

  // The decision that authorises the next grant.
  function NextDecision(f: Form): Decision
    requires f.decisions < 100
  {
    Decision(f.decisions + 1, Full, 1)
  }

  lemma {:induction false} ShapedDecide(s: Durable, f: Form, offers: nat -> Offer, cfg: Config)
    requires Shaped(s, f, offers) && f.decisions < 100
    ensures var e := Apply(s, DecisionRecorded(NextDecision(f)), cfg);
      && e.status.None? && Shaped(e.state, WithDecision(f), offers)
      && e.state == s.(decisions := e.state.decisions, decisionHigh := e.state.decisionHigh,
                       counters := e.state.counters)
  {
    hide Count, GrantAt, IsEnded, Given;
  }

  // What is recorded before a first grant can be issued: contracts, policies, evidence.
  predicate SettingUp(r: Record) {
    r.ContractRegistered? || r.PolicyInstalled? || r.EvidencePublished?
  }

  // Records that leave the form alone.
  predicate Formless(r: Record) {
    SettingUp(r) || r.FabricAdvanced? || r.CapacityAdvanced? || r.EvidenceAdvanced?
  }

  lemma {:induction false} ShapedOther(s: Durable, f: Form, offers: nat -> Offer, r: Record, cfg: Config)
    requires Shaped(s, f, offers) && Formless(r) && |s.contracts| < cfg.maxContracts
    ensures var e := Apply(s, r, cfg);
      && e.status.None? && Shaped(e.state, f, offers) && |e.state.contracts| <= |s.contracts| + 1
      && e.state.boot == s.boot && e.state.term == s.term && e.state.journalRecords == s.journalRecords
      && e.state.journalSequence == s.journalSequence && e.state.grants == s.grants
      && (!r.ContractRegistered? ==> e.state.contracts == s.contracts)
      && (!r.CapacityAdvanced? ==> e.state.capacityGeneration == s.capacityGeneration)
  {
    hide Count, GrantAt, IsEnded, Given, ContractAt;
  }

  lemma {:induction false} ShapedNumbered(s: Durable, f: Form, offers: nat -> Offer)
    requires Shaped(s, f, offers)
    ensures Shaped(Numbered(s), f, offers)
  {
    hide Count, Given;
  }

  lemma {:induction false} ShapedFits(s: Durable, f: Form, offers: nat -> Offer, cfg: Config)
    requires Shaped(s, f, offers) && Fits(f, cfg)
    ensures !Overfull(s, cfg)
  {
    hide Count, Given;
  }

  lemma {:induction false} ShapedSizes(s: Durable, f: Form, offers: nat -> Offer)
    requires Shaped(s, f, offers)
    ensures Count(IsLive, s.grants) == f.live && s.grantHigh == |f.shape| == |s.grants| && s.fenceHigh == f.fences
  {
    hide Count, Given;
  }

  // --------------------------------------------------------------------------
  // The coordinator
  // --------------------------------------------------------------------------

  // A good coordinator over a store of this form with n records behind it.
  ghost predicate Tame(c: Coord, f: Form, offers: nat -> Offer, n: nat) {
    && Good(c) && Shaped(c.state, f, offers) && c.state.journalRecords == n == c.state.journalSequence
    && c.nextGrant == |f.shape| + 1 && c.nextAttempt == |f.shape| + 1 && c.nextFence == f.fences + 1
  }

  lemma {:induction false} TameIsGood(c: Coord, f: Form, offers: nat -> Offer, n: nat)
    requires Tame(c, f, offers, n)
    ensures Good(c) && Shaped(c.state, f, offers) && c.state.journalRecords == n == c.state.journalSequence
  {
    hide Good, Shaped;
  }

  // A commit that does not prune is the record applied.
  lemma {:induction false} CommitPlainly(s: Durable, r: Record, env: Env)
    requires s.journalRecords < U64_MAX && s.journalSequence < U64_MAX && Apply(Numbered(s), r, env.cfg).status.None?
    requires !Overfull(Apply(Numbered(s), r, env.cfg).state, env.cfg) && !env.full(s.journalRecords)
    ensures Commit(s, r, env) == Apply(Numbered(s), r, env.cfg)
  {
    hide Apply, Overfull, Prune;
  }

  lemma {:induction false} NoneLogged(c: Coord)
    ensures Logged(c, [])
  {
  }

  // A record that touches no grant, within the store's bounds.
  lemma {:induction false} TameNeutral(c: Coord, f: Form, offers: nat -> Offer, n: nat, r: Record, next: Form, env: Env)
    requires Tame(c, f, offers, n) && n < U64_MAX && Neutral(r) && !r.GrantRebound? && !env.full(n)
    requires Fits(next, env.cfg) && next.shape == f.shape && next.fences == f.fences
    requires var e := Apply(Numbered(c.state), r, env.cfg);
      e.status.None? && Shaped(e.state, next, offers) && e.state.journalRecords == n + 1 == e.state.journalSequence
    ensures Commit(c.state, r, env) == Apply(Numbered(c.state), r, env.cfg)
    ensures Tame(CommitNeutral(c, r, env), next, offers, n + 1)
  {
    hide Good, Apply, Commit, Shaped, Overfull, Logged;
    var e := Apply(Numbered(c.state), r, env.cfg);
    ShapedFits(e.state, next, offers, env.cfg);
    CommitPlainly(c.state, r, env);
    ApplyPrunesNothing(Numbered(c.state), r, env.cfg);
    NoneLogged(c);
    NeutralStep(c, [], r, env);
  }

  lemma {:induction false} TameDecide(c: Coord, f: Form, offers: nat -> Offer, n: nat, env: Env)
    requires Tame(c, f, offers, n) && n < U64_MAX && f.decisions < 100 && Fits(WithDecision(f), env.cfg) && !env.full(n)
    ensures var r := DecisionRecorded(NextDecision(f));
      && Commit(c.state, r, env).status.None? && Tame(CommitNeutral(c, r, env), WithDecision(f), offers, n + 1)
      && CurrentVector(CommitNeutral(c, r, env).state) == CurrentVector(c.state)
  {
    hide Good, Apply, Commit, Shaped, Fits, Tame;
    TameIsGood(c, f, offers, n);
    ShapedNumbered(c.state, f, offers);
    ShapedDecide(Numbered(c.state), f, offers, env.cfg);
    TameNeutral(c, f, offers, n, DecisionRecorded(NextDecision(f)), WithDecision(f), env);
  }

  lemma {:induction false} TameIssue(c: Coord, f: Form, offers: nat -> Offer, n: nat, maxLive: nat, env: Env)
    requires Tame(c, f, offers, n) && n < U64_MAX && |f.shape| < 100 && f.live < env.cfg.maxGrants && f.live < maxLive
    requires Fits(WithGrant(f), env.cfg) && !env.full(n)
    ensures var (d, reply) := AcquireGrant(c, offers(|f.shape|), 1, maxLive, env);
      && reply.Accepted? && Tame(d, WithGrant(f), offers, n + 1) && CurrentVector(d.state) == CurrentVector(c.state)
  {
    hide Good, Orderly, Apply, Commit, Count, Shaped, Overfull, Logged, Fits;
    var offer := offers(|f.shape|);
    var g := IssuedNow(c, offer, 1);
    var s := Numbered(c.state);
    ShapedSizes(c.state, f, offers);
    ShapedNumbered(c.state, f, offers);
    ShapedIssue(s, f, offers, g, env.cfg);
    ShapedFits(Apply(s, GrantIssued(g), env.cfg).state, WithGrant(f), offers, env.cfg);
    CommitPlainly(c.state, GrantIssued(g), env);
    GoodParts(c);
    FreshIdentity(c);
    NoneLogged(c);
    AcquireStep(c, [], offer, 1, maxLive, env);
  }

  lemma {:induction false} TameFinds(c: Coord, f: Form, offers: nat -> Offer, n: nat, i: nat, id: u64)
    requires Tame(c, f, offers, n) && i < |f.shape| && f.shape[i] && id == i + 1
    ensures |c.state.grants| == |f.shape| && Lookup(c.index, c.state.grants, id) == Some(c.state.grants[i])
    ensures c.state.grants[i].Live() && f.live > 0
  {
    hide Good, Count, GrantAt, Lookup, Given;
    FindsIt(c, id);
    ShapedAt(c.state, f, offers, i, id);
    LiveIsCounted(c.state, f, offers, i);
  }

  lemma {:induction false} TameEnd(c: Coord, f: Form, offers: nat -> Offer, n: nat, i: nat, id: u64, env: Env)
    requires Tame(c, f, offers, n) && n < U64_MAX && i < |f.shape| && f.shape[i] && id == i + 1 && f.live > 0
    requires Fits(WithFence(f, i), env.cfg) && !env.full(n)
    ensures var d := FenceGrant(c, id, ByFence, 1, env).0;
      Tame(d, WithFence(f, i), offers, n + 1) && CurrentVector(d.state) == CurrentVector(c.state)
  {
    hide Good, Apply, Commit, Count, Shaped, Overfull, Lookup, GrantAt;
    TameFinds(c, f, offers, n, i, id);
    var fence := FenceFor(c, c.state.grants[i], id, 1);
    var s := Numbered(c.state);
    ShapedNumbered(c.state, f, offers);
    ShapedEnd(s, f, offers, i, fence, env.cfg);
    ShapedFits(Apply(s, GrantEnded(ByFence, fence), env.cfg).state, WithFence(f, i), offers, env.cfg);
    CommitPlainly(c.state, GrantEnded(ByFence, fence), env);
    ApplyPrunesNothing(s, GrantEnded(ByFence, fence), env.cfg);
    FenceStep(c, id, ByFence, 1, env);
  }

  // --------------------------------------------------------------------------
  // Starting on a new store
  // --------------------------------------------------------------------------

  // Nothing granted, fenced, decided or registered yet.
  ghost predicate Unused(s: Durable) {
    && s.grants == [] && s.fences == [] && s.decisions == [] && s.contracts == []
    && s.grantHigh == 0 && s.fenceHigh == 0
    && s.counters.issued == 0 && s.counters.fenced == 0 && s.counters.fencesTotal == 0
    && s.counters.decisionsTotal == 0 && s.counters.decisionsFull == 0
  }

  lemma {:induction false} UnusedIsShaped(s: Durable, offers: nat -> Offer)
    requires Unused(s)
    ensures Shaped(s, NOTHING, offers)
  {
    hide Count, Given;
    CountNone(IsLive, s.grants);
  }

  lemma {:induction false} FirstBoot(s: Durable, cfg: Config)
    requires Fresh(s.(journalRecords := 0, journalSequence := 0))
    ensures var e := Apply(s, BootAdvanced(1, 1, 1), cfg);
      && e.status.None? && Unused(e.state) && e.state.boot == 1 && e.state.term == 1
      && e.state.fabricGeneration == 0 && e.state.capacityGeneration == 0 && e.state.evidenceGeneration == 0
      && e.state.journalRecords == s.journalRecords && e.state.journalSequence == s.journalSequence
  {
  }

  lemma {:induction false} UnusedCommit(s: Durable, r: Record, env: Env, n: nat)
    requires Unused(s) && s.journalRecords == n == s.journalSequence && n < 100 && !env.full(n)
    requires r.FabricAdvanced? || r.CapacityAdvanced? || r.EvidenceAdvanced?
    ensures var e := Commit(s, r, env);
      && e == Apply(Numbered(s), r, env.cfg) && e.status.None? && Unused(e.state)
      && e.state.journalRecords == n + 1 == e.state.journalSequence
  {
    hide Commit;
    CommitPlainly(s, r, env);
  }

  lemma {:induction false} FreshBoots(s: Durable, env: Env)
    requires Fresh(s) && !env.full(0)
    ensures var e := Commit(s, BootAdvanced(1, 1, 1), env);
      && e.status.None? && Unused(e.state) && e.state.journalRecords == 1 == e.state.journalSequence
      && e.state.fabricGeneration == 0 && e.state.capacityGeneration == 0 && e.state.evidenceGeneration == 0
  {
    hide Commit, Apply;
    assert Numbered(s).(journalRecords := 0, journalSequence := 0) == s;
    FirstBoot(Numbered(s), env.cfg);
    CommitPlainly(s, BootAdvanced(1, 1, 1), env);
  }

  lemma {:induction false} FreshBootstraps(s: Durable, env: Env)
    requires Unused(s) && s.journalRecords == 1 == s.journalSequence && !env.full(1) && !env.full(2) && !env.full(3)
    requires s.fabricGeneration == 0 && s.capacityGeneration == 0 && s.evidenceGeneration == 0
    ensures var e := Bootstraps(s, env);
      && e.status.None? && Unused(e.state) && e.state.journalRecords == 4 == e.state.journalSequence
      && e.state.capacityGeneration == 1
  {
    hide Commit, Unused;
    UnusedCommit(s, FabricAdvanced(1), env, 1);
    var a := Commit(s, FabricAdvanced(1), env).state;
    UnusedCommit(a, CapacityAdvanced(1), env, 2);
    var b := Commit(a, CapacityAdvanced(1), env).state;
    UnusedCommit(b, EvidenceAdvanced(1), env, 3);
  }

  // Start-up on a new store succeeds and leaves a coordinator without grants.
  lemma {:induction false} FreshStarts(s: Durable, env: Env, offers: nat -> Offer)
    requires Fresh(s) && forall n: nat | n < 4 :: !env.full(n)
    ensures Create(s, env).Ok? && Tame(Create(s, env).value, NOTHING, offers, 4)
    ensures Create(s, env).value.state.contracts == [] && Create(s, env).value.state.capacityGeneration == 1
  {
    hide Commit, Bootstraps, Shaped, Good, Recovered, AllEnded, Count, Orderly, AllInTurn;
    FreshBoots(s, env);
    var booted := Commit(s, BootAdvanced(1, 1, 1), env).state;
    FreshBootstraps(booted, env);
    var ready := Bootstraps(booted, env).state;
    UnusedIsShaped(ready, offers);
    assert LiveNow(ready.grants) == [];
    FreshRecovered(s);
    assert At(s, 0) == s;
    BootEndsExactly(s, env);
    NothingToEnd(ready.grants);
  }

  lemma {:induction false} NothingToEnd(gs: seq<Grant>)
    requires gs == []
    ensures AllEnded(gs)
  {
  }

  // --------------------------------------------------------------------------
  // Runs, one operation at a time
  // --------------------------------------------------------------------------

  lemma {:induction false} RunsPush(c: Coord, ops: seq<Op>, env: Env, d: Coord, hs: seq<Happening>, op: Op)
    requires Runs(c, ops, env, d, hs) && Legal(d, op, env)
    ensures Runs(c, ops + [op], env, Perform(d, op, env).0, hs + [Perform(d, op, env).1])
    decreases |ops|
  {
    hide Legal, Perform;
    var e, h := Perform(d, op, env).0, Perform(d, op, env).1;
    if ops == [] {
      assert [op][1..] == [] && [h][1..] == [] && ops + [op] == [op] && hs + [h] == [h];
      assert Runs(e, [], env, e, []);
    } else {
      RunsPush(Perform(c, ops[0], env).0, ops[1..], env, d, hs[1..], op);
      assert (ops + [op])[1..] == ops[1..] + [op] && (hs + [h])[1..] == hs[1..] + [h];
    }
  }

  // Operations performed so far, where they led and what happened on the way.
  datatype Trail = Trail(ops: seq<Op>, at: Coord, happened: seq<Happening>)

  ghost predicate Walked(c: Coord, env: Env, t: Trail) {
    Runs(c, t.ops, env, t.at, t.happened)
  }

  // One operation more.
  function Onward(t: Trail, op: Op, env: Env): Trail {
    Trail(t.ops + [op], Perform(t.at, op, env).0, t.happened + [Perform(t.at, op, env).1])
  }

  lemma {:induction false} WalkOn(c: Coord, env: Env, t: Trail, op: Op)
    requires Walked(c, env, t) && Legal(t.at, op, env)
    ensures Walked(c, env, Onward(t, op, env))
  {
    hide Runs, Legal, Perform;
    RunsPush(c, t.ops, env, t.at, t.happened, op);
  }

  // The operations that commit the records of a set-up.
  function SetupOps(setup: seq<Record>): seq<Op> {
    seq(|setup|, i requires 0 <= i < |setup| => CommitOther(setup[i]))
  }

  lemma {:induction false} TameSetup(c: Coord, offers: nat -> Offer, n: nat, r: Record, env: Env)
    requires Tame(c, NOTHING, offers, n) && SettingUp(r) && n < U64_MAX && !env.full(n)
    requires |c.state.contracts| < env.cfg.maxContracts
    ensures var d := CommitNeutral(c, r, env);
      && Tame(d, NOTHING, offers, n + 1) && |d.state.contracts| <= |c.state.contracts| + 1
      && d.state.capacityGeneration == c.state.capacityGeneration
  {
    hide Tame, Apply, Commit, Shaped;
    TameIsGood(c, NOTHING, offers, n);
    ShapedNumbered(c.state, NOTHING, offers);
    ShapedOther(Numbered(c.state), NOTHING, offers, r, env.cfg);
    TameNeutral(c, NOTHING, offers, n, r, NOTHING, env);
  }

  // Any set-up can be committed first.
  lemma {:induction false} WalkSetup(c: Coord, env: Env, setup: seq<Record>, offers: nat -> Offer) returns (t: Trail)
    requires Tame(c, NOTHING, offers, 4) && c.state.contracts == [] && (forall r | r in setup :: SettingUp(r))
    requires |setup| < env.cfg.maxContracts && |setup| + 4 < U64_MAX
    requires forall k: nat | k < |setup| + 4 :: !env.full(k)
    ensures Walked(c, env, t) && t.ops == SetupOps(setup) && Tame(t.at, NOTHING, offers, |setup| + 4)
    ensures |t.at.state.contracts| <= |setup| && t.at.state.capacityGeneration == c.state.capacityGeneration
    decreases |setup|
  {
    hide Tame, Walked, CommitNeutral;
    if setup == [] {
      t := Trail([], c, []);
      NoSteps(c, env);
      assert SetupOps(setup) == [];
    } else {
      var m := |setup| - 1;
      var before := WalkSetup(c, env, setup[..m], offers);
      TameSetup(before.at, offers, m + 4, setup[m], env);
      WalkOn(c, env, before, CommitOther(setup[m]));
      t := Onward(before, CommitOther(setup[m]), env);
      assert SetupOps(setup) == SetupOps(setup[..m]) + [CommitOther(setup[m])];
    }
  }

  lemma {:induction false} NoSteps(c: Coord, env: Env)
    ensures Walked(c, env, Trail([], c, []))
  {
  }

  // Acquiring: the decision, then the grant.
  lemma {:induction false} WalkAcquire(c: Coord, env: Env, t: Trail, f: Form, offers: nat -> Offer, n: nat, next: Form,
                                       maxLive: nat) returns (t': Trail)
    requires Walked(c, env, t) && Tame(t.at, f, offers, n) && n + 2 <= U64_MAX && Fits(next, env.cfg)
    requires next == WithGrant(WithDecision(f)) && f.live < env.cfg.maxGrants && f.live < maxLive
    requires !env.full(n) && !env.full(n + 1)
    ensures Walked(c, env, t') && t.ops <= t'.ops && Tame(t'.at, next, offers, n + 2)
    ensures CurrentVector(t'.at.state) == CurrentVector(t.at.state)
  {
    hide Runs, Tame, AcquireGrant, Commit, CommitNeutral, CurrentVector;
    TameDecide(t.at, f, offers, n, env);
    var d := CommitNeutral(t.at, DecisionRecorded(NextDecision(f)), env);
    TameIssue(d, WithDecision(f), offers, n + 1, maxLive, env);
    var op := Op.Acquire(Ok(NextDecision(f)), offers(|f.shape|), 1, maxLive);
    WalkOn(c, env, t, op);
    t' := Onward(t, op, env);
  }

  lemma {:induction false} WalkEnd(c: Coord, env: Env, t: Trail, f: Form, offers: nat -> Offer, n: nat, next: Form,
                                   i: nat) returns (t': Trail)
    requires Walked(c, env, t) && Tame(t.at, f, offers, n) && n < U64_MAX && i < |f.shape| && f.shape[i] && f.live > 0
    requires next == WithFence(f, i) && Fits(next, env.cfg) && !env.full(n)
    ensures Walked(c, env, t') && t.ops <= t'.ops && Tame(t'.at, next, offers, n + 1)
    ensures CurrentVector(t'.at.state) == CurrentVector(t.at.state)
  {
    hide Runs, Tame, FenceGrant, CurrentVector;
    TameEnd(t.at, f, offers, n, i, i + 1, env);
    var op := Op.End(i + 1, ByFence, 1);
    WalkOn(c, env, t, op);
    t' := Onward(t, op, env);
  }
}
