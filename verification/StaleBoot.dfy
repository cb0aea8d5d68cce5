// What a stale grant index does to start-up (Coordinator::create in
// src/runtime/coordinator.cpp): a store that crashed at the wrong moment restarts with a
// grant of the earlier boot still live.
module StaleBoot {
  import opened Core
  import opened Grants
  import opened Store
  import opened Closure
  import opened ClosureReports
  import opened Replay
  import opened GrantTables
  import opened Coordinators
  import opened BootFencing
  import opened CoordinatorRuns
  import opened ShapedRuns
  import opened Sorting
  import opened Sums
  import opened Subsets

  // --------------------------------------------------------------------------
  // One live grant behind two ended ones
  // --------------------------------------------------------------------------

  lemma {:induction false} ThreeFiltered(p: Grant -> bool, x: Grant, y: Grant, z: Grant)
    ensures Filter(p, [x, y, z]) == (if p(x) then [x] else []) + (if p(y) then [y] else []) + (if p(z) then [z] else [])
  {
    var none: seq<Grant> := [];
    FilterPush(p, none, x);
    FilterPush(p, [x], y);
    FilterPush(p, [x, y], z);
    assert none + [x] == [x] && [x] + [y] == [x, y] && [x, y] + [z] == [x, y, z];
  }

  lemma {:induction false} AloneSorted(l: Grant)
    ensures SortBy(GrantBefore, [l]) == [l]
  {
    assert SortBy(GrantBefore, [l][1..]) == [];
  }

  lemma {:induction false} OneSurvives(a: Grant, b: Grant, l: Grant, cfg: Config)
    requires IsEnded(a) && IsEnded(b) && IsLive(l) && cfg.maxGrants == 1
    ensures KeptGrants([a, b, l], cfg) == [l] && Dropped([a, b, l], cfg) == 2
  {
    hide SortBy, Filter, Count;
    var gs := [a, b, l];
    OneLive(a, b, l);
    CountIsFilter(gs);
    assert |EndedByAge(gs)| == 2 && Budget(gs, cfg) == 0;
    assert [l] + EndedByAge(gs)[..0] == [l];
    AloneSorted(l);
  }

  lemma {:induction false} OneLive(a: Grant, b: Grant, l: Grant)
    requires IsEnded(a) && IsEnded(b) && IsLive(l)
    ensures Filter(IsLive, [a, b, l]) == [l] && Filter(IsEnded, [a, b, l]) == [a, b]
  {
    hide Filter;
    ThreeFiltered(IsLive, a, b, l);
    ThreeFiltered(IsEnded, a, b, l);
    assert !IsLive(a) && !IsLive(b) && !IsEnded(l);
    assert [] + [] + [l] == [l] && [a] + [b] + [] == [a, b];
  }

  // A boot record commits from any sound state with room for it, and prunes when due.
  lemma {:induction false} BootCommits(s: Durable, env: Env, clock: u64)
    requires Sound(s) && s.boot < U64_MAX && s.term < U64_MAX && s.journalRecords < U64_MAX
    requires s.journalSequence < U64_MAX
    requires |s.grants| > env.cfg.maxGrants * 2
    ensures var e := Commit(s, BootAdvanced(s.boot + 1, s.term + 1, clock), env);
      && e.status.None? && e.state.grants == KeptGrants(s.grants, env.cfg)
      && e.state.fabricGeneration == s.fabricGeneration
      && e.state.capacityGeneration == s.capacityGeneration && e.state.evidenceGeneration == s.evidenceGeneration
  {
    hide KeptGrants, ApplyBoot, Prune, Roomy, Keeps, Sound;
    var n := Numbered(s);
    var r := BootAdvanced(s.boot + 1, s.term + 1, clock);
    NumberedRoomy(s);
    ApplyKeeps(n, r, env.cfg);
    var a := Apply(n, r, env.cfg);
    KeepsSound(n, a);
    BootApplies(n, s.boot + 1, s.term + 1, clock);
    PruneKeeps(a.state, env.cfg);
    PruneLeavesGenerations(a.state, env.cfg);
  }

  lemma {:induction false} PruneLeavesGenerations(s: Durable, cfg: Config)
    requires Prune(s, cfg).status.None?
    ensures var t := Prune(s, cfg).state;
      && t.grants == KeptGrants(s.grants, cfg) && t.fabricGeneration == s.fabricGeneration
      && t.capacityGeneration == s.capacityGeneration && t.evidenceGeneration == s.evidenceGeneration
  {
    hide KeptGrants, Dropped, SortBy;
  }

  lemma {:induction false} BootApplies(n: Durable, boot: u64, term: u64, clock: u64)
    requires Roomy(n) && boot > n.boot && term > n.term
    ensures var e := ApplyBoot(n, boot, term, clock);
      && e.status.None? && e.state.grants == n.grants && e.state.fabricGeneration == n.fabricGeneration
      && e.state.capacityGeneration == n.capacityGeneration && e.state.evidenceGeneration == n.evidenceGeneration
  {
    hide Closed;
  }

  lemma {:induction false} MissedByIndex(a: Grant, b: Grant, l: Grant)
    requires IdsClimb([a, b, l]) && IsLive(l)
    ensures LiveNow([l]) == [l.id] && Lookup(IndexOf([a, b, l]), [l], l.id) == None
  {
    hide IndexOf;
    var gs := [a, b, l];
    IndexOfMeans(gs);
    assert gs[2] == l;
    assert Filter(IsLive, [l][1..]) == [];
    assert Filter(IsLive, [l]) == [l];
    assert Mapped(IdOf, [l])[0] == IdOf(l);
  }

  // With three grants in a store that retains one, start-up drops the two ended ones,
  // then looks the live one up where it used to be, misses it, and leaves it live.
  lemma {:induction false} StaleIndexLeavesGrantLive(rep: Durable, env: Env, a: Grant, b: Grant, l: Grant)
    requires Recovered(rep) && rep.grants == [a, b, l] && IsEnded(a) && IsEnded(b) && IsLive(l)
    requires env.cfg.maxGrants == 1
    requires rep.boot < U64_MAX && rep.term < U64_MAX && rep.journalRecords < U64_MAX && rep.journalSequence < U64_MAX
    requires rep.fabricGeneration != 0 && rep.capacityGeneration != 0 && rep.evidenceGeneration != 0
    ensures Create(rep, env).Ok? && Create(rep, env).value.state.grants == [l]
  {
    hide Sound, Commit, KeptGrants, LiveNow, IndexOf, Lookup, IsEnded, IsLive, Observed, IdsBelow;
    BootCommits(rep, env, Clock(rep));
    OneSurvives(a, b, l, env.cfg);
    MissedByIndex(a, b, l);
    var booted := Commit(rep, BootAdvanced(rep.boot + 1, rep.term + 1, Clock(rep)), env).state;
    assert Bootstraps(booted, env) == Success(booted);
    var c := Coord(booted, IndexOf(rep.grants), Observed(1, rep.grantHigh), 1, Observed(1, rep.fenceHigh));
    assert FenceAll(c, [l.id][1..], Clock(rep), env) == Ok(c);
    assert FenceAll(c, [l.id], Clock(rep), env) == Ok(c);
  }

  // --------------------------------------------------------------------------
  // A store that gets there
  // --------------------------------------------------------------------------

  lemma {:induction false} RunsToPush(s: Durable, events: seq<Event>, cfg: Config, t: Durable, e: Event)
    requires RunsTo(s, events, cfg, t) && Admissible(e.record, t)
    requires Append(t, e.record, e.evidenceFull, cfg).status.None?
    ensures RunsTo(s, events + [e], cfg, Append(t, e.record, e.evidenceFull, cfg).state)
    decreases |events|
  {
    hide Append, Admissible;
    if events == [] {
      var u := Append(t, e.record, e.evidenceFull, cfg).state;
      assert events + [e] == [e] && [e][1..] == [];
      assert RunsTo(u, [], cfg, u);
    } else {
      RunsToPush(Append(s, events[0].record, events[0].evidenceFull, cfg).state, events[1..], cfg, t, e);
      assert (events + [e])[1..] == events[1..] + [e];
    }
  }

  lemma {:induction false} ReplaysPush(s: Durable, events: seq<Event>, cfg: Config, t: Durable, e: Event)
    requires ReplaysTo(s, events, cfg, t) && Apply(t, e.record, cfg).status.None?
    ensures ReplaysTo(s, events + [e], cfg, Apply(t, e.record, cfg).state)
    decreases |events|
  {
    hide Apply;
    if events == [] {
      var u := Apply(t, e.record, cfg).state;
      assert events + [e] == [e] && [e][1..] == [];
      assert ReplaysTo(u, [], cfg, u);
    } else {
      ReplaysPush(Apply(s, events[0].record, cfg).state, events[1..], cfg, t, e);
      assert (events + [e])[1..] == events[1..] + [e];
    }
  }

  // Booted once, every generation set.
  ghost predicate Started(s: Durable) {
    s.boot == 1 && s.term == 1 && s.fabricGeneration != 0 && s.capacityGeneration != 0 && s.evidenceGeneration != 0
  }

  // What a store has written, the state it is in, and the replay of what it has written.
  datatype Log = Log(events: seq<Event>, live: Durable, rep: Durable)

  ghost predicate Journalled(s: Durable, cfg: Config, j: Log) {
    && RunsTo(s, j.events, cfg, j.live) && ReplaysTo(s, j.events, cfg, j.rep) && Recovered(At(j.rep, |j.events|))
    && j.live.journalRecords == |j.events| == j.live.journalSequence
  }

  lemma {:induction false} CountsEvents(s: Durable, cfg: Config, j: Log)
    requires Journalled(s, cfg, j)
    ensures j.live.journalRecords == |j.events| == j.live.journalSequence
  {
    hide RunsTo, ReplaysTo, Recovered;
  }

  // One more record, which the live store does not prune after.
  lemma {:induction false} WriteOne(s: Durable, cfg: Config, j: Log, r: Record) returns (j': Log)
    requires Journalled(s, cfg, j) && |j.events| < U64_MAX && !r.AccountingCheckpoint?
    requires r.GrantIssued? ==> r.grant.state.Issued? && r.grant.id > j.rep.grantHigh
    requires var e := Apply(Numbered(j.live), r, cfg);
      && e.status.None? && !Overfull(e.state, cfg)
      && e.state.journalRecords == |j.events| + 1 == e.state.journalSequence
    requires Apply(j.rep, r, cfg).status.None?
    ensures Journalled(s, cfg, j') && j'.events == j.events + [Event(r, false)]
    ensures j'.live == Apply(Numbered(j.live), r, cfg).state && j'.rep == Apply(j.rep, r, cfg).state
  {
    hide Apply, Overfull, Recovered, RunsTo, ReplaysTo;
    var e := Event(r, false);
    j' := Log(j.events + [e], Apply(Numbered(j.live), r, cfg).state, Apply(j.rep, r, cfg).state);
    AppendSmall(j.live, r, cfg, Numbered(j.live), Apply(Numbered(j.live), r, cfg));
    RunsToPush(s, j.events, cfg, j.live, e);
    ReplaysPush(s, j.events, cfg, j.rep, e);
    OneReplay(j.rep, e, cfg);
    ReplayRecovers(j.rep, [e], cfg, j'.rep, |j.events|);
  }

  lemma {:induction false} OneReplay(s: Durable, e: Event, cfg: Config)
    requires Apply(s, e.record, cfg).status.None? && !e.record.AccountingCheckpoint?
    requires e.record.GrantIssued? ==> e.record.grant.state.Issued? && e.record.grant.id > s.grantHigh
    ensures ReplaysTo(s, [e], cfg, Apply(s, e.record, cfg).state) && IssuedClimb([e], s.grantHigh)
  {
    hide Apply;
    var t := Apply(s, e.record, cfg).state;
    assert [e][1..] == [];
    assert ReplaysTo(t, [], cfg, t);
  }

  const VECTOR := AuthorityVector(1, 1, 1, 1, 1, 1)
  const BINDING := Binding(VECTOR, 1, 1, 1, 1, 1)

  function Offered(i: nat): Offer {
    Offer(BINDING, [], [], 9)
  }

  function IssuedAs(id: u64): Grant {
    Grant(id, BINDING, [], [], 1, id, 1, 9, 1, Issued)
  }

  // The store has been used this much.
  ghost predicate Used(s: Durable, cfg: Config, j: Log, f: Form) {
    && Journalled(s, cfg, j) && Shaped(j.live, f, Offered) && Shaped(j.rep, f, Offered) && Started(j.rep)
  }

  // A decision and the grant it authorises.
  lemma {:induction false} WriteDecision(s: Durable, cfg: Config, j: Log, f: Form) returns (j': Log)
    requires Used(s, cfg, j, f) && |j.events| < U64_MAX && f.decisions < 100 && Fits(WithDecision(f), cfg)
    ensures Used(s, cfg, j', WithDecision(f)) && |j'.events| == |j.events| + 1 && j.events <= j'.events
  {
    hide Journalled, Apply, Shaped, Overfull, Fits;
    var r := DecisionRecorded(NextDecision(f));
    ShapedNumbered(j.live, f, Offered);
    ShapedDecide(Numbered(j.live), f, Offered, cfg);
    ShapedDecide(j.rep, f, Offered, cfg);
    ShapedFits(Apply(Numbered(j.live), r, cfg).state, WithDecision(f), Offered, cfg);
    CountsEvents(s, cfg, j);
    j' := WriteOne(s, cfg, j, r);
  }

  lemma {:induction false} WriteIssue(s: Durable, cfg: Config, j: Log, f: Form) returns (j': Log)
    requires Used(s, cfg, j, f) && |j.events| < U64_MAX && f.live < cfg.maxGrants && Fits(WithGrant(f), cfg)
    ensures Used(s, cfg, j', WithGrant(f)) && |j'.events| == |j.events| + 1 && j.events <= j'.events
  {
    hide Journalled, Apply, Shaped, Overfull;
    var r := GrantIssued(IssuedAs(|f.shape| + 1));
    ShapedNumbered(j.live, f, Offered);
    ShapedIssue(Numbered(j.live), f, Offered, r.grant, cfg);
    ShapedIssue(j.rep, f, Offered, r.grant, cfg);
    ShapedFits(Apply(Numbered(j.live), r, cfg).state, WithGrant(f), Offered, cfg);
    ShapedSizes(j.rep, f, Offered);
    CountsEvents(s, cfg, j);
    j' := WriteOne(s, cfg, j, r);
  }

  lemma {:induction false} WriteGrant(s: Durable, cfg: Config, j: Log, f: Form, next: Form) returns (j': Log)
    requires Used(s, cfg, j, f) && |j.events| + 2 <= U64_MAX && f.live < cfg.maxGrants && Fits(next, cfg)
    requires next == WithGrant(WithDecision(f))
    ensures Used(s, cfg, j', next) && |j'.events| == |j.events| + 2 && j.events <= j'.events
  {
    hide Used;
    var decided := WriteDecision(s, cfg, j, f);
    j' := WriteIssue(s, cfg, decided, WithDecision(f));
  }

  lemma {:induction false} WriteEnd(s: Durable, cfg: Config, j: Log, f: Form, next: Form, i: nat) returns (j': Log)
    requires Used(s, cfg, j, f) && |j.events| < U64_MAX && i < |f.shape| && f.shape[i] && f.live > 0
    requires next == WithFence(f, i) && Fits(next, cfg)
    ensures Used(s, cfg, j', next) && |j'.events| == |j.events| + 1 && j.events <= j'.events
  {
    hide Journalled, Apply, Shaped, Overfull;
    var r := GrantEnded(ByFence, Fence(f.fences + 1, i + 1, BINDING, BINDING, 1));
    ShapedNumbered(j.live, f, Offered);
    ShapedEnd(Numbered(j.live), f, Offered, i, r.fence, cfg);
    ShapedEnd(j.rep, f, Offered, i, r.fence, cfg);
    ShapedFits(Apply(Numbered(j.live), r, cfg).state, next, Offered, cfg);
    CountsEvents(s, cfg, j);
    j' := WriteOne(s, cfg, j, r);
  }

  // The boot record and the three generations.
  lemma {:induction false} WriteStart(s: Durable, cfg: Config) returns (j: Log)
    requires Fresh(s)
    ensures Used(s, cfg, j, NOTHING) && |j.events| == 4 && j.live.contracts == [] && j.rep.contracts == []
  {
    hide Journalled, Apply, Shaped;
    NothingWritten(s, cfg);
    assert Numbered(s).(journalRecords := 0, journalSequence := 0) == s;
    FirstBoot(Numbered(s), cfg);
    assert s.(journalRecords := 0, journalSequence := 0) == s;
    FirstBoot(s, cfg);
    j := WriteOne(s, cfg, Log([], s, s), BootAdvanced(1, 1, 1));
    j := WriteGeneration(s, cfg, j, FabricAdvanced(1));
    j := WriteGeneration(s, cfg, j, CapacityAdvanced(1));
    j := WriteGeneration(s, cfg, j, EvidenceAdvanced(1));
    UnusedIsShaped(j.live, Offered);
    UnusedIsShaped(j.rep, Offered);
  }

  lemma {:induction false} NothingWritten(s: Durable, cfg: Config)
    requires Fresh(s)
    ensures Journalled(s, cfg, Log([], s, s))
  {
    hide Recovered, AllZero;
    FreshRecovered(s);
    assert At(s, 0) == s;
  }

  lemma {:induction false} WriteGeneration(s: Durable, cfg: Config, j: Log, r: Record) returns (j': Log)
    requires Journalled(s, cfg, j) && Unused(j.live) && Unused(j.rep) && |j.events| < 100
    requires r.FabricAdvanced? || r.CapacityAdvanced? || r.EvidenceAdvanced?
    ensures Journalled(s, cfg, j') && Unused(j'.live) && Unused(j'.rep) && |j'.events| == |j.events| + 1
    ensures j'.rep.boot == j.rep.boot && j'.rep.term == j.rep.term
    ensures j'.rep.fabricGeneration == if r.FabricAdvanced? then r.fabric else j.rep.fabricGeneration
    ensures j'.rep.capacityGeneration == if r.CapacityAdvanced? then r.capacity else j.rep.capacityGeneration
    ensures j'.rep.evidenceGeneration == if r.EvidenceAdvanced? then r.evidence else j.rep.evidenceGeneration
  {
    hide Journalled;
    CountsEvents(s, cfg, j);
    j' := WriteOne(s, cfg, j, r);
  }

  function SetupEvents(setup: seq<Record>): seq<Event> {
    seq(|setup|, i requires 0 <= i < |setup| => Event(setup[i], false))
  }

  // Contracts, policies and evidence recorded first.
  lemma {:induction false} WriteSetup(s: Durable, cfg: Config, start: Log, setup: seq<Record>) returns (j: Log)
    requires Used(s, cfg, start, NOTHING) && |start.events| == 4 && start.live.contracts == [] == start.rep.contracts
    requires (forall r | r in setup :: SettingUp(r)) && |setup| < cfg.maxContracts && |setup| + 4 < U64_MAX
    ensures Used(s, cfg, j, NOTHING) && j.events == start.events + SetupEvents(setup)
    ensures |j.live.contracts| <= |setup| && |j.rep.contracts| <= |setup|
    decreases |setup|
  {
    hide Journalled, Apply, Shaped, Overfull;
    if setup == [] {
      j := start;
      assert start.events + SetupEvents(setup) == start.events;
    } else {
      var m := |setup| - 1;
      var before := WriteSetup(s, cfg, start, setup[..m]);
      var r := setup[m];
      ShapedNumbered(before.live, NOTHING, Offered);
      ShapedOther(Numbered(before.live), NOTHING, Offered, r, cfg);
      ShapedOther(before.rep, NOTHING, Offered, r, cfg);
      ShapedFits(Apply(Numbered(before.live), r, cfg).state, NOTHING, Offered, cfg);
      KeepsStarted(before.rep, r, cfg);
      CountsEvents(s, cfg, before);
      j := WriteOne(s, cfg, before, r);
      assert SetupEvents(setup) == SetupEvents(setup[..m]) + [Event(r, false)];
    }
  }

  lemma {:induction false} KeepsStarted(s: Durable, r: Record, cfg: Config)
    requires Started(s) && SettingUp(r)
    ensures Started(Apply(s, r, cfg).state)
  {
    hide ContractAt;
  }

  // The last grant makes the live store prune; replay does not.
  lemma {:induction false} WriteLast(s: Durable, cfg: Config, j: Log, f: Form) returns (j': Log)
    requires Fresh(s) && Used(s, cfg, j, f) && |j.events| < U64_MAX && |f.shape| < 100 && f.live < cfg.maxGrants
    ensures RunsTo(s, j'.events, cfg, j'.live) && ReplaysTo(s, j'.events, cfg, j'.rep)
    ensures |j'.events| == |j.events| + 1 && j.events <= j'.events
    ensures Recovered(At(j'.rep, |j'.events|)) && Shaped(j'.rep, WithGrant(f), Offered) && Started(j'.rep)
  {
    hide Apply, Shaped, Overfull, RunsTo, ReplaysTo, Recovered, Prune, Sound, Keeps, Roomy;
    var r := GrantIssued(IssuedAs(|f.shape| + 1));
    var e := Event(r, false);
    ShapedNumbered(j.live, f, Offered);
    ShapedIssue(Numbered(j.live), f, Offered, r.grant, cfg);
    ShapedIssue(j.rep, f, Offered, r.grant, cfg);
    ShapedSizes(j.rep, f, Offered);
    FreshIsSound(s);
    ClosureAlways(s, j.events, cfg, j.live);
    NumberedRoomy(j.live);
    ApplyKeeps(Numbered(j.live), r, cfg);
    KeepsSound(Numbered(j.live), Apply(Numbered(j.live), r, cfg));
    PruneCounts(Apply(Numbered(j.live), r, cfg).state, cfg);
    RunsToPush(s, j.events, cfg, j.live, e);
    ReplaysPush(s, j.events, cfg, j.rep, e);
    j' := Log(j.events + [e], Append(j.live, r, false, cfg).state, Apply(j.rep, r, cfg).state);
    OneReplay(j.rep, e, cfg);
    ReplayRecovers(j.rep, [e], cfg, j'.rep, |j.events|);
  }

  // What a restart finds: two ended grants and a live one.
  lemma {:induction false} ShapeOfThree(s: Durable, f: Form)
    requires Shaped(s, f, Offered) && f.shape == [false, false, true] && f.live == 1
    ensures |s.grants| == 3 && s.grants == [s.grants[0], s.grants[1], s.grants[2]]
    ensures IsEnded(s.grants[0]) && IsEnded(s.grants[1]) && IsLive(s.grants[2]) && Count(IsLive, s.grants) == 1
    ensures s.fenceHigh == f.fences
  {
    hide Count, Given;
    assert !f.shape[0] && !f.shape[1] && f.shape[2];
  }

  // Two grants issued and ended.
  lemma {:induction false} WriteTwo(s: Durable, cfg: Config, start: Log) returns (j: Log)
    requires Used(s, cfg, start, NOTHING) && |start.events| + 6 <= U64_MAX
    requires cfg.maxGrants == 1 && cfg.maxFences >= 1 && cfg.maxDecisions >= 2
    ensures Used(s, cfg, j, Form([false, false], 0, 2, 2)) && |j.events| == |start.events| + 6
    ensures start.events <= j.events
  {
    hide Used;
    var a, b, c := Form([true], 1, 0, 1), Form([false], 0, 1, 1), Form([false, true], 1, 1, 2);
    j := WriteGrant(s, cfg, start, NOTHING, a);
    j := WriteEnd(s, cfg, j, a, b, 0);
    j := WriteGrant(s, cfg, j, b, c);
    j := WriteEnd(s, cfg, j, c, Form([false, false], 0, 2, 2), 1);
  }

  // So every new store that retains one grant can, after any set-up, be used and crash in
  // such a way that its recovery restarts with fence identities to spare and a grant of the
  // earlier boot left live.
  lemma {:induction false} BootCanLeaveGrantLive(s: Durable, env: Env, setup: seq<Record>)
    requires Fresh(s) && env.cfg.maxGrants == 1 && env.cfg.maxFences >= 1 && env.cfg.maxDecisions >= 2
    requires (forall r | r in setup :: SettingUp(r)) && |setup| < env.cfg.maxContracts && |setup| + 20 < U64_MAX
    ensures exists j: Log :: SetUpIn(setup, j.events) && RestartMisses(s, env, j)
  {
    hide Used, Journalled, Shaped, Create, Recovered, Count, RunsTo, ReplaysTo, Fresh, AllEnded, IsLive, IsEnded,
         FencesLeft, Observed, SettingUp;
    var start := WriteStart(s, env.cfg);
    var ready := WriteSetup(s, env.cfg, start, setup);
    var two := WriteTwo(s, env.cfg, ready);
    var f := Form([false, false], 0, 2, 2);
    var decided := WriteDecision(s, env.cfg, two, f);
    var j := WriteLast(s, env.cfg, decided, WithDecision(f));
    assert WithGrant(WithDecision(f)).shape == [false, false, true];
    ShapeOfThree(j.rep, WithGrant(WithDecision(f)));
    var r := At(j.rep, |j.events|);
    StaleIndexLeavesGrantLive(r, env, j.rep.grants[0], j.rep.grants[1], j.rep.grants[2]);
    OneFenceLeft(2);
    LiveIsNotEnded(j.rep.grants[2]);
    PrefixHolds(setup, start.events, ready.events, j.events);
    assert RestartMisses(s, env, j);
  }

  // The set-up was recorded right after the start.
  ghost predicate SetUpIn(setup: seq<Record>, events: seq<Event>) {
    |events| >= 4 + |setup| && events[4..4 + |setup|] == SetupEvents(setup)
  }

  lemma {:induction false} PrefixHolds(setup: seq<Record>, start: seq<Event>, ready: seq<Event>, events: seq<Event>)
    requires |start| == 4 && ready == start + SetupEvents(setup) && ready <= events
    ensures SetUpIn(setup, events)
  {
    assert events[4..4 + |setup|] == ready[4..];
  }

  // The store wrote the records, the journal replays, and the restart on it succeeds, has
  // fences enough, and leaves a grant live.
  ghost predicate RestartMisses(s: Durable, env: Env, j: Log) {
    && RunsTo(s, j.events, env.cfg, j.live) && ReplaysTo(s, j.events, env.cfg, j.rep)
    && var r := At(j.rep, |j.events|);
       && Recovered(r) && Count(IsLive, r.grants) <= FencesLeft(Observed(1, r.fenceHigh))
       && Create(r, env).Ok? && !AllEnded(Create(r, env).value.state.grants)
  }

  lemma {:induction false} OneFenceLeft(high: u64)
    requires high == 2
    ensures FencesLeft(Observed(1, high)) >= 1
  {
  }

  lemma {:induction false} LiveIsNotEnded(g: Grant)
    requires IsLive(g)
    ensures !AllEnded([g])
  {
    assert g in [g];
  }
}
