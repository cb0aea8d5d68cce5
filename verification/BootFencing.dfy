// Starting up (Coordinator::create in src/runtime/coordinator.cpp), and exactly when it
// leaves no earlier grant live.
//
// The index used by the fencing loop is built before the boot record is committed. That
// commit may prune, and so may every fence record of the loop. A live grant is then
// looked up where it used to be.
module BootFencing {
  import opened Core
  import opened Grants
  import opened Store
  import opened Closure
  import opened GrantTables
  import opened Coordinators
  import opened Sums
  import opened Subsets

  // --------------------------------------------------------------------------
  // The operation
  // --------------------------------------------------------------------------

  lemma {:induction false} IndexOfMeans(gs: seq<Grant>)
    requires IdsClimb(gs)
    ensures Indexes(IndexOf(gs), gs)
  {
    ClimbIsDistinct(gs);
    RebuiltIndexes(gs);
  }

  // The identities of the live grants, in vector order.
  function LiveNow(gs: seq<Grant>): seq<u64> {
    Mapped(IdOf, Filter(IsLive, gs))
  }

  // The fence record start-up writes for a grant.
  function BootFence(c: Coord, g: Grant, clock: u64): Record
    requires c.nextFence != 0
  {
    GrantEnded(ByFence, Fence(c.nextFence, g.id, g.binding, g.binding, clock))
  }

  // The coordinator after one fence record of the loop.
  function Fenced1(c: Coord, g: Grant, clock: u64, env: Env): Coord
    requires c.nextFence != 0
  {
    c.(state := Commit(c.state, BootFence(c, g, clock), env).state, nextFence := Successor(c.nextFence))
  }

  // The loop that fences every grant found live at start-up.
  function FenceAll(c: Coord, ids: seq<u64>, clock: u64, env: Env): Result<Coord>
    decreases |ids|
  {
    if ids == [] then Ok(c)
    else
      match Lookup(c.index, c.state.grants, ids[0])
      case None => FenceAll(c, ids[1..], clock, env)
      case Some(g) =>
        if c.nextFence == 0 then Ok(c)
        else
          var e := Commit(c.state, BootFence(c, g, clock), env);
          if e.status.Some? then Err(e.status.value) else FenceAll(Fenced1(c, g, clock, env), ids[1..], clock, env)
  }

  function Clock(s: Durable): u64 {
    if s.lastCommit > 0 then s.lastCommit else 1
  }

  // One generation bootstrap record, if the generation was never set.
  function Bootstrap(s: Durable, missing: bool, r: Record, env: Env): Effect {
    if missing then Commit(s, r, env) else Success(s)
  }

  function Bootstraps(s: Durable, env: Env): Effect {
    var a := Bootstrap(s, s.fabricGeneration == 0, FabricAdvanced(1), env);
    if a.status.Some? then a
    else
      var b := Bootstrap(a.state, s.capacityGeneration == 0, CapacityAdvanced(1), env);
      if b.status.Some? then b else Bootstrap(b.state, s.evidenceGeneration == 0, EvidenceAdvanced(1), env)
  }

  // What the fencing loop is handed: the state after the boot and generation records, the
  // index of the state before them.
  function Handed(rep: Durable, env: Env): Coord
    requires rep.boot < U64_MAX && rep.term < U64_MAX
  {
    var booted := Commit(rep, BootAdvanced(rep.boot + 1, rep.term + 1, Clock(rep)), env);
    Coord(Bootstraps(booted.state, env).state, IndexOf(rep.grants), Observed(1, rep.grantHigh), 1,
      Observed(1, rep.fenceHigh))
  }

  // Coordinator::create, from the recovered state on.
  function Create(rep: Durable, env: Env): Result<Coord> {
    if rep.boot == U64_MAX || rep.term == U64_MAX then Err(Exhausted)
    else
      var booted := Commit(rep, BootAdvanced(rep.boot + 1, rep.term + 1, Clock(rep)), env);
      if booted.status.Some? then Err(booted.status.value)
      else
        var ready := Bootstraps(booted.state, env);
        if ready.status.Some? then Err(ready.status.value)
        else
          var c := Handed(rep, env);
          match FenceAll(c, LiveNow(c.state.grants), Clock(rep), env)
          case Err(e) => Err(e)
          case Ok(d) => Ok(d.(index := IndexOf(d.state.grants)))
  }

  // A durable state recovery can hand over.
  ghost predicate Recovered(s: Durable) {
    Sound(s) && IdsClimb(s.grants) && IdsBelow(s.grants, s.grantHigh)
  }

  // How many fence identities are left.
  function FencesLeft(next: u64): nat {
    if next == 0 then 0 else U64_MAX - next + 1
  }

  ghost predicate AllEnded(gs: seq<Grant>) {
    forall g | g in gs :: IsEnded(g)
  }

  lemma {:induction false} RecoveredParts(s: Durable)
    requires Recovered(s)
    ensures Sound(s) && IdsClimb(s.grants) && IdsBelow(s.grants, s.grantHigh)
  {
    hide Sound, IdsClimb, IdsBelow;
  }

  // --------------------------------------------------------------------------
  // What start-up commits leave of the grants
  // --------------------------------------------------------------------------

  predicate Quiet(r: Record) {
    r.BootAdvanced? || r.FabricAdvanced? || r.CapacityAdvanced? || r.EvidenceAdvanced?
  }

  lemma {:induction false} QuietApply(s: Durable, r: Record, cfg: Config)
    requires Quiet(r)
    ensures Apply(s, r, cfg).state.grants == s.grants && Apply(s, r, cfg).state.grantHigh == s.grantHigh
  {
  }

  // The state after a start-up commit, against the state before.
  ghost predicate Succeeds(t: Durable, s: Durable) {
    && Recovered(t) && Remains(t.grants, s.grants) && t.grantHigh == s.grantHigh
    && s.counters.pruned <= t.counters.pruned && (Undropped(s, t) ==> t.grants == s.grants)
  }

  lemma {:induction false} SucceedsItself(s: Durable)
    requires Recovered(s)
    ensures Succeeds(s, s)
  {
    hide Recovered, Remains;
    AllRemain(s.grants);
  }

  lemma {:induction false} SucceedsOn(t: Durable, s: Durable, r: Durable)
    requires Succeeds(t, s) && Succeeds(s, r)
    ensures Succeeds(t, r)
  {
    hide Recovered, Remains;
    RemainsTwice(t.grants, s.grants, r.grants);
  }

  // A start-up commit that succeeds takes out ended grants at most.
  lemma {:induction false} QuietSucceeds(s: Durable, r: Record, env: Env)
    requires Recovered(s) && Quiet(r)
    ensures Commit(s, r, env).status.None? ==> Succeeds(Commit(s, r, env).state, s)
  {
    hide Apply, Commit, Remains, Sound, IdsClimb, IdsBelow;
    var e := Commit(s, r, env);
    QuietApply(Numbered(s), r, env.cfg);
    CommitRemains(s, r, env);
    DropGuard(s, r, env);
    if e.status.None? {
      RemainsBelow(e.state.grants, s.grants, s.grantHigh);
      if Undropped(s, e.state) { CommitMeans(s, r, env); }
    }
  }

  lemma {:induction false} BootstrapSucceeds(s: Durable, missing: bool, r: Record, env: Env)
    requires Recovered(s) && Quiet(r)
    ensures var e := Bootstrap(s, missing, r, env); e.status.None? ==> Succeeds(e.state, s)
  {
    hide Recovered, Commit, Succeeds;
    QuietSucceeds(s, r, env);
    SucceedsItself(s);
  }

  lemma {:induction false} SucceedsRecovered(t: Durable, s: Durable)
    requires Succeeds(t, s)
    ensures Recovered(t)
  {
    hide Recovered, Remains;
  }

  lemma {:induction false} BootstrapsSucceed(s: Durable, env: Env)
    requires Recovered(s)
    ensures var e := Bootstraps(s, env); e.status.None? ==> Succeeds(e.state, s)
  {
    hide Recovered, Commit, Succeeds, Bootstrap;
    var a := Bootstrap(s, s.fabricGeneration == 0, FabricAdvanced(1), env);
    BootstrapSucceeds(s, s.fabricGeneration == 0, FabricAdvanced(1), env);
    if a.status.None? {
      SucceedsRecovered(a.state, s);
      BootstrapSucceeds(a.state, s.capacityGeneration == 0, CapacityAdvanced(1), env);
      var b := Bootstrap(a.state, s.capacityGeneration == 0, CapacityAdvanced(1), env);
      if b.status.None? {
        SucceedsRecovered(b.state, a.state);
        SucceedsOn(b.state, a.state, s);
        BootstrapSucceeds(b.state, s.evidenceGeneration == 0, EvidenceAdvanced(1), env);
        var c := Bootstrap(b.state, s.evidenceGeneration == 0, EvidenceAdvanced(1), env);
        if c.status.None? { SucceedsOn(c.state, b.state, s); }
      }
    }
  }

  // --------------------------------------------------------------------------
  // One fence record
  // --------------------------------------------------------------------------

  // Fencing the grant at position i succeeds only on a live one, and ends it.
  lemma {:induction false} FenceAt(c: Coord, i: nat, clock: u64, env: Env)
    requires Recovered(c.state) && i < |c.state.grants| && c.nextFence != 0
    ensures var g := c.state.grants[i];
      var e := Commit(c.state, BootFence(c, g, clock), env);
      var ended := c.state.grants[i := Transitioned(g, Fenced, clock, 0, 0)];
      e.status.None? ==>
        (&& g.Live() && Recovered(e.state) && e.state.grantHigh == c.state.grantHigh && Remains(e.state.grants, ended)
         && c.state.counters.pruned <= e.state.counters.pruned
         && (Undropped(c.state, e.state) ==> e.state.grants == ended))
  {
    hide Sound, Commit, IdsClimb, IdsBelow, GrantAt, Apply, Remains;
    var s, g := c.state, c.state.grants[i];
    ClimbIsDistinct(s.grants);
    ScanMeaning(s.grants, i);
    var r := BootFence(c, g, clock);
    var h := Transitioned(g, Fenced, clock, 0, 0);
    EndedBecomes(Numbered(s), ByFence, r.fence, env.cfg);
    ClimbUpdate(s.grants, i, h);
    BelowUpdate(s.grants, i, h, s.grantHigh);
    CommitRemains(s, r, env);
    DropGuard(s, r, env);
    var e := Commit(s, r, env);
    if e.status.None? {
      RemainsBelow(e.state.grants, s.grants[i := h], s.grantHigh);
      if Undropped(s, e.state) { CommitMeans(s, r, env); }
    }
  }

  // --------------------------------------------------------------------------
  // A stale index looks too far
  // --------------------------------------------------------------------------

  // Whatever stands in front of an identity stands in front of where the index has it.
  ghost predicate Behind(index: map<u64, nat>, gs: seq<Grant>) {
    forall i, id | 0 <= i < |gs| && id in index && gs[i].id < id :: i < index[id]
  }

  lemma {:induction false} IndexIsBehind(index: map<u64, nat>, gs: seq<Grant>)
    requires Indexes(index, gs) && IdsClimb(gs)
    ensures Behind(index, gs)
  {
    forall i, id | 0 <= i < |gs| && id in index && gs[i].id < id ensures i < index[id] {
      assert gs[index[id]].id == id;
    }
  }

  // Taking grants out never moves one back.
  lemma {:induction false} StoodLater(hs: seq<Grant>, gs: seq<Grant>, i: nat) returns (j: nat)
    requires IdsClimb(hs) && IdsClimb(gs) && (forall h | h in hs :: h in gs) && i < |hs|
    ensures i <= j < |gs| && gs[j] == hs[i]
  {
    assert hs[i] in gs;
    j :| 0 <= j < |gs| && gs[j] == hs[i];
    if i > 0 {
      var k := StoodLater(hs, gs, i - 1);
      assert hs[i - 1].id < hs[i].id;
    }
  }

  lemma {:induction false} StillBehind(index: map<u64, nat>, hs: seq<Grant>, gs: seq<Grant>)
    requires Behind(index, gs) && Remains(hs, gs) && IdsClimb(hs) && IdsClimb(gs)
    ensures Behind(index, hs)
  {
    hide Filter, IdsClimb;
    forall i, id | 0 <= i < |hs| && id in index && hs[i].id < id ensures i < index[id] {
      var j := StoodLater(hs, gs, i);
    }
  }

  lemma {:induction false} BehindUpdate(index: map<u64, nat>, gs: seq<Grant>, i: nat, g: Grant)
    requires Behind(index, gs) && i < |gs| && g.id == gs[i].id
    ensures Behind(index, gs[i := g])
  {
  }

  // What one fence record of the loop leaves, with the stale index still behind.
  lemma {:induction false} FencedBehind(c: Coord, i: nat, clock: u64, env: Env)
    requires Recovered(c.state) && i < |c.state.grants| && c.nextFence != 0 && Behind(c.index, c.state.grants)
    requires Commit(c.state, BootFence(c, c.state.grants[i], clock), env).status.None?
    ensures var d := Fenced1(c, c.state.grants[i], clock, env);
      Recovered(d.state) && Behind(d.index, d.state.grants)
  {
    hide Sound, Commit, IdsBelow, Remains, Behind, IdsClimb;
    FenceAt(c, i, clock, env);
    var g := c.state.grants[i];
    var h := Transitioned(g, Fenced, clock, 0, 0);
    var d := Fenced1(c, g, clock, env);
    ClimbUpdate(c.state.grants, i, h);
    BehindUpdate(c.index, c.state.grants, i, h);
    StillBehind(c.index, d.state.grants, c.state.grants[i := h]);
  }

  // The loop never touches a live grant in front of all it is given.
  lemma {:induction false} SmallerStaysLive(c: Coord, ids: seq<u64>, clock: u64, env: Env, g: Grant)
    requires Recovered(c.state) && Behind(c.index, c.state.grants) && FenceAll(c, ids, clock, env).Ok?
    requires g in c.state.grants && g.Live() && forall k | 0 <= k < |ids| :: g.id < ids[k]
    ensures g in FenceAll(c, ids, clock, env).value.state.grants
    decreases |ids|
  {
    hide Recovered, Commit, Behind;
    if ids != [] {
      var found := Lookup(c.index, c.state.grants, ids[0]);
      assert forall k | 0 <= k < |ids[1..]| :: ids[1..][k] == ids[k + 1];
      if found.None? {
        SmallerStaysLive(c, ids[1..], clock, env, g);
      } else if c.nextFence != 0 {
        var j := c.index[ids[0]];
        SmallerMissed(c, ids[0], g);
        FenceAt(c, j, clock, env);
        FencedBehind(c, j, clock, env);
        OtherRemains(c, j, clock, env, g);
        SmallerStaysLive(Fenced1(c, found.value, clock, env), ids[1..], clock, env, g);
      }
    }
  }

  lemma {:induction false} SmallerMissed(c: Coord, id: u64, g: Grant)
    requires Behind(c.index, c.state.grants) && g in c.state.grants && g.id < id
    requires id in c.index && c.index[id] < |c.state.grants|
    ensures exists p | 0 <= p < |c.state.grants| :: c.state.grants[p] == g && p != c.index[id]
  {
    var p :| 0 <= p < |c.state.grants| && c.state.grants[p] == g;
    assert p < c.index[id];
  }

  // A live grant elsewhere survives one fence record.
  lemma {:induction false} OtherRemains(c: Coord, j: nat, clock: u64, env: Env, g: Grant)
    requires Recovered(c.state) && j < |c.state.grants| && c.nextFence != 0 && g.Live()
    requires exists p | 0 <= p < |c.state.grants| :: c.state.grants[p] == g && p != j
    requires Commit(c.state, BootFence(c, c.state.grants[j], clock), env).status.None?
    ensures g in Fenced1(c, c.state.grants[j], clock, env).state.grants
  {
    hide Recovered, Commit, Filter;
    FenceAt(c, j, clock, env);
    var p :| 0 <= p < |c.state.grants| && c.state.grants[p] == g && p != j;
    var ended := c.state.grants[j := Transitioned(c.state.grants[j], Fenced, clock, 0, 0)];
    assert ended[p] == g;
    assert IsLive(g);
  }

  // --------------------------------------------------------------------------
  // The exact condition
  // --------------------------------------------------------------------------

  // Each grant of the list, when its turn comes, stands where the index has it.
  ghost predicate InTurn(c: Coord, ids: seq<u64>, clock: u64, env: Env)
    decreases |ids|
  {
    ids == [] || c.nextFence == 0 ||
    var i := GrantAt(c.state.grants, ids[0]);
    && i < |c.state.grants| && ids[0] in c.index && c.index[ids[0]] == i
    && InTurn(Fenced1(c, c.state.grants[i], clock, env), ids[1..], clock, env)
  }

  // The list names exactly the live grants, in order.
  ghost predicate NamesLive(ids: seq<u64>, gs: seq<Grant>) {
    && (forall j, k | 0 <= j < k < |ids| :: ids[j] < ids[k])
    && (forall k | 0 <= k < |ids| :: GrantAt(gs, ids[k]) < |gs| && gs[GrantAt(gs, ids[k])].Live())
    && (forall g | g in gs && g.Live() :: g.id in ids)
  }

  // Another live grant of the list survives the end of the first.
  lemma {:induction false} RestIsLive(ids: seq<u64>, gs: seq<Grant>, hs: seq<Grant>, h: Grant, k: nat)
    requires 0 < k < |ids| && NamesLive(ids, gs) && IdsClimb(hs) && Remains(hs, gs[GrantAt(gs, ids[0]) := h])
    ensures GrantAt(hs, ids[k]) < |hs| && hs[GrantAt(hs, ids[k])].Live()
  {
    hide GrantAt, Filter;
    var q, p := GrantAt(gs, ids[0]), GrantAt(gs, ids[k]);
    var ended := gs[q := h];
    assert ids[0] < ids[k] && p != q && ended[p] == gs[p];
    assert IsLive(ended[p]) && ended[p] in ended;
    var j :| 0 <= j < |hs| && hs[j] == gs[p];
    ClimbIsDistinct(hs);
    ScanMeaning(hs, j);
  }

  // Whatever is live after the end of the first is on the rest of the list.
  lemma {:induction false} LiveIsRest(ids: seq<u64>, gs: seq<Grant>, h: Grant, g: Grant)
    requires ids != [] && NamesLive(ids, gs) && IdsClimb(gs) && h.id == ids[0] && !h.Live()
    requires g in gs[GrantAt(gs, ids[0]) := h] && g.Live()
    ensures g.id in ids[1..]
  {
    hide GrantAt;
    var q := GrantAt(gs, ids[0]);
    var p :| 0 <= p < |gs| && gs[q := h][p] == g;
    assert p != q && gs[p] == g && gs[p] in gs && gs[p].id != gs[q].id;
    var k :| 0 <= k < |ids| && ids[k] == g.id;
    assert ids[1..][k - 1] == g.id;
  }

  // Once its first grant has ended, the rest of the list names exactly what is live.
  lemma {:induction false} NamesRest(ids: seq<u64>, gs: seq<Grant>, hs: seq<Grant>, h: Grant)
    requires ids != [] && NamesLive(ids, gs) && IdsClimb(gs) && IdsClimb(hs)
    requires h.id == ids[0] && !h.Live() && Remains(hs, gs[GrantAt(gs, ids[0]) := h])
    ensures NamesLive(ids[1..], hs)
  {
    hide GrantAt, Filter, IdsClimb;
    forall k | 0 <= k < |ids[1..]| ensures GrantAt(hs, ids[1..][k]) < |hs| && hs[GrantAt(hs, ids[1..][k])].Live() {
      RestIsLive(ids, gs, hs, h, k + 1);
    }
    forall g | g in hs && g.Live() ensures g.id in ids[1..] { LiveIsRest(ids, gs, h, g); }
  }

  lemma {:induction false} NamesNothing(gs: seq<Grant>)
    requires NamesLive([], gs)
    ensures AllEnded(gs)
  {
    hide GrantAt;
  }

  // The loop, under any index that looks too far: it leaves nothing live exactly when
  // each grant stands in its place when its turn comes and there is a fence for each.
  lemma {:induction false} FenceAllExact(c: Coord, ids: seq<u64>, clock: u64, env: Env)
    requires Recovered(c.state) && Behind(c.index, c.state.grants) && NamesLive(ids, c.state.grants)
    requires FenceAll(c, ids, clock, env).Ok?
    ensures var d := FenceAll(c, ids, clock, env).value;
      && Recovered(d.state) && d.state.grantHigh == c.state.grantHigh
      && d.nextGrant == c.nextGrant && d.nextAttempt == c.nextAttempt
      && (AllEnded(d.state.grants) <==> InTurn(c, ids, clock, env) && |ids| <= FencesLeft(c.nextFence))
    decreases |ids|
  {
    hide Recovered, Commit, Behind, GrantAt, AllEnded, IdsClimb;
    if ids == [] {
      NamesNothing(c.state.grants);
    } else {
      var q := GrantAt(c.state.grants, ids[0]);
      var found := Lookup(c.index, c.state.grants, ids[0]);
      if c.nextFence != 0 && ids[0] in c.index && c.index[ids[0]] == q {
        var h := Transitioned(c.state.grants[q], Fenced, clock, 0, 0);
        var d := Fenced1(c, c.state.grants[q], clock, env);
        FenceAt(c, q, clock, env);
        FencedBehind(c, q, clock, env);
        RecoveredParts(c.state);
        RecoveredParts(d.state);
        NamesRest(ids, c.state.grants, d.state.grants, h);
        FenceAllExact(d, ids[1..], clock, env);
      } else {
        MissedExact(c, ids, clock, env, q);
      }
    }
  }

  // A grant missed in its turn stays live.
  lemma {:induction false} MissedExact(c: Coord, ids: seq<u64>, clock: u64, env: Env, q: nat)
    requires Recovered(c.state) && Behind(c.index, c.state.grants) && NamesLive(ids, c.state.grants)
    requires ids != [] && q == GrantAt(c.state.grants, ids[0]) && FenceAll(c, ids, clock, env).Ok?
    requires c.nextFence == 0 || ids[0] !in c.index || c.index[ids[0]] != q
    ensures var d := FenceAll(c, ids, clock, env).value;
      && Recovered(d.state) && d.state.grantHigh == c.state.grantHigh
      && d.nextGrant == c.nextGrant && d.nextAttempt == c.nextAttempt && !AllEnded(d.state.grants)
  {
    hide Recovered, Commit, Behind, GrantAt, FencesLeft;
    var g := c.state.grants[q];
    var found := Lookup(c.index, c.state.grants, ids[0]);
    assert forall k | 0 <= k < |ids[1..]| :: g.id < ids[1..][k];
    FenceAllKeeps(c, ids, clock, env);
    if found.None? {
      SmallerStaysLive(c, ids[1..], clock, env, g);
    } else if c.nextFence != 0 {
      var j := c.index[ids[0]];
      FencedBehind(c, j, clock, env);
      assert c.state.grants[q] == g && q != j;
      OtherRemains(c, j, clock, env, g);
      SmallerStaysLive(Fenced1(c, found.value, clock, env), ids[1..], clock, env, g);
    }
    assert g in FenceAll(c, ids, clock, env).value.state.grants && !IsEnded(g);
  }

  // The loop leaves a recovered state and allocates nothing but fences.
  lemma {:induction false} FenceAllKeeps(c: Coord, ids: seq<u64>, clock: u64, env: Env)
    requires Recovered(c.state) && FenceAll(c, ids, clock, env).Ok?
    ensures var d := FenceAll(c, ids, clock, env).value;
      && Recovered(d.state) && d.state.grantHigh == c.state.grantHigh
      && d.nextGrant == c.nextGrant && d.nextAttempt == c.nextAttempt && d.index == c.index
      && c.state.counters.pruned <= d.state.counters.pruned
    decreases |ids|
  {
    hide Recovered, Commit;
    if ids != [] {
      var found := Lookup(c.index, c.state.grants, ids[0]);
      if found.None? {
        FenceAllKeeps(c, ids[1..], clock, env);
      } else if c.nextFence != 0 {
        FenceAt(c, c.index[ids[0]], clock, env);
        FenceAllKeeps(Fenced1(c, found.value, clock, env), ids[1..], clock, env);
      }
    }
  }

  lemma {:induction false} LiveNowNames(gs: seq<Grant>)
    requires IdsClimb(gs)
    ensures NamesLive(LiveNow(gs), gs) && |LiveNow(gs)| == Count(IsLive, gs)
  {
    hide GrantAt, Count, IdsClimb, Filter;
    CountIsFilter(gs);
    var ids, live := LiveNow(gs), Filter(IsLive, gs);
    LiveClimb(gs);
    ListClimbs(live);
    forall k | 0 <= k < |ids| ensures GrantAt(gs, ids[k]) < |gs| && gs[GrantAt(gs, ids[k])].Live() {
      assert live[k] in live && ids[k] == IdOf(live[k]);
      FoundLive(gs, live[k]);
    }
    forall g | g in gs && g.Live() ensures g.id in ids {
      LiveIsFiltered(gs, g);
      var k :| 0 <= k < |live| && live[k] == g;
      assert ids[k] == IdOf(g);
    }
  }

  lemma {:induction false} ListClimbs(gs: seq<Grant>)
    requires IdsClimb(gs)
    ensures var ids := Mapped(IdOf, gs); forall j, k | 0 <= j < k < |ids| :: ids[j] < ids[k]
  {
    var ids := Mapped(IdOf, gs);
    forall j, k | 0 <= j < k < |ids| ensures ids[j] < ids[k] {
      assert ids[j] == IdOf(gs[j]) && ids[k] == IdOf(gs[k]);
    }
  }

  lemma {:induction false} FoundLive(gs: seq<Grant>, g: Grant)
    requires IdsClimb(gs) && g in gs && IsLive(g)
    ensures GrantAt(gs, g.id) < |gs| && gs[GrantAt(gs, g.id)].Live()
  {
    hide GrantAt;
    ClimbIsDistinct(gs);
    var j :| 0 <= j < |gs| && gs[j] == g;
    ScanMeaning(gs, j);
  }

  lemma {:induction false} LiveIsFiltered(gs: seq<Grant>, g: Grant)
    requires g in gs && IsLive(g)
    ensures g in Filter(IsLive, gs)
  {
    if gs[0] != g { LiveIsFiltered(gs[1..], g); }
  }

  lemma {:induction false} LiveClimb(gs: seq<Grant>)
    requires IdsClimb(gs)
    ensures IdsClimb(Filter(IsLive, gs))
  {
    hide IdsClimb;
    if gs != [] {
      TailClimbs(gs);
      LiveClimb(gs[1..]);
      if IsLive(gs[0]) { FrontClimbs(gs[0], Filter(IsLive, gs[1..]), gs[1..]); }
    }
  }

  lemma {:induction false} TailClimbs(gs: seq<Grant>)
    requires IdsClimb(gs) && gs != []
    ensures IdsClimb(gs[1..]) && forall g | g in gs[1..] :: gs[0].id < g.id
  {
  }

  lemma {:induction false} FrontClimbs(g: Grant, hs: seq<Grant>, gs: seq<Grant>)
    requires IdsClimb(hs) && (forall h | h in hs :: h in gs) && forall x | x in gs :: g.id < x.id
    ensures IdsClimb([g] + hs)
  {
    var all := [g] + hs;
    forall i, j | 0 <= i < j < |all| ensures all[i].id < all[j].id {
      assert all[j] == hs[j - 1] && hs[j - 1] in hs;
    }
  }

  // What create hands to its fencing loop, when it gets that far.
  ghost predicate Begins(rep: Durable, env: Env) {
    && rep.boot < U64_MAX && rep.term < U64_MAX
    && var c := Handed(rep, env);
       var end := FenceAll(c, LiveNow(c.state.grants), Clock(rep), env);
       && Succeeds(c.state, rep) && Behind(c.index, c.state.grants)
       && NamesLive(LiveNow(c.state.grants), c.state.grants)
       && |LiveNow(c.state.grants)| == Count(IsLive, rep.grants)
       && end.Ok? && Create(rep, env) == Ok(end.value.(index := IndexOf(end.value.state.grants)))
  }

  lemma {:induction false} Beginning(rep: Durable, env: Env)
    requires Recovered(rep) && Create(rep, env).Ok?
    ensures Begins(rep, env)
  {
    hide Recovered, Commit, Bootstraps, FenceAll, LiveNow, IndexOf, Observed, Behind, NamesLive, Count, Remains,
         IdsClimb;
    var r := BootAdvanced(rep.boot + 1, rep.term + 1, Clock(rep));
    var booted := Commit(rep, r, env);
    QuietSucceeds(rep, r, env);
    SucceedsRecovered(booted.state, rep);
    BootstrapsSucceed(booted.state, env);
    var ready := Bootstraps(booted.state, env);
    SucceedsOn(ready.state, booted.state, rep);
    SucceedsRecovered(ready.state, rep);
    RecoveredParts(rep);
    RecoveredParts(ready.state);
    IndexOfMeans(rep.grants);
    IndexIsBehind(IndexOf(rep.grants), rep.grants);
    StillBehind(IndexOf(rep.grants), ready.state.grants, rep.grants);
    LiveNowNames(ready.state.grants);
    RemainsCounted(ready.state.grants, rep.grants);
  }

  // Every grant found live stands, when its turn comes, where it stood in the recovered
  // store: nothing start-up dropped by then stood in front of it.
  ghost predicate AllInTurn(rep: Durable, env: Env) {
    && rep.boot < U64_MAX && rep.term < U64_MAX
    && var c := Handed(rep, env); InTurn(c, LiveNow(c.state.grants), Clock(rep), env)
  }

  // Start-up that succeeds ends every earlier grant exactly when each is found in its turn
  // and there are fence identities for all of them; the coordinator then starts good.
  lemma {:induction false} BootEndsExactly(rep: Durable, env: Env)
    requires Recovered(rep) && Create(rep, env).Ok?
    ensures var c := Create(rep, env).value;
      && Orderly(c) && Recovered(c.state) && c.state.grantHigh == rep.grantHigh
      && (AllEnded(c.state.grants) <==>
            AllInTurn(rep, env) && Count(IsLive, rep.grants) <= FencesLeft(Observed(1, rep.fenceHigh)))
      && (AllEnded(c.state.grants) ==> Good(c))
  {
    hide Recovered, Create, FenceAll, Count, LiveNow, Observed, Bootstraps, Commit, IndexOf, AllEnded, Behind,
         NamesLive, FencesLeft, InTurn, Good, Remains, Orderly;
    Beginning(rep, env);
    var c := Handed(rep, env);
    SucceedsRecovered(c.state, rep);
    FenceAllExact(c, LiveNow(c.state.grants), Clock(rep), env);
    var d := FenceAll(c, LiveNow(c.state.grants), Clock(rep), env).value;
    RecoveredParts(d.state);
    IndexOfMeans(d.state.grants);
    ObservedAbove(rep.grantHigh);
    StartsOrderly(d.(index := IndexOf(d.state.grants)));
    if AllEnded(d.state.grants) { StartsGood(d.(index := IndexOf(d.state.grants))); }
  }

  // The identities observed at start-up are all behind the allocator.
  lemma {:induction false} ObservedAbove(high: u64)
    ensures Above(Observed(1, high), high)
  {
  }

  lemma {:induction false} StartsOrderly(c: Coord)
    requires Recovered(c.state) && Indexes(c.index, c.state.grants) && Above(c.nextGrant, c.state.grantHigh)
    ensures Orderly(c)
  {
    hide Sound, IdsClimb;
    forall id | id in c.index ensures id <= c.state.grantHigh {
      assert c.state.grants[c.index[id]] in c.state.grants;
    }
  }

  lemma {:induction false} StartsGood(c: Coord)
    requires Orderly(c) && Indexes(c.index, c.state.grants) && AllEnded(c.state.grants)
    ensures Good(c)
  {
    hide Orderly, Indexes;
  }

  // --------------------------------------------------------------------------
  // What the condition comes to
  // --------------------------------------------------------------------------

  // Every live grant of hs stands where it stood in gs.
  ghost predicate LiveUnmoved(gs: seq<Grant>, hs: seq<Grant>) {
    forall q | 0 <= q < |hs| && hs[q].Live() :: q < |gs| && gs[q] == hs[q]
  }

  // The index has the listed identities where they are.
  ghost predicate Aimed(index: map<u64, nat>, ids: seq<u64>, gs: seq<Grant>) {
    forall k | 0 <= k < |ids| :: ids[k] in index && index[ids[k]] == GrantAt(gs, ids[k])
  }

  lemma {:induction false} SamePlace(gs: seq<Grant>, hs: seq<Grant>, id: u64)
    requires |gs| == |hs| && forall i | 0 <= i < |gs| :: gs[i].id == hs[i].id
    ensures GrantAt(gs, id) == GrantAt(hs, id)
  {
    hide GrantAt;
    assert GrantAt(gs, id) < |gs| ==> gs[GrantAt(gs, id)].id == id;
    assert GrantAt(hs, id) < |hs| ==> hs[GrantAt(hs, id)].id == id;
  }

  lemma {:induction false} NothingAimed(index: map<u64, nat>, gs: seq<Grant>)
    ensures Aimed(index, [], gs)
  {
  }

  lemma {:induction false} FirstNamed(ids: seq<u64>, gs: seq<Grant>)
    requires ids != [] && NamesLive(ids, gs)
    ensures GrantAt(gs, ids[0]) < |gs| && gs[GrantAt(gs, ids[0])].Live()
  {
    hide GrantAt;
  }

  lemma {:induction false} NotAimed(index: map<u64, nat>, ids: seq<u64>, gs: seq<Grant>)
    requires ids != [] && (ids[0] !in index || index[ids[0]] != GrantAt(gs, ids[0]))
    ensures !Aimed(index, ids, gs)
  {
    hide GrantAt;
  }

  // The rest of the list, over grants that stand where they stood.
  lemma {:induction false} AimedRest(index: map<u64, nat>, ids: seq<u64>, gs: seq<Grant>, hs: seq<Grant>)
    requires ids != [] && ids[0] in index && index[ids[0]] == GrantAt(gs, ids[0])
    requires |gs| == |hs| && forall i | 0 <= i < |gs| :: gs[i].id == hs[i].id
    ensures Aimed(index, ids, gs) <==> Aimed(index, ids[1..], hs)
  {
    hide GrantAt;
    forall k | 0 <= k < |ids[1..]| ensures GrantAt(hs, ids[1..][k]) == GrantAt(gs, ids[k + 1]) {
      SamePlace(hs, gs, ids[k + 1]);
    }
    assert forall k | 0 < k < |ids| :: ids[k] == ids[1..][k - 1];
  }

  // While the loop drops nothing, finding each grant in its turn is finding all of them
  // where they are now.
  lemma {:induction false} InTurnIsAimed(c: Coord, ids: seq<u64>, clock: u64, env: Env)
    requires Recovered(c.state) && NamesLive(ids, c.state.grants) && |ids| <= FencesLeft(c.nextFence)
    requires FenceAll(c, ids, clock, env).Ok? && Undropped(c.state, FenceAll(c, ids, clock, env).value.state)
    ensures InTurn(c, ids, clock, env) <==> Aimed(c.index, ids, c.state.grants)
    decreases |ids|
  {
    hide Recovered, Commit, GrantAt, IdsClimb, Aimed, NamesLive, Remains;
    if ids == [] {
      NothingAimed(c.index, c.state.grants);
    } else {
      FirstNamed(ids, c.state.grants);
      var q := GrantAt(c.state.grants, ids[0]);
      if ids[0] in c.index && c.index[ids[0]] == q {
        var g := c.state.grants[q];
        var h := Transitioned(g, Fenced, clock, 0, 0);
        var d := Fenced1(c, g, clock, env);
        FenceAt(c, q, clock, env);
        FenceAllKeeps(d, ids[1..], clock, env);
        RecoveredParts(c.state);
        RecoveredParts(d.state);
        NamesRest(ids, c.state.grants, d.state.grants, h);
        InTurnIsAimed(d, ids[1..], clock, env);
        var gs, hs := c.state.grants, d.state.grants;
        assert hs == gs[q := h] && h.id == g.id && gs[q] == g;
        assert forall i | 0 <= i < |gs| :: gs[i].id == hs[i].id;
        AimedRest(c.index, ids, gs, hs);
      } else {
        NotAimed(c.index, ids, c.state.grants);
      }
    }
  }

  // Aiming at the live grants is having moved none of them.
  lemma {:induction false} AimedIsUnmoved(index: map<u64, nat>, gs: seq<Grant>, hs: seq<Grant>, ids: seq<u64>)
    requires Indexes(index, gs) && IdsClimb(gs) && IdsClimb(hs) && Remains(hs, gs) && NamesLive(ids, hs)
    ensures Aimed(index, ids, hs) <==> LiveUnmoved(gs, hs)
  {
    hide GrantAt, Filter;
    ClimbIsDistinct(hs);
    if Aimed(index, ids, hs) {
      forall q | 0 <= q < |hs| && hs[q].Live() ensures q < |gs| && gs[q] == hs[q] {
        assert hs[q] in hs && hs[q].id in ids;
        var k :| 0 <= k < |ids| && ids[k] == hs[q].id;
        ScanMeaning(hs, q);
        assert hs[q] in gs;
        var j :| 0 <= j < |gs| && gs[j] == hs[q];
        assert index[gs[j].id] == j;
      }
    }
    if LiveUnmoved(gs, hs) {
      forall k | 0 <= k < |ids| ensures ids[k] in index && index[ids[k]] == GrantAt(hs, ids[k]) {
        var q := GrantAt(hs, ids[k]);
        assert gs[q] == hs[q] && gs[q].id == ids[k];
      }
    }
  }

  // If no fence record drops a grant: nothing stays live exactly when the boot and
  // generation records moved no live grant and the fences suffice.
  lemma {:induction false} BootWithoutDrops(rep: Durable, env: Env)
    requires Recovered(rep) && Create(rep, env).Ok? && rep.boot < U64_MAX && rep.term < U64_MAX
    requires Undropped(Handed(rep, env).state, Create(rep, env).value.state)
    ensures AllEnded(Create(rep, env).value.state.grants) <==>
      LiveUnmoved(rep.grants, Handed(rep, env).state.grants)
        && Count(IsLive, rep.grants) <= FencesLeft(Observed(1, rep.fenceHigh))
  {
    hide Recovered, Create, FenceAll, Count, LiveNow, Observed, Bootstraps, Commit, IndexOf, AllEnded, Behind,
         NamesLive, FencesLeft, InTurn, LiveUnmoved, Remains, Aimed, IdsClimb, Indexes;
    Beginning(rep, env);
    BootEndsExactly(rep, env);
    var c := Handed(rep, env);
    var ids := LiveNow(c.state.grants);
    SucceedsRecovered(c.state, rep);
    RecoveredParts(rep);
    RecoveredParts(c.state);
    IndexOfMeans(rep.grants);
    AimedIsUnmoved(c.index, rep.grants, c.state.grants, ids);
    if |ids| <= FencesLeft(c.nextFence) { InTurnIsAimed(c, ids, Clock(rep), env); }
  }

  // If start-up drops nothing at all, the fences alone decide.
  lemma {:induction false} BootEndsEarlierGrants(rep: Durable, env: Env)
    requires Recovered(rep) && Create(rep, env).Ok? && Undropped(rep, Create(rep, env).value.state)
    ensures AllEnded(Create(rep, env).value.state.grants) <==>
      Count(IsLive, rep.grants) <= FencesLeft(Observed(1, rep.fenceHigh))
  {
    hide Recovered, Create, FenceAll, Count, LiveNow, Observed, Bootstraps, Commit, IndexOf, AllEnded, Behind,
         NamesLive, FencesLeft, Remains;
    Beginning(rep, env);
    var c := Handed(rep, env);
    SucceedsRecovered(c.state, rep);
    FenceAllKeeps(c, LiveNow(c.state.grants), Clock(rep), env);
    assert LiveUnmoved(rep.grants, c.state.grants);
    BootWithoutDrops(rep, env);
  }

  // --------------------------------------------------------------------------
  // Room that can be checked before the loop
  // --------------------------------------------------------------------------

  // The store will not prune within the next n fence records.
  predicate RoomToFence(s: Durable, n: nat, env: Env) {
    && |s.grants| <= env.cfg.maxGrants * 2 && |s.fences| + n <= env.cfg.maxFences * 2
    && |s.decisions| <= env.cfg.maxDecisions * 2
    && forall k | s.journalRecords <= k < s.journalRecords + n :: !env.full(k)
  }

  lemma {:induction false} FenceFits(s: Durable, k: EndKind, f: Fence, cfg: Config)
    ensures var e := Apply(s, GrantEnded(k, f), cfg);
      e.status.None? ==>
        (&& |e.state.grants| == |s.grants| && |e.state.fences| == |s.fences| + 1 && e.state.decisions == s.decisions
         && e.state.journalRecords == s.journalRecords)
  {
    hide GrantAt;
  }

  lemma {:induction false} RoomForOne(c: Coord, g: Grant, n: nat, clock: u64, env: Env)
    requires Recovered(c.state) && c.nextFence != 0 && n > 0 && RoomToFence(c.state, n, env)
    requires Commit(c.state, BootFence(c, g, clock), env).status.None?
    ensures var d := Fenced1(c, g, clock, env); Undropped(c.state, d.state) && RoomToFence(d.state, n - 1, env)
  {
    hide Apply, Sound, IdsClimb, IdsBelow, Prune;
    var r := BootFence(c, g, clock);
    FenceFits(Numbered(c.state), ByFence, r.fence, env.cfg);
    ApplyPrunesNothing(Numbered(c.state), r, env.cfg);
    assert !env.full(c.state.journalRecords);
  }

  // With room for all its fence records the loop drops nothing.
  lemma {:induction false} RoomDropsNothing(c: Coord, ids: seq<u64>, clock: u64, env: Env)
    requires Recovered(c.state) && RoomToFence(c.state, |ids|, env) && FenceAll(c, ids, clock, env).Ok?
    ensures Undropped(c.state, FenceAll(c, ids, clock, env).value.state)
    decreases |ids|
  {
    hide Recovered, Commit, RoomToFence;
    if ids != [] {
      var found := Lookup(c.index, c.state.grants, ids[0]);
      if found.None? {
        RoomShrinks(c.state, |ids|, env);
        RoomDropsNothing(c, ids[1..], clock, env);
      } else if c.nextFence != 0 {
        FenceAt(c, c.index[ids[0]], clock, env);
        RoomForOne(c, found.value, |ids|, clock, env);
        RoomDropsNothing(Fenced1(c, found.value, clock, env), ids[1..], clock, env);
      }
    }
  }

  lemma {:induction false} RoomShrinks(s: Durable, n: nat, env: Env)
    requires n > 0 && RoomToFence(s, n, env)
    ensures RoomToFence(s, n - 1, env)
  {
  }

  // So when the store handed to the loop has that room, which it shows beforehand: nothing
  // stays live exactly when no live grant was moved and the fences suffice.
  lemma {:induction false} BootWithRoom(rep: Durable, env: Env)
    requires Recovered(rep) && Create(rep, env).Ok? && rep.boot < U64_MAX && rep.term < U64_MAX
    requires RoomToFence(Handed(rep, env).state, Count(IsLive, rep.grants), env)
      || |Handed(rep, env).state.grants| <= env.cfg.maxGrants
    ensures AllEnded(Create(rep, env).value.state.grants) <==>
      LiveUnmoved(rep.grants, Handed(rep, env).state.grants)
        && Count(IsLive, rep.grants) <= FencesLeft(Observed(1, rep.fenceHigh))
  {
    hide Recovered, Create, FenceAll, Count, LiveNow, Observed, Bootstraps, Commit, IndexOf, AllEnded, Behind,
         NamesLive, FencesLeft, LiveUnmoved, Remains, RoomToFence;
    Beginning(rep, env);
    var c := Handed(rep, env);
    var ids := LiveNow(c.state.grants);
    SucceedsRecovered(c.state, rep);
    if |c.state.grants| <= env.cfg.maxGrants {
      SmallDropsNothing(c, ids, Clock(rep), env);
    } else {
      RoomDropsNothing(c, ids, Clock(rep), env);
    }
    BootWithoutDrops(rep, env);
  }

  // So does a store within its retention bound.
  lemma {:induction false} SmallDropsNothing(c: Coord, ids: seq<u64>, clock: u64, env: Env)
    requires Recovered(c.state) && |c.state.grants| <= env.cfg.maxGrants && FenceAll(c, ids, clock, env).Ok?
    ensures Undropped(c.state, FenceAll(c, ids, clock, env).value.state)
    decreases |ids|
  {
    hide Recovered, Commit;
    if ids != [] {
      var found := Lookup(c.index, c.state.grants, ids[0]);
      if found.None? {
        SmallDropsNothing(c, ids[1..], clock, env);
      } else if c.nextFence != 0 {
        SmallFence(c, found.value, clock, env);
        FenceAt(c, c.index[ids[0]], clock, env);
        SmallDropsNothing(Fenced1(c, found.value, clock, env), ids[1..], clock, env);
      }
    }
  }

  lemma {:induction false} SmallFence(c: Coord, g: Grant, clock: u64, env: Env)
    requires Recovered(c.state) && c.nextFence != 0 && |c.state.grants| <= env.cfg.maxGrants
    requires Commit(c.state, BootFence(c, g, clock), env).status.None?
    ensures Undropped(c.state, Fenced1(c, g, clock, env).state)
  {
    hide Sound, IdsClimb, IdsBelow, Apply, Commit;
    var r := BootFence(c, g, clock);
    FenceFits(Numbered(c.state), ByFence, r.fence, env.cfg);
    CommitCases(c.state, r, env);
    DropGuard(c.state, r, env);
    var a := Apply(Numbered(c.state), r, env.cfg);
    if a.status.None? { NothingDropped(a.state.grants, env.cfg); }
  }

  // --------------------------------------------------------------------------
  // What a drop does to the grants behind it
  // --------------------------------------------------------------------------

  // A live grant that no longer stands where the index has it.
  ghost predicate Displaced(c: Coord, id: u64) {
    var i := GrantAt(c.state.grants, id);
    i < |c.state.grants| && c.state.grants[i].Live() && (id !in c.index || i < c.index[id])
  }

  // Grants only ever move forward: one displaced stays displaced until its turn.
  lemma {:induction false} StaysDisplaced(c: Coord, d: Coord, id: u64, i: nat, h: Grant)
    requires Displaced(c, id) && IdsClimb(c.state.grants) && IdsClimb(d.state.grants) && d.index == c.index
    requires i < |c.state.grants| && h.id == c.state.grants[i].id != id
    requires Remains(d.state.grants, c.state.grants[i := h])
    ensures Displaced(d, id)
  {
    hide GrantAt, Filter;
    var q := GrantAt(c.state.grants, id);
    var ended := c.state.grants[i := h];
    assert ended[q] == c.state.grants[q] && IsLive(ended[q]) && ended[q] in ended;
    var k :| 0 <= k < |d.state.grants| && d.state.grants[k] == ended[q];
    ClimbUpdate(c.state.grants, i, h);
    ClimbIsDistinct(d.state.grants);
    ScanMeaning(d.state.grants, k);
    var j := StoodLater(d.state.grants, ended, k);
    ClimbIsDistinct(ended);
    OnePlace(ended, j, q);
  }

  // A displaced grant on the list is not found in its turn, so something stays live.
  lemma {:induction false} DisplacedBreaksTurn(c: Coord, ids: seq<u64>, clock: u64, env: Env, k: nat)
    requires Recovered(c.state) && NamesLive(ids, c.state.grants) && |ids| <= FencesLeft(c.nextFence)
    requires FenceAll(c, ids, clock, env).Ok? && k < |ids| && Displaced(c, ids[k])
    ensures !InTurn(c, ids, clock, env)
    decreases |ids|
  {
    hide Recovered, Commit, GrantAt, IdsClimb, Remains;
    var q := GrantAt(c.state.grants, ids[0]);
    if k > 0 && ids[0] in c.index && c.index[ids[0]] == q {
      var g := c.state.grants[q];
      var h := Transitioned(g, Fenced, clock, 0, 0);
      var d := Fenced1(c, g, clock, env);
      FenceAt(c, q, clock, env);
      RecoveredParts(c.state);
      RecoveredParts(d.state);
      NamesRest(ids, c.state.grants, d.state.grants, h);
      StaysDisplaced(c, d, ids[k], q, h);
      assert ids[1..][k - 1] == ids[k];
      DisplacedBreaksTurn(d, ids[1..], clock, env, k - 1);
    }
  }

  // A fence record that drops a grant standing in front of one still to be fenced
  // displaces that one.
  lemma {:induction false} DropDisplaces(c: Coord, q: nat, clock: u64, env: Env, p: nat, m: nat)
    requires Recovered(c.state) && c.nextFence != 0 && q < |c.state.grants| && m < |c.state.grants| && m != q
    requires Commit(c.state, BootFence(c, c.state.grants[q], clock), env).status.None?
    requires var d := Fenced1(c, c.state.grants[q], clock, env);
      p < m && (forall x | x in d.state.grants :: x.id != c.state.grants[p].id)
    requires var g := c.state.grants[m]; g.Live() && g.id in c.index && c.index[g.id] == m
    ensures Displaced(Fenced1(c, c.state.grants[q], clock, env), c.state.grants[m].id)
  {
    hide Sound, Commit, GrantAt, IdsBelow, Filter;
    FenceAt(c, q, clock, env);
    var gs, d := c.state.grants, Fenced1(c, c.state.grants[q], clock, env);
    var hs, h := d.state.grants, Transitioned(gs[q], Fenced, clock, 0, 0);
    var ended := gs[q := h];
    ClimbUpdate(gs, q, h);
    assert ended[m] == gs[m] && IsLive(ended[m]) && ended[m] in ended;
    var k :| 0 <= k < |hs| && hs[k] == gs[m];
    ClimbIsDistinct(hs);
    ScanMeaning(hs, k);
    StandsInFront(hs, ended, k, m, p);
  }

  // With one of its predecessors gone, a grant stands strictly further to the front.
  lemma {:induction false} StandsInFront(hs: seq<Grant>, gs: seq<Grant>, k: nat, m: nat, p: nat)
    requires IdsClimb(hs) && IdsClimb(gs) && (forall h | h in hs :: h in gs)
    requires k < |hs| && p < m < |gs| && hs[k] == gs[m] && forall x | x in hs :: x.id != gs[p].id
    ensures k < m
  {
    var j := StoodLater(hs, gs, k);
    assert j == m;
    if k == m { FirstAgree(hs, gs, k, p); }
  }

  // A prefix of the same length is the same prefix.
  lemma {:induction false} FirstAgree(hs: seq<Grant>, gs: seq<Grant>, k: nat, p: nat)
    requires IdsClimb(hs) && IdsClimb(gs) && (forall h | h in hs :: h in gs)
    requires p <= k < |hs| && k < |gs| && hs[k] == gs[k]
    ensures hs[p] == gs[p]
    decreases k - p
  {
    if p < k {
      FirstAgree(hs, gs, k, p + 1);
      var j := StoodLater(hs, gs, p);
      assert hs[p].id < hs[p + 1].id;
    }
  }
}
