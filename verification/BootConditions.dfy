// When start-up leaves no earlier grant live, in terms of the recovered store alone
// (Coordinator::create in src/runtime/coordinator.cpp).
//
// The boot record and the generation records change no list, so what they can do to the
// grants is prune them once. The index is older than that pruning.
module BootConditions {
  import opened Core
  import opened Grants
  import opened Store
  import opened Closure
  import opened GrantTables
  import opened Coordinators
  import opened BootFencing
  import opened Sorting
  import opened Sums

  // --------------------------------------------------------------------------
  // Pruning and what it leaves
  // --------------------------------------------------------------------------

  lemma {:induction false} PruneGrantsCurrent(s: Durable, cfg: Config)
    ensures var t := PruneGrants(s, cfg).state;
      CurrentVector(t) == CurrentVector(s) && t.journalRecords == s.journalRecords
  {
    hide KeptGrants, Dropped;
  }

  lemma {:induction false} PruneFencesCurrent(s: Durable, cfg: Config)
    ensures var t := PruneFences(s, cfg).state;
      CurrentVector(t) == CurrentVector(s) && t.journalRecords == s.journalRecords
  {
    hide FencesByAge, SortBy;
  }

  lemma {:induction false} PruneHistoryCurrent(s: Durable, cfg: Config)
    ensures var t := PruneHistory(s, cfg);
      CurrentVector(t) == CurrentVector(s) && t.journalRecords == s.journalRecords
  {
    hide SortBy;
  }

  // Retention leaves the authority in force and the numbering.
  lemma {:induction false} PruneCurrent(s: Durable, cfg: Config)
    ensures var t := Prune(s, cfg).state;
      CurrentVector(t) == CurrentVector(s) && t.journalRecords == s.journalRecords
  {
    hide PruneGrants, PruneFences, PruneHistory, CurrentVector;
    PruneGrantsCurrent(s, cfg);
    PruneFencesCurrent(PruneGrants(s, cfg).state, cfg);
    PruneHistoryCurrent(PruneFences(PruneGrants(s, cfg).state, cfg).state, cfg);
  }

  lemma {:induction false} CommitCurrent(s: Durable, r: Record, env: Env)
    requires Commit(s, r, env).status.None?
    ensures var t, a := Commit(s, r, env).state, Apply(Numbered(s), r, env.cfg).state;
      CurrentVector(t) == CurrentVector(a) && t.journalRecords == a.journalRecords
  {
    hide Apply, Prune, Overfull, CurrentVector;
    PruneCurrent(Apply(Numbered(s), r, env.cfg).state, env.cfg);
  }

  lemma {:induction false} KeptSize(gs: seq<Grant>, cfg: Config)
    requires IdsClimb(gs)
    ensures var live, kept := Count(IsLive, gs), KeptGrants(gs, cfg);
      && Count(IsLive, kept) == live && Dropped(kept, cfg) == 0
      && (live <= cfg.maxGrants ==> |kept| <= cfg.maxGrants)
  {
    hide KeptGrants, SortBy, Filter, Count, Remains;
    var kept := KeptGrants(gs, cfg);
    KeptRemains(gs, cfg);
    RemainsCounted(kept, gs);
    var gone := RetentionSplits(gs, cfg);
    SameElements(gs, kept + gone);
    Halves(gs);
    Halves(kept);
  }

  lemma {:induction false} Halves(gs: seq<Grant>)
    ensures |gs| == Count(IsLive, gs) + |EndedByAge(gs)|
  {
    hide SortBy, Filter, Count;
    LiveAndEnded(gs);
    SameElements(gs, Filter(IsLive, gs) + Filter(IsEnded, gs));
    CountIsFilter(gs);
  }

  // Pruning twice is pruning once.
  lemma {:induction false} KeptAgain(gs: seq<Grant>, cfg: Config)
    requires IdsClimb(gs)
    ensures KeptGrants(KeptGrants(gs, cfg), cfg) == KeptGrants(gs, cfg)
  {
    hide KeptGrants, Dropped, IdsClimb, Count, Remains;
    KeptSize(gs, cfg);
    KeptRemains(gs, cfg);
    GrantsStay(KeptGrants(gs, cfg), cfg);
  }

  // --------------------------------------------------------------------------
  // The records written before the fences
  // --------------------------------------------------------------------------

  function Missing(s: Durable): nat {
    One(s.fabricGeneration == 0) + One(s.capacityGeneration == 0) + One(s.evidenceGeneration == 0)
  }

  // One of the first n start-up records prunes the store.
  predicate PrunesWithin(rep: Durable, n: nat, env: Env) {
    n > 0 && (Overfull(rep, env.cfg) || exists k | rep.journalRecords <= k < rep.journalRecords + n :: env.full(k))
  }

  // What n start-up records have made of the recovered store.
  ghost predicate After(rep: Durable, n: nat, s: Durable, env: Env) {
    && Recovered(s) && s.journalRecords == rep.journalRecords + n
    && (if PrunesWithin(rep, n, env) then s.grants == KeptGrants(rep.grants, env.cfg)
        else s.grants == rep.grants && |s.fences| == |rep.fences| && |s.decisions| == |rep.decisions|)
  }

  lemma {:induction false} QuietLists(s: Durable, r: Record, cfg: Config)
    requires Quiet(r)
    ensures var t := Apply(s, r, cfg).state;
      && t.grants == s.grants && t.fences == s.fences && t.decisions == s.decisions
      && t.journalRecords == s.journalRecords && t.journalSequence == s.journalSequence
      && (r.BootAdvanced? ==> t.fabricGeneration == s.fabricGeneration && t.capacityGeneration == s.capacityGeneration
                              && t.evidenceGeneration == s.evidenceGeneration)
  {
  }

  // One more start-up record.
  lemma {:induction false} AfterOne(rep: Durable, n: nat, s: Durable, r: Record, env: Env)
    requires Recovered(rep) && After(rep, n, s, env) && Quiet(r) && Commit(s, r, env).status.None?
    requires n == 0 ==> s == rep
    ensures After(rep, n + 1, Commit(s, r, env).state, env)
  {
    hide Recovered, Commit, Apply, KeptGrants, Dropped, Succeeds;
    var t := Commit(s, r, env).state;
    RecoveredParts(rep);
    RecoveredParts(s);
    QuietLists(Numbered(s), r, env.cfg);
    QuietSucceeds(s, r, env);
    SucceedsRecovered(t, s);
    CommitCases(s, r, env);
    CommitCurrent(s, r, env);
    KeptAgain(rep.grants, env.cfg);
    WithinNext(rep, n, env);
  }

  lemma {:induction false} WithinNext(rep: Durable, n: nat, env: Env)
    ensures PrunesWithin(rep, n + 1, env) <==>
      Overfull(rep, env.cfg) || PrunesWithin(rep, n, env) || env.full(rep.journalRecords + n)
  {
    hide Overfull;
  }

  lemma {:induction false} AfterBootstrap(rep: Durable, n: nat, s: Durable, missing: bool, r: Record, env: Env)
    requires Recovered(rep) && After(rep, n, s, env) && Quiet(r) && n > 0
    requires Bootstrap(s, missing, r, env).status.None?
    ensures After(rep, n + One(missing), Bootstrap(s, missing, r, env).state, env)
  {
    hide Recovered, Commit, After;
    if missing { AfterOne(rep, n, s, r, env); }
  }

  lemma {:induction false} AfterBootstraps(rep: Durable, s: Durable, env: Env)
    requires Recovered(rep) && After(rep, 1, s, env) && Bootstraps(s, env).status.None?
    ensures After(rep, 1 + Missing(s), Bootstraps(s, env).state, env)
  {
    hide Recovered, After, Bootstrap;
    AfterBootstrap(rep, 1, s, s.fabricGeneration == 0, FabricAdvanced(1), env);
    var a := Bootstrap(s, s.fabricGeneration == 0, FabricAdvanced(1), env).state;
    var n := 1 + One(s.fabricGeneration == 0);
    AfterBootstrap(rep, n, a, s.capacityGeneration == 0, CapacityAdvanced(1), env);
    var b := Bootstrap(a, s.capacityGeneration == 0, CapacityAdvanced(1), env).state;
    AfterBootstrap(rep, n + One(s.capacityGeneration == 0), b, s.evidenceGeneration == 0, EvidenceAdvanced(1), env);
  }

  // The boot record sets no generation.
  lemma {:induction false} BootKeepsMissing(rep: Durable, r: Record, env: Env)
    requires r.BootAdvanced? && Commit(rep, r, env).status.None?
    ensures Missing(Commit(rep, r, env).state) == Missing(rep)
  {
    hide Commit, Apply;
    CommitCurrent(rep, r, env);
    QuietLists(Numbered(rep), r, env.cfg);
  }

  // Whether start-up prunes before it fences, read off the recovered store.
  predicate BootPrunes(rep: Durable, env: Env) {
    PrunesWithin(rep, 1 + Missing(rep), env)
  }

  // What the fencing loop is handed.
  lemma {:induction false} HandedAfter(rep: Durable, env: Env)
    requires Recovered(rep) && Create(rep, env).Ok?
    ensures rep.boot < U64_MAX && rep.term < U64_MAX && After(rep, 1 + Missing(rep), Handed(rep, env).state, env)
  {
    hide Recovered, Commit, Bootstraps, FenceAll, Missing, After, IndexOf, LiveNow;
    var r := BootAdvanced(rep.boot + 1, rep.term + 1, Clock(rep));
    NothingAfter(rep, env);
    AfterOne(rep, 0, rep, r, env);
    BootKeepsMissing(rep, r, env);
    AfterBootstraps(rep, Commit(rep, r, env).state, env);
  }

  lemma {:induction false} NothingAfter(rep: Durable, env: Env)
    requires Recovered(rep)
    ensures After(rep, 0, rep, env)
  {
    hide Recovered;
  }

  // --------------------------------------------------------------------------
  // Grants behind one that goes
  // --------------------------------------------------------------------------

  // Some live grant stands behind one that pruning drops.
  ghost predicate LiveBehindDrop(gs: seq<Grant>, cfg: Config) {
    exists p: nat, m: nat | p < m < |gs| :: gs[m].Live() && gs[p] !in KeptGrants(gs, cfg)
  }

  // If every grant up to position j stayed, the one at j stands no further to the front.
  lemma {:induction false} StandsBehind(hs: seq<Grant>, gs: seq<Grant>, j: nat) returns (k: nat)
    requires IdsClimb(hs) && IdsClimb(gs) && j < |gs| && forall p: nat | p <= j :: gs[p] in hs
    ensures j <= k < |hs| && hs[k] == gs[j]
  {
    assert gs[j] in hs;
    k :| 0 <= k < |hs| && hs[k] == gs[j];
    if j > 0 {
      var i := StandsBehind(hs, gs, j - 1);
      assert gs[j - 1].id < gs[j].id;
    }
  }

  // Pruning leaves the live grants in their places exactly when none is behind a drop.
  lemma {:induction false} UnmovedIff(gs: seq<Grant>, cfg: Config)
    requires IdsClimb(gs)
    ensures LiveUnmoved(gs, KeptGrants(gs, cfg)) <==> !LiveBehindDrop(gs, cfg)
  {
    hide KeptGrants, Filter;
    var hs := KeptGrants(gs, cfg);
    KeptRemains(gs, cfg);
    if LiveUnmoved(gs, hs) {
      forall p: nat, m: nat | p < m < |gs| && gs[m].Live() ensures gs[p] in hs { UnmovedKeeps(gs, hs, p, m); }
    }
    if !LiveBehindDrop(gs, cfg) {
      forall q | 0 <= q < |hs| && hs[q].Live() ensures q < |gs| && gs[q] == hs[q] { KeepsUnmoved(gs, cfg, q); }
    }
  }

  lemma {:induction false} UnmovedKeeps(gs: seq<Grant>, hs: seq<Grant>, p: nat, m: nat)
    requires IdsClimb(gs) && IdsClimb(hs) && Remains(hs, gs) && LiveUnmoved(gs, hs)
    requires p < m < |gs| && gs[m].Live()
    ensures gs[p] in hs
  {
    hide Filter;
    assert gs[m] in gs && IsLive(gs[m]) && gs[m] in hs;
    var k :| 0 <= k < |hs| && hs[k] == gs[m];
    assert k < |gs| && gs[k] == gs[m];
    ClimbIsDistinct(gs);
    OnePlace(gs, k, m);
    FirstAgree(hs, gs, m, p);
  }

  lemma {:induction false} KeepsUnmoved(gs: seq<Grant>, cfg: Config, q: nat)
    requires IdsClimb(gs) && IdsClimb(KeptGrants(gs, cfg)) && Remains(KeptGrants(gs, cfg), gs)
    requires !LiveBehindDrop(gs, cfg) && q < |KeptGrants(gs, cfg)| && KeptGrants(gs, cfg)[q].Live()
    ensures q < |gs| && gs[q] == KeptGrants(gs, cfg)[q]
  {
    hide KeptGrants, Filter;
    var hs := KeptGrants(gs, cfg);
    var j := StoodLater(hs, gs, q);
    assert gs[j] in gs && IsLive(gs[j]);
    var k := StandsBehind(hs, gs, j);
    ClimbIsDistinct(hs);
    OnePlace(hs, k, q);
  }

  // --------------------------------------------------------------------------
  // Start-up, from the recovered store
  // --------------------------------------------------------------------------

  // The fence records drop no grant: there are no more grants than are retained when the
  // loop starts, or nothing prunes until it is done.
  predicate FencesDropNothing(rep: Durable, env: Env) {
    var live, first := Count(IsLive, rep.grants), rep.journalRecords + 1 + Missing(rep);
    || |rep.grants| <= env.cfg.maxGrants
    || (BootPrunes(rep, env) && live <= env.cfg.maxGrants)
    || (&& !BootPrunes(rep, env) && |rep.fences| + live <= env.cfg.maxFences * 2
        && forall k | first <= k < first + live :: !env.full(k))
  }

  lemma {:induction false} HandedHasRoom(rep: Durable, env: Env)
    requires Recovered(rep) && Create(rep, env).Ok? && FencesDropNothing(rep, env)
    ensures rep.boot < U64_MAX && rep.term < U64_MAX
    ensures RoomToFence(Handed(rep, env).state, Count(IsLive, rep.grants), env)
      || |Handed(rep, env).state.grants| <= env.cfg.maxGrants
  {
    hide Recovered, Create, Handed, KeptGrants, Dropped, Count, Missing, Remains;
    RecoveredParts(rep);
    HandedAfter(rep, env);
    KeptSize(rep.grants, env.cfg);
    KeptRemains(rep.grants, env.cfg);
    KeptIsFewer(rep.grants, env.cfg);
  }

  lemma {:induction false} KeptIsFewer(gs: seq<Grant>, cfg: Config)
    ensures |KeptGrants(gs, cfg)| <= |gs|
  {
    hide KeptGrants, Dropped;
    var gone := RetentionSplits(gs, cfg);
    SameElements(gs, KeptGrants(gs, cfg) + gone);
  }

  // Start-up then leaves no earlier grant live exactly when there is a fence identity for
  // every live grant and no live grant stands behind one that a pruning boot drops.
  lemma {:induction false} BootEndsAllIff(rep: Durable, env: Env)
    requires Recovered(rep) && Create(rep, env).Ok? && FencesDropNothing(rep, env)
    ensures AllEnded(Create(rep, env).value.state.grants) <==>
      && !(BootPrunes(rep, env) && LiveBehindDrop(rep.grants, env.cfg))
      && Count(IsLive, rep.grants) <= FencesLeft(Observed(1, rep.fenceHigh))
  {
    hide Recovered, Create, Handed, KeptGrants, Count, Missing, LiveUnmoved, LiveBehindDrop, AllEnded, FencesLeft,
         RoomToFence, Observed, PrunesWithin, FencesDropNothing;
    RecoveredParts(rep);
    HandedHasRoom(rep, env);
    HandedAfter(rep, env);
    BootWithRoom(rep, env);
    if BootPrunes(rep, env) { UnmovedIff(rep.grants, env.cfg); } else { AllUnmoved(rep.grants); }
  }

  lemma {:induction false} AllUnmoved(gs: seq<Grant>)
    ensures LiveUnmoved(gs, gs)
  {
  }
}
