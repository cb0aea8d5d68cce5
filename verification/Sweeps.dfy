// The sweep over live grants (sweep_locked in src/runtime/coordinator.cpp), and exactly
// when everything it carries over is to be carried over.
//
// The sweep looks a grant up by index and judges what it finds, but its records name the
// identity. Under a stale index one grant can be carried over on the strength of another.
module Sweeps {
  import opened Core
  import opened Guarantees
  import opened Grants
  import opened Store
  import opened Closure
  import opened GrantTables
  import opened Coordinators
  import opened SweepSafety
  import opened Sorting
  import opened Sums
  import opened Subsets

  // What evaluating a contract yields while the sweep runs: what the current plan
  // approves, when it authorises service, and the decision to be recorded, if the
  // evaluation gets that far. The journal position tells evaluations apart.
  datatype Evaluations = Evaluations(approved: u64 -> Option<GuaranteeSet>, decide: (u64, nat) -> Option<Decision>)

  // The authority a sweep measures grants against, when it runs, and what it evaluates.
  datatype Round = Round(current: AuthorityVector, now: u64, eval: Evaluations)

  function Rebound(g: Grant, current: AuthorityVector): Grant {
    g.(binding := g.binding.(vector := current))
  }

  // A grant whose capability alone moved: record the decision, then carry the grant over
  // or fence it.
  ghost function ReevaluateOne(c: Coord, id: u64, g: Grant, w: Round, env: Env): Coord {
    match w.eval.decide(g.binding.contract, c.state.journalRecords)
    case None => FenceGrant(c, id, ByFence, w.now, env).0
    case Some(decision) =>
      var decided := CommitNeutral(c, DecisionRecorded(decision), env);
      if Commit(c.state, DecisionRecorded(decision), env).status.Some?
        || !StillCovers(w.eval.approved(g.binding.contract), g) then
        FenceGrant(decided, id, ByFence, w.now, env).0
      else
        var r := GrantRebound(id, Rebound(g, w.current).binding);
        var moved := CommitNeutral(decided, r, env);
        if Commit(decided.state, r, env).status.Some? then FenceGrant(moved, id, ByFence, w.now, env).0 else moved
  }

  // One pass of the loop.
  ghost function SweepOne(c: Coord, id: u64, w: Round, env: Env): Coord {
    match Lookup(c.index, c.state.grants, id)
    case None => c
    case Some(g) =>
      if !g.Live() then c
      else
        match Standing(g, w.current, w.now)
        case Untouched => c
        case Expire => FenceGrant(c, id, ByExpiry, w.now, env).0
        case FenceOff => FenceGrant(c, id, ByFence, w.now, env).0
        case Reevaluate => ReevaluateOne(c, id, g, w, env)
  }

  ghost function SweepAll(c: Coord, ids: seq<u64>, w: Round, env: Env): Coord
    decreases |ids|
  {
    if ids == [] then c else SweepAll(SweepOne(c, ids[0], w, env), ids[1..], w, env)
  }

  // --------------------------------------------------------------------------
  // The live grant of an identity
  // --------------------------------------------------------------------------

  function LiveAt(gs: seq<Grant>, id: u64): Option<Grant> {
    var i := GrantAt(gs, id);
    if i < |gs| && gs[i].Live() then Some(gs[i]) else None
  }

  // Only the live grant of one identity may differ.
  ghost predicate SameBut(gs: seq<Grant>, hs: seq<Grant>, id: u64) {
    forall j: u64 | j != id :: LiveAt(hs, j) == LiveAt(gs, j)
  }

  ghost predicate SameLive(gs: seq<Grant>, hs: seq<Grant>) {
    forall j: u64 :: LiveAt(hs, j) == LiveAt(gs, j)
  }

  lemma {:induction false} LiveStands(gs: seq<Grant>, i: nat)
    requires IdsClimb(gs) && i < |gs| && gs[i].Live()
    ensures LiveAt(gs, gs[i].id) == Some(gs[i])
  {
    hide GrantAt, IdsClimb;
    ClimbIsDistinct(gs);
    ScanMeaning(gs, i);
  }

  lemma {:induction false} LiveIsMember(gs: seq<Grant>, id: u64)
    ensures LiveAt(gs, id).Some? ==> LiveAt(gs, id).value in gs && LiveAt(gs, id).value.id == id
  {
    hide GrantAt;
  }

  // Taking out ended grants changes no live one.
  lemma {:induction false} RemainsLive(gs: seq<Grant>, hs: seq<Grant>)
    requires Remains(hs, gs) && IdsClimb(gs) && IdsClimb(hs)
    ensures SameLive(gs, hs)
  {
    hide GrantAt, IdsClimb, Filter, LiveAt;
    forall j: u64 ensures LiveAt(hs, j) == LiveAt(gs, j) {
      LiveIsMember(gs, j);
      LiveIsMember(hs, j);
      if LiveAt(gs, j).Some? {
        var g := LiveAt(gs, j).value;
        LiveAtIsLive(gs, j);
        var k :| 0 <= k < |hs| && hs[k] == g;
        LiveStands(hs, k);
      } else if LiveAt(hs, j).Some? {
        var h := LiveAt(hs, j).value;
        LiveAtIsLive(hs, j);
        var k :| 0 <= k < |gs| && gs[k] == h;
        LiveStands(gs, k);
      }
    }
  }

  lemma {:induction false} LiveAtIsLive(gs: seq<Grant>, id: u64)
    ensures LiveAt(gs, id).Some? ==> IsLive(LiveAt(gs, id).value)
  {
    hide GrantAt;
  }

  // Replacing the grant of one identity.
  lemma {:induction false} ReplacedLive(gs: seq<Grant>, id: u64, h: Grant)
    requires IdsClimb(gs) && GrantAt(gs, id) < |gs| && h.id == id
    ensures var hs := gs[GrantAt(gs, id) := h];
      SameBut(gs, hs, id) && LiveAt(hs, id) == if h.Live() then Some(h) else None
  {
    hide GrantAt, IdsClimb;
    var i := GrantAt(gs, id);
    var hs := gs[i := h];
    ClimbUpdate(gs, i, h);
    ClimbIsDistinct(gs);
    ClimbIsDistinct(hs);
    ScanMeaning(hs, i);
    forall j: u64 | j != id ensures LiveAt(hs, j) == LiveAt(gs, j) {
      SamePlaceElsewhere(gs, hs, i, j);
    }
  }

  lemma {:induction false} SamePlaceElsewhere(gs: seq<Grant>, hs: seq<Grant>, i: nat, j: u64)
    requires i < |gs| && |hs| == |gs| && hs == gs[i := hs[i]] && gs[i].id != j && hs[i].id != j
    ensures GrantAt(hs, j) == GrantAt(gs, j)
  {
    hide GrantAt;
    assert forall k | 0 <= k < |gs| :: hs[k].id == j <==> gs[k].id == j;
  }

  // --------------------------------------------------------------------------
  // What the commits of a turn do to live grants
  // --------------------------------------------------------------------------

  lemma {:induction false} CommitUnfolds(s: Durable, r: Record, env: Env)
    requires s.journalSequence < U64_MAX && s.journalRecords < U64_MAX
    ensures var a := Apply(Numbered(s), r, env.cfg);
      Commit(s, r, env) == if a.status.None? && (Overfull(a.state, env.cfg) || env.full(s.journalRecords))
                           then Prune(a.state, env.cfg) else a
  {
    hide Apply, Prune, Overfull;
  }

  lemma {:induction false} CommitRefuses(s: Durable, r: Record, env: Env)
    requires s.journalSequence >= U64_MAX || s.journalRecords >= U64_MAX
    ensures Commit(s, r, env).status.Some?
  {
    hide Apply, Prune, Overfull;
  }

  // The commit succeeds exactly when its record can be numbered and applies.
  lemma {:induction false} CommitSucceedsIff(s: Durable, r: Record, env: Env)
    requires Sound(s) && Admissible(r, Numbered(s))
    ensures Commit(s, r, env).status.None? <==>
      (&& s.journalSequence < U64_MAX && s.journalRecords < U64_MAX && Apply(Numbered(s), r, env.cfg).status.None?)
  {
    hide Commit, Apply, Prune, Overfull, Sound, Roomy, Keeps, Admissible;
    if s.journalSequence < U64_MAX && s.journalRecords < U64_MAX {
      var n := Numbered(s);
      CommitUnfolds(s, r, env);
      NumberedRoomy(s);
      ApplyKeeps(n, r, env.cfg);
      KeepsSound(n, Apply(n, r, env.cfg));
      PruneCounts(Apply(n, r, env.cfg).state, env.cfg);
    } else {
      CommitRefuses(s, r, env);
    }
  }

  // Committing moves the journal on by one record, or leaves it where it was.
  lemma {:induction false} CommitNumbers(s: Durable, r: Record, env: Env)
    ensures var e := Commit(s, r, env);
      || (e.state.journalSequence == s.journalSequence && e.state.journalRecords == s.journalRecords)
      || (e.state.journalSequence == s.journalSequence + 1 && e.state.journalRecords == s.journalRecords + 1)
    ensures Commit(s, r, env).status.None? ==>
      Commit(s, r, env).state.journalRecords == s.journalRecords + 1
      && Commit(s, r, env).state.journalSequence == s.journalSequence + 1
  {
    hide GrantAt, ContractAt, Count, KeptGrants, Dropped, SortBy, Overfull;
    ApplyNumbers(Numbered(s), r, env.cfg);
    hide Apply;
  }

  lemma {:induction false} ApplyNumbers(s: Durable, r: Record, cfg: Config)
    ensures var e := Apply(s, r, cfg).state;
      e.journalSequence == s.journalSequence && e.journalRecords == s.journalRecords
  {
    hide GrantAt, ContractAt, Count;
  }

  lemma {:induction false} FenceLive(c: Coord, id: u64, k: EndKind, now: u64, env: Env)
    requires Orderly(c)
    ensures var (d, status) := FenceGrant(c, id, k, now, env);
      && Orderly(d) && c.state.counters.pruned <= d.state.counters.pruned && d.index == c.index
      && SameBut(c.state.grants, d.state.grants, id)
      && LiveAt(d.state.grants, id) == if status.None? then None else LiveAt(c.state.grants, id)
  {
    hide Orderly, FenceGrant, Remains, GrantAt, LiveAt, IdsClimb;
    FenceOrderly(c, id, k, now, env);
    OrderlyParts(c);
    var (d, status) := FenceGrant(c, id, k, now, env);
    OrderlyParts(d);
    if status.None? {
      var i := GrantAt(c.state.grants, id);
      var h := Transitioned(c.state.grants[i], EndState(k), now, 0, 0);
      ReplacedLive(c.state.grants, id, h);
      ClimbUpdate(c.state.grants, i, h);
      RemainsLive(c.state.grants[i := h], d.state.grants);
      EndedIsEnded(h, k);
    }
  }

  lemma {:induction false} EndedIsEnded(h: Grant, k: EndKind)
    requires h.state == EndState(k)
    ensures !h.Live()
  {
  }

  lemma {:induction false} DecisionLive(c: Coord, decision: Decision, env: Env)
    requires Orderly(c)
    ensures var r := DecisionRecorded(decision);
      var d := CommitNeutral(c, r, env);
      && Orderly(d) && c.state.counters.pruned <= d.state.counters.pruned && d.index == c.index
      && SameLive(c.state.grants, d.state.grants)
      && (Commit(c.state, r, env).status.None? <==>
            c.state.journalSequence < U64_MAX && c.state.journalRecords < U64_MAX)
  {
    hide Orderly, Commit, Remains, GrantAt, LiveAt, IdsClimb, Apply, Sound, Roomy, Keeps;
    var r := DecisionRecorded(decision);
    NeutralOrderly(c, r, env);
    OrderlyParts(c);
    var d := CommitNeutral(c, r, env);
    OrderlyParts(d);
    CommitSucceedsIff(c.state, r, env);
    if c.state.journalRecords < U64_MAX {
      NumberedRoomy(c.state);
      DecisionApplies(Numbered(c.state), decision, env.cfg);
    }
    if Commit(c.state, r, env).status.None? { RemainsLive(c.state.grants, d.state.grants); }
  }

  lemma {:induction false} DecisionApplies(n: Durable, decision: Decision, cfg: Config)
    requires Roomy(n)
    ensures Apply(n, DecisionRecorded(decision), cfg).status.None?
  {
    hide Count, DecisionCount, SetDecisionCount;
    ApplyKeeps(n, DecisionRecorded(decision), cfg);
  }

  lemma {:induction false} RebindLive(c: Coord, id: u64, b: Binding, env: Env)
    requires Orderly(c)
    ensures var r := GrantRebound(id, b);
      var d := CommitNeutral(c, r, env);
      var l := LiveAt(c.state.grants, id);
      && Orderly(d) && c.state.counters.pruned <= d.state.counters.pruned && d.index == c.index
      && SameBut(c.state.grants, d.state.grants, id)
      && (Commit(c.state, r, env).status.None? <==>
            (&& c.state.journalSequence < U64_MAX && c.state.journalRecords < U64_MAX
             && l.Some? && SameSubject(l.value.binding, b)))
      && LiveAt(d.state.grants, id) ==
           if Commit(c.state, r, env).status.None? && l.Some? then Some(l.value.(binding := b)) else l
  {
    hide Orderly, Commit, Remains, GrantAt, IdsClimb, Apply, Sound;
    var r := GrantRebound(id, b);
    NeutralOrderly(c, r, env);
    OrderlyParts(c);
    var d := CommitNeutral(c, r, env);
    OrderlyParts(d);
    CommitSucceedsIff(c.state, r, env);
    AppliedRebound(Numbered(c.state), id, b, env.cfg);
    if Commit(c.state, r, env).status.None? {
      var i := GrantAt(c.state.grants, id);
      var h := c.state.grants[i].(binding := b);
      ReplacedLive(c.state.grants, id, h);
      ClimbUpdate(c.state.grants, i, h);
      RemainsLive(c.state.grants[i := h], d.state.grants);
    }
  }

  // --------------------------------------------------------------------------
  // One turn, under any index
  // --------------------------------------------------------------------------

  // The turn carries the live grant of the identity over: what the index finds is live, to
  // be re-evaluated and covered, and has the same subject.
  ghost predicate CarriesOver(c: Coord, id: u64, w: Round) {
    var found, stands := Lookup(c.index, c.state.grants, id), LiveAt(c.state.grants, id);
    && found.Some? && found.value.Live() && Standing(found.value, w.current, w.now) == Reevaluate
    && w.eval.decide(found.value.binding.contract, c.state.journalRecords).Some?
    && StillCovers(w.eval.approved(found.value.binding.contract), found.value)
    && stands.Some? && SameSubject(stands.value.binding, found.value.binding)
    && c.state.journalSequence + 2 <= U64_MAX && c.state.journalRecords + 2 <= U64_MAX
  }

  // What one turn leaves of the grants, whatever the index says and whatever is dropped.
  ghost predicate Turned(c: Coord, id: u64, w: Round, d: Coord) {
    && Orderly(d) && c.state.counters.pruned <= d.state.counters.pruned && d.index == c.index
    && SameBut(c.state.grants, d.state.grants, id)
    && (var l := LiveAt(c.state.grants, id);
        if CarriesOver(c, id, w) then LiveAt(d.state.grants, id) == Some(Rebound(l.value, w.current))
        else LiveAt(d.state.grants, id).None? || LiveAt(d.state.grants, id) == l)
  }

  lemma {:induction false} FenceTurns(c: Coord, id: u64, k: EndKind, w: Round, env: Env)
    requires Orderly(c) && !CarriesOver(c, id, w)
    ensures Turned(c, id, w, FenceGrant(c, id, k, w.now, env).0)
  {
    hide Orderly, FenceGrant, LiveAt, CarriesOver;
    FenceLive(c, id, k, w.now, env);
  }

  // With the same subject, the binding found and the binding standing differ in authority only.
  lemma {:induction false} SameRebinding(l: Grant, g: Grant, current: AuthorityVector)
    requires SameSubject(l.binding, g.binding)
    ensures l.(binding := Rebound(g, current).binding) == Rebound(l, current)
    ensures SameSubject(l.binding, Rebound(g, current).binding)
  {
  }

  lemma {:induction false} SubjectsOnly(l: Grant, g: Grant, current: AuthorityVector)
    ensures SameSubject(l.binding, Rebound(g, current).binding) <==> SameSubject(l.binding, g.binding)
  {
  }

  lemma {:induction false} ReevaluationTurns(c: Coord, id: u64, g: Grant, w: Round, env: Env)
    requires Orderly(c) && Lookup(c.index, c.state.grants, id) == Some(g) && g.Live()
    requires Standing(g, w.current, w.now) == Reevaluate
    ensures Turned(c, id, w, ReevaluateOne(c, id, g, w, env))
  {
    hide Orderly, FenceGrant, CommitNeutral, Commit, StillCovers, LiveAt, Lookup, Standing, SameSubject;
    var decision := w.eval.decide(g.binding.contract, c.state.journalRecords);
    if decision.None? {
      FenceLive(c, id, ByFence, w.now, env);
    } else {
      var d := CommitNeutral(c, DecisionRecorded(decision.value), env);
      DecisionLive(c, decision.value, env);
      FenceLive(d, id, ByFence, w.now, env);
      if Commit(c.state, DecisionRecorded(decision.value), env).status.None?
        && StillCovers(w.eval.approved(g.binding.contract), g) {
        RebindingTurns(c, id, g, w, env, decision.value, d);
      }
    }
  }

  // The part of the turn past an accepted evaluation.
  lemma {:induction false} RebindingTurns(c: Coord, id: u64, g: Grant, w: Round, env: Env, decision: Decision, d: Coord)
    requires Orderly(c) && Lookup(c.index, c.state.grants, id) == Some(g) && g.Live()
    requires Standing(g, w.current, w.now) == Reevaluate
    requires w.eval.decide(g.binding.contract, c.state.journalRecords) == Some(decision)
    requires d == CommitNeutral(c, DecisionRecorded(decision), env)
    requires Commit(c.state, DecisionRecorded(decision), env).status.None?
    requires StillCovers(w.eval.approved(g.binding.contract), g)
    ensures Turned(c, id, w, ReevaluateOne(c, id, g, w, env))
  {
    hide Orderly, FenceGrant, Commit, StillCovers, LiveAt, Lookup, Standing, SameSubject;
    DecisionLive(c, decision, env);
    CommitNumbers(c.state, DecisionRecorded(decision), env);
    var b := Rebound(g, w.current).binding;
    var moved := CommitNeutral(d, GrantRebound(id, b), env);
    RebindLive(d, id, b, env);
    FenceLive(moved, id, ByFence, w.now, env);
    assert LiveAt(d.state.grants, id) == LiveAt(c.state.grants, id);
    if LiveAt(c.state.grants, id).Some? {
      var l := LiveAt(c.state.grants, id).value;
      SubjectsOnly(l, g, w.current);
      if SameSubject(l.binding, g.binding) { SameRebinding(l, g, w.current); }
    }
  }

  lemma {:induction false} TurnOutcome(c: Coord, id: u64, w: Round, env: Env)
    requires Orderly(c)
    ensures Turned(c, id, w, SweepOne(c, id, w, env))
  {
    hide Orderly, FenceGrant, ReevaluateOne, Standing, LiveAt, StillCovers, SameSubject;
    var found := Lookup(c.index, c.state.grants, id);
    if found.Some? && found.value.Live() {
      match Standing(found.value, w.current, w.now)
      case Untouched =>
      case Expire => FenceTurns(c, id, ByExpiry, w, env);
      case FenceOff => FenceTurns(c, id, ByFence, w, env);
      case Reevaluate => ReevaluationTurns(c, id, found.value, w, env);
    }
  }

  // --------------------------------------------------------------------------
  // Whole sweeps
  // --------------------------------------------------------------------------

  // What a sweep may make of a live grant that stays live: nothing, or rebind it because it
  // is itself to be re-evaluated and the approval covers it.
  ghost predicate Fair(g: Grant, h: Grant, w: Round) {
    || h == g
    || (&& h == Rebound(g, w.current) && OnlyCapabilityMoved(g, w.current, w.now)
        && StillCovers(w.eval.approved(g.binding.contract), g))
  }

  ghost predicate FairAt(gs: seq<Grant>, hs: seq<Grant>, id: u64, w: Round) {
    LiveAt(hs, id).Some? ==> LiveAt(gs, id).Some? && Fair(LiveAt(gs, id).value, LiveAt(hs, id).value, w)
  }

  // Every grant live after the sweep was live before it and is as it was, or is backed.
  ghost predicate FairlySwept(gs: seq<Grant>, hs: seq<Grant>, w: Round) {
    forall id: u64 :: FairAt(gs, hs, id, w)
  }

  // The turn carries a grant over that is not itself to be carried over.
  ghost predicate Misjudges(c: Coord, id: u64, w: Round) {
    && CarriesOver(c, id, w)
    && (var l := LiveAt(c.state.grants, id).value;
        && l.binding.vector != w.current
        && !(OnlyCapabilityMoved(l, w.current, w.now) && StillCovers(w.eval.approved(l.binding.contract), l)))
  }

  ghost predicate NoneMisjudged(c: Coord, ids: seq<u64>, w: Round, env: Env)
    decreases |ids|
  {
    ids == [] || (!Misjudges(c, ids[0], w) && NoneMisjudged(SweepOne(c, ids[0], w, env), ids[1..], w, env))
  }

  lemma {:induction false} ReboundOnce(g: Grant, current: AuthorityVector)
    ensures Rebound(g, current) == g <==> g.binding.vector == current
  {
    assert Rebound(g, current) == g ==> Rebound(g, current).binding.vector == g.binding.vector;
  }

  // The turn is fair to its identity exactly when it does not misjudge.
  lemma {:induction false} TurnIsFairIff(c: Coord, id: u64, w: Round, d: Coord)
    requires Turned(c, id, w, d)
    ensures FairAt(c.state.grants, d.state.grants, id, w) <==> !Misjudges(c, id, w)
  {
    hide Orderly, LiveAt, Standing, StillCovers, Lookup, SameSubject, SameBut;
    if CarriesOver(c, id, w) { ReboundOnce(LiveAt(c.state.grants, id).value, w.current); }
  }

  // A turn touches no identity but its own, so neither do later ones.
  lemma {:induction false} SweepElsewhere(c: Coord, ids: seq<u64>, w: Round, env: Env, id: u64)
    requires Orderly(c) && id !in ids
    ensures LiveAt(SweepAll(c, ids, w, env).state.grants, id) == LiveAt(c.state.grants, id)
    decreases |ids|
  {
    hide Orderly, SweepOne, LiveAt, CarriesOver;
    if ids != [] {
      TurnOutcome(c, ids[0], w, env);
      SweepElsewhere(SweepOne(c, ids[0], w, env), ids[1..], w, env, id);
    }
  }

  // A sweep over distinct identities, from any index and whatever retention drops on the
  // way, is fair exactly when no turn of it misjudges.
  lemma {:induction false} SweepIsFairIff(c: Coord, ids: seq<u64>, w: Round, env: Env)
    requires Orderly(c) && Distinct(ids)
    ensures FairlySwept(c.state.grants, SweepAll(c, ids, w, env).state.grants, w) <==> NoneMisjudged(c, ids, w, env)
    decreases |ids|
  {
    hide Orderly, SweepOne, LiveAt, CarriesOver, Misjudges, Fair;
    if ids == [] {
      forall id: u64 ensures FairAt(c.state.grants, c.state.grants, id, w) { UnchangedIsFair(c.state.grants, id, w); }
    } else {
      var d, rest := SweepOne(c, ids[0], w, env), ids[1..];
      TurnOutcome(c, ids[0], w, env);
      SweepIsFairIff(d, rest, w, env);
      SweepElsewhere(d, rest, w, env, ids[0]);
      TurnIsFairIff(c, ids[0], w, d);
      FairFromHere(c.state.grants, d.state.grants, SweepAll(d, rest, w, env).state.grants, ids[0], w);
    }
  }

  lemma {:induction false} UnchangedIsFair(gs: seq<Grant>, id: u64, w: Round)
    ensures FairAt(gs, gs, id, w)
  {
    hide LiveAt, StillCovers, Standing;
  }

  // The turn of one identity and the rest of the sweep are fair together or not.
  lemma {:induction false} FairFromHere(gs: seq<Grant>, ds: seq<Grant>, hs: seq<Grant>, id: u64, w: Round)
    requires SameBut(gs, ds, id) && LiveAt(hs, id) == LiveAt(ds, id)
    ensures FairlySwept(gs, hs, w) <==> FairAt(gs, ds, id, w) && FairlySwept(ds, hs, w)
  {
    hide LiveAt, Fair;
    if FairlySwept(gs, hs, w) {
      assert FairAt(gs, hs, id, w);
      forall j: u64 ensures FairAt(ds, hs, j, w) {
        if j == id {
          UnchangedIsFair(ds, id, w);
        } else {
          assert FairAt(gs, hs, j, w);
        }
      }
    }
    if FairAt(gs, ds, id, w) && FairlySwept(ds, hs, w) {
      forall j: u64 ensures FairAt(gs, hs, j, w) {
        assert FairAt(ds, hs, j, w);
      }
    }
  }

  // --------------------------------------------------------------------------
  // An exact index
  // --------------------------------------------------------------------------

  // A grant found in its place is judged on its own.
  lemma {:induction false} FoundIsJudged(c: Coord, id: u64, w: Round)
    requires Lookup(c.index, c.state.grants, id) == ScanFor(c.state.grants, id)
    ensures !Misjudges(c, id, w)
  {
    hide GrantAt, Lookup, StillCovers, SameSubject;
  }

  lemma {:induction false} SweepAdvances(c: Coord, ids: seq<u64>, w: Round, env: Env)
    requires Orderly(c)
    ensures var d := SweepAll(c, ids, w, env); Orderly(d) && c.state.counters.pruned <= d.state.counters.pruned
    decreases |ids|
  {
    hide Orderly, SweepOne, LiveAt, CarriesOver, SameBut;
    if ids != [] {
      TurnOutcome(c, ids[0], w, env);
      SweepAdvances(SweepOne(c, ids[0], w, env), ids[1..], w, env);
    }
  }

  lemma {:induction false} NoPairs(c: Coord)
    ensures Logged(c, [])
  {
  }

  lemma {:induction false} NeutralGood(c: Coord, r: Record, env: Env)
    requires Good(c) && Neutral(r) && Undropped(c.state, CommitNeutral(c, r, env).state)
    ensures Good(CommitNeutral(c, r, env))
  {
    hide Good, CommitNeutral, Logged;
    NoPairs(c);
    NeutralStep(c, [], r, env);
  }

  lemma {:induction false} ReevaluateGood(c: Coord, id: u64, g: Grant, w: Round, env: Env)
    requires Good(c) && Undropped(c.state, ReevaluateOne(c, id, g, w, env).state)
    ensures Good(ReevaluateOne(c, id, g, w, env))
  {
    hide Good, Orderly, Commit, CommitNeutral, FenceGrant, StillCovers, SameBut, SameLive, LiveAt;
    GoodParts(c);
    var decision := w.eval.decide(g.binding.contract, c.state.journalRecords);
    if decision.None? {
      FenceStep(c, id, ByFence, w.now, env);
    } else {
      var r := DecisionRecorded(decision.value);
      var d := CommitNeutral(c, r, env);
      DecisionLive(c, decision.value, env);
      FenceLive(d, id, ByFence, w.now, env);
      var b := Rebound(g, w.current).binding;
      RebindLive(d, id, b, env);
      var moved := CommitNeutral(d, GrantRebound(id, b), env);
      FenceLive(moved, id, ByFence, w.now, env);
      NeutralGood(c, r, env);
      if Commit(c.state, r, env).status.Some? || !StillCovers(w.eval.approved(g.binding.contract), g) {
        FenceStep(d, id, ByFence, w.now, env);
      } else {
        NeutralGood(d, GrantRebound(id, b), env);
        if Commit(d.state, GrantRebound(id, b), env).status.Some? { FenceStep(moved, id, ByFence, w.now, env); }
      }
    }
  }

  // A turn that drops nothing keeps a good coordinator good.
  lemma {:induction false} TurnGood(c: Coord, id: u64, w: Round, env: Env)
    requires Good(c) && Undropped(c.state, SweepOne(c, id, w, env).state)
    ensures Good(SweepOne(c, id, w, env))
  {
    hide Good, FenceGrant, ReevaluateOne, Standing, Lookup;
    var found := Lookup(c.index, c.state.grants, id);
    if found.Some? && found.value.Live() {
      match Standing(found.value, w.current, w.now)
      case Untouched =>
      case Expire => FenceStep(c, id, ByExpiry, w.now, env);
      case FenceOff => FenceStep(c, id, ByFence, w.now, env);
      case Reevaluate => ReevaluateGood(c, id, found.value, w, env);
    }
  }

  // From an exact index, a sweep that drops nothing misjudges nothing and keeps the index
  // exact.
  lemma {:induction false} ExactSweep(c: Coord, ids: seq<u64>, w: Round, env: Env)
    requires Good(c) && Undropped(c.state, SweepAll(c, ids, w, env).state)
    ensures Good(SweepAll(c, ids, w, env)) && NoneMisjudged(c, ids, w, env)
    decreases |ids|
  {
    hide Good, Orderly, SweepOne, Misjudges, CarriesOver, SameBut, LiveAt, Lookup, ScanFor;
    if ids != [] {
      GoodParts(c);
      var d := SweepOne(c, ids[0], w, env);
      TurnOutcome(c, ids[0], w, env);
      SweepAdvances(d, ids[1..], w, env);
      TurnGood(c, ids[0], w, env);
      FindsIt(c, ids[0]);
      FoundIsJudged(c, ids[0], w);
      ExactSweep(d, ids[1..], w, env);
    }
  }
}
