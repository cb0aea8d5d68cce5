// What a stale grant index does to reports (acknowledge_locked and report_applied_locked
// in src/runtime/coordinator.cpp): a report on one grant is checked against another, and a
// run from a new store accepts one (grant, attempt) pair twice.
module StaleReports {
  import opened Core
  import opened Guarantees
  import opened Grants
  import opened Store
  import opened Closure
  import opened Replay
  import opened GrantTables
  import opened Coordinators
  import opened BootFencing
  import opened CoordinatorRuns
  import opened ShapedRuns
  import opened Sorting
  import opened Sums
  import opened Subsets

  // --------------------------------------------------------------------------
  // Commits that succeed
  // --------------------------------------------------------------------------

  ghost predicate HasRoom(s: Durable, n: nat) {
    Sound(s) && s.journalSequence + n <= U64_MAX && s.journalRecords + n <= U64_MAX
  }

  // A commit whose record applies, in a store that stays within retention, succeeds.
  lemma {:induction false} CommitSucceeds(s: Durable, r: Record, env: Env)
    requires HasRoom(s, 1) && Admissible(r, Numbered(s))
    requires var a := Apply(Numbered(s), r, env.cfg);
      a.status.None? && IdsClimb(a.state.grants) && |a.state.grants| <= env.cfg.maxGrants
    ensures Commit(s, r, env).status.None?
  {
    hide Apply, Prune, Overfull, IdsClimb, Sound, Roomy, Keeps, Admissible;
    var n := Numbered(s);
    NumberedRoomy(s);
    ApplyKeeps(n, r, env.cfg);
    KeepsSound(n, Apply(n, r, env.cfg));
    PruneCounts(Apply(n, r, env.cfg).state, env.cfg);
  }

  lemma {:induction false} CommitCounts(s: Durable, r: Record, env: Env)
    requires HasRoom(s, 1) && Apply(Numbered(s), r, env.cfg).state.journalSequence == s.journalSequence + 1
    requires Apply(Numbered(s), r, env.cfg).state.journalRecords == s.journalRecords + 1
    ensures var e := Commit(s, r, env);
      e.state.journalSequence == s.journalSequence + 1 && e.state.journalRecords == s.journalRecords + 1
  {
    hide Apply, Sound, Overfull, KeptGrants, Dropped, SortBy;
  }

  lemma {:induction false} MoveSucceeds(s: Durable, next: GrantState, id: u64, tick: u64, attempt: u64, sequence: u64,
                                        i: nat)
    requires Roomy(s) && (next.Acknowledged? || next.Applied?)
    requires i == GrantAt(s.grants, id) < |s.grants| && Allowed(s.grants[i].state, next)
    ensures var e := ApplyMoved(s, id, next, tick, attempt, sequence);
      && e.status.None? && e.state.grants == s.grants[i := Transitioned(s.grants[i], next, tick, attempt, sequence)]
      && e.state.journalSequence == s.journalSequence && e.state.journalRecords == s.journalRecords
  {
    hide Closed, GrantAt, Allowed;
  }

  // --------------------------------------------------------------------------
  // A misdirected report
  // --------------------------------------------------------------------------

  // Three grants, and an index that sends the first one's identity to the third.
  ghost predicate Misdirects(c: Coord, l: Grant, m: Grant, n: Grant) {
    && c.state.grants == [l, m, n] && IdsClimb(c.state.grants)
    && l.id in c.index && c.index[l.id] == 2
  }

  // A report on l under n's attempt is accepted, moves l, and leaves n's attempt valid.
  lemma {:induction false} MisdirectedReport(c: Coord, l: Grant, m: Grant, n: Grant, next: GrantState, now: u64,
                                             env: Env) returns (k: Grant)
    requires Misdirects(c, l, m, n) && HasRoom(c.state, 1) && 3 <= env.cfg.maxGrants
      && (next.Acknowledged? || next.Applied?)
    requires n.state.Issued? && n.lastAttempt != 0 && now <= n.expiresTick && n.sequence < U64_MAX
    requires Allowed(l.state, next) && c.nextAttempt != 0
    ensures var (d, reply) := ReportGrant(c, next, l.id, n.lastAttempt, now, env);
      && reply == Accepted(n) && Misdirects(d, k, m, n) && k.state == next && k.id == l.id
      && d.nextAttempt == Successor(c.nextAttempt)
      && Sound(d.state) && d.state.journalSequence == c.state.journalSequence + 1
      && d.state.journalRecords == c.state.journalRecords + 1
  {
    hide Sound, Apply, Commit, GrantAt, IdsClimb, Roomy, IdsBelow;
    var s := c.state;
    var sequence: u64 := n.sequence + 1;
    var record := if next.Acknowledged? then GrantAcknowledged(l.id, now, c.nextAttempt, sequence)
                  else GrantApplied(l.id, now, c.nextAttempt, sequence);
    k := Transitioned(l, next, now, c.nextAttempt, sequence);
    assert s.grants[0] == l && s.grants[2] == n;
    FirstIsFound(s.grants, l.id);
    NumberedRoomy(s);
    AppliedReport(Numbered(s), next, l.id, now, c.nextAttempt, sequence, env.cfg);
    MoveSucceeds(Numbered(s), next, l.id, now, c.nextAttempt, sequence, 0);
    ClimbUpdate(s.grants, 0, k);
    CommitSucceeds(s, record, env);
    DropGuard(s, record, env);
    NothingDropped(Apply(Numbered(s), record, env.cfg).state.grants, env.cfg);
    CommitMeans(s, record, env);
    CommitCounts(s, record, env);
    assert s.grants[0 := k] == [k, m, n];
  }

  lemma {:induction false} FirstIsFound(gs: seq<Grant>, id: u64)
    requires gs != [] && gs[0].id == id
    ensures GrantAt(gs, id) == 0
  {
  }

  // Both reports on the first grant are accepted under one attempt, which is not even its own.
  lemma {:induction false} AcceptsTwice(c: Coord, l: Grant, m: Grant, n: Grant, now: u64, env: Env)
    requires Misdirects(c, l, m, n) && HasRoom(c.state, 2) && 3 <= env.cfg.maxGrants
    requires l.state.Issued? && n.state.Issued? && n.lastAttempt != 0 && now <= n.expiresTick && n.sequence < U64_MAX
    requires 0 < c.nextAttempt < U64_MAX
    ensures var (d, first) := ReportGrant(c, Acknowledged, l.id, n.lastAttempt, now, env);
      var (e, second) := ReportGrant(d, Applied, l.id, n.lastAttempt, now, env);
      first.Accepted? && second.Accepted?
  {
    hide Sound, ReportGrant, Misdirects;
    var k := MisdirectedReport(c, l, m, n, Acknowledged, now, env);
    var d := ReportGrant(c, Acknowledged, l.id, n.lastAttempt, now, env).0;
    var j := MisdirectedReport(d, k, m, n, Applied, now, env);
  }

  // --------------------------------------------------------------------------
  // How a good coordinator gets there
  // --------------------------------------------------------------------------

  lemma {:induction false} IssueSucceeds(s: Durable, g: Grant, cfg: Config)
    requires Roomy(s) && !Known(g.id, s.grants) && Count(IsLive, s.grants) < cfg.maxGrants
    ensures var e := Apply(s, GrantIssued(g), cfg);
      && e.status.None? && e.state.grants == s.grants + [g]
      && e.state.journalSequence == s.journalSequence && e.state.journalRecords == s.journalRecords
      && CurrentVector(e.state) == CurrentVector(s)
  {
    hide Closed, Count, GrantAt;
    NotFoundWhenUnknown(s.grants, g.id);
  }

  // A commit that overfills the store prunes it.
  lemma {:induction false} OverfullPrunes(s: Durable, r: Record, env: Env)
    requires HasRoom(s, 1) && Admissible(r, Numbered(s))
    requires var a := Apply(Numbered(s), r, env.cfg);
      && a.status.None? && |a.state.grants| > env.cfg.maxGrants * 2
      && a.state.journalSequence == s.journalSequence + 1 && a.state.journalRecords == s.journalRecords + 1
    ensures var a, e := Apply(Numbered(s), r, env.cfg), Commit(s, r, env);
      && e.status.None? && Sound(e.state) && e.state.grants == KeptGrants(a.state.grants, env.cfg)
      && CurrentVector(e.state) == CurrentVector(a.state)
      && e.state.journalSequence == s.journalSequence + 1 && e.state.journalRecords == s.journalRecords + 1
  {
    hide Apply, Sound, Roomy, Keeps, Admissible, KeptGrants, Dropped, SortBy;
    var n := Numbered(s);
    NumberedRoomy(s);
    ApplyKeeps(n, r, env.cfg);
    var a := Apply(n, r, env.cfg);
    KeepsSound(n, a);
    PruneKeeps(a.state, env.cfg);
  }

  // Seven grants of which the third and the last two are live.
  ghost predicate Scattered(gs: seq<Grant>, l: Grant, m: Grant, n: Grant) {
    && |gs| == 7 && gs[2] == l && gs[5] == m && gs[6] == n
    && IsLive(l) && IsLive(m) && IsLive(n)
    && IsEnded(gs[0]) && IsEnded(gs[1]) && IsEnded(gs[3]) && IsEnded(gs[4])
  }

  // What one more position adds to a filtered prefix.
  lemma {:induction false} FilterNext(p: Grant -> bool, gs: seq<Grant>, i: nat)
    requires i < |gs|
    ensures Filter(p, gs[..i + 1]) == if p(gs[i]) then Filter(p, gs[..i]) + [gs[i]] else Filter(p, gs[..i])
  {
    hide Filter;
    assert gs[..i + 1] == gs[..i] + [gs[i]];
    FilterPush(p, gs[..i], gs[i]);
    assert Filter(p, gs[..i]) + [] == Filter(p, gs[..i]);
  }

  lemma {:induction false} NothingYet(p: Grant -> bool, gs: seq<Grant>)
    ensures Filter(p, gs[..0]) == []
  {
  }

  lemma {:induction false} ScatteredLive(gs: seq<Grant>, l: Grant, m: Grant, n: Grant)
    requires Scattered(gs, l, m, n)
    ensures Filter(IsLive, gs) == [l, m, n] && |Filter(IsEnded, gs)| == 4
  {
    hide Filter;
    NothingYet(IsLive, gs);
    NothingYet(IsEnded, gs);
    var i := 0;
    while i < 7
      invariant 0 <= i <= 7
      invariant Filter(IsLive, gs[..i]) == if i <= 2 then [] else if i <= 5 then [l] else if i == 6 then [l, m]
        else [l, m, n]
      invariant |Filter(IsEnded, gs[..i])| == if i <= 2 then i else if i == 3 then 2 else if i <= 5 then i - 1 else 4
    {
      FilterNext(IsLive, gs, i);
      FilterNext(IsEnded, gs, i);
      i := i + 1;
    }
    assert gs[..7] == gs;
  }

  lemma {:induction false} ScatteredKept(gs: seq<Grant>, l: Grant, m: Grant, n: Grant, cfg: Config)
    requires Scattered(gs, l, m, n) && IdsClimb(gs) && cfg.maxGrants == 3
    ensures KeptGrants(gs, cfg) == [l, m, n] && IdsClimb([l, m, n])
  {
    hide SortBy, Filter, Count, IsLive, IsEnded;
    ScatteredLive(gs, l, m, n);
    CountIsFilter(gs);
    var kept := [l, m, n];
    assert l.id < m.id < n.id;
    assert |EndedByAge(gs)| == 4 && Budget(gs, cfg) == 0;
    assert kept + EndedByAge(gs)[..0] == kept;
    ClimbIsDistinct(kept);
    KeyOrderTotal(GrantKey, GrantBefore, kept);
    ClimbIsSorted(kept);
    SortOfSorted(GrantBefore, kept);
  }

  // What the coordinator looks like before the acquisition: six grants, two of them live.
  ghost predicate Ready(c: Coord, l: Grant, m: Grant) {
    && |c.state.grants| == 6 && c.state.grants[2] == l && c.state.grants[5] == m && l.state.Issued? && m.state.Issued?
    && (forall i | i in {0, 1, 3, 4} :: IsEnded(c.state.grants[i]))
    && HasRoom(c.state, 8) && c.nextGrant != 0 && 0 < c.nextAttempt < U64_MAX - 1
  }

  // In a coordinator that keeps three grants and lets three live, issuing the seventh makes
  // retention drop the four ended ones; the index then misdirects.
  lemma {:induction false} AcquireMisdirects(c: Coord, l: Grant, m: Grant, offer: Offer, now: u64, env: Env)
    returns (n: Grant)
    requires Good(c) && Ready(c, l, m) && env.cfg.maxGrants == 3
    ensures var (d, reply) := AcquireGrant(c, offer, now, 3, env);
      && reply == Accepted(n) && Misdirects(d, l, m, n) && HasRoom(d.state, 7)
      && n.state.Issued? && n.lastAttempt == c.nextAttempt && Given(n, offer) && n.sequence == 1
      && d.nextAttempt == Successor(c.nextAttempt) && CurrentVector(d.state) == CurrentVector(c.state)
  {
    hide Sound, Apply, Commit, Count, GrantAt, KeptGrants, IdsBelow, AttemptsBelow, Roomy, IdsClimb;
    var s := c.state;
    n := Grant(c.nextGrant, offer.binding, offer.original, offer.degraded, 1, c.nextAttempt, now, offer.expires, now,
               Issued);
    var gs := s.grants + [n];
    ClimbPush(s.grants, n, s.grantHigh);
    ReadyScatters(c, l, m, n);
    LiveBefore(s.grants, n);
    NumberedRoomy(s);
    IssueSucceeds(Numbered(s), n, env.cfg);
    OverfullPrunes(s, GrantIssued(n), env);
    ScatteredKept(gs, l, m, n, env.cfg);
    UnindexedIsNew(c.index, s.grants, n.id);
    assert c.index[l.id] == 2;
  }

  lemma {:induction false} ReadyScatters(c: Coord, l: Grant, m: Grant, n: Grant)
    requires Ready(c, l, m) && n.state.Issued?
    ensures Scattered(c.state.grants + [n], l, m, n)
  {
    hide Sound;
  }

  lemma {:induction false} LiveBefore(gs: seq<Grant>, n: Grant)
    requires |gs| == 6 && Scattered(gs + [n], gs[2], gs[5], n)
    ensures Count(IsLive, gs) == 2
  {
    hide Count, Filter, IsLive, IsEnded;
    ScatteredLive(gs + [n], gs[2], gs[5], n);
    CountIsFilter(gs + [n]);
    CountPush(IsLive, gs, n);
  }

  // So from any such good coordinator: one acquisition, then two reports, and one
  // (grant, attempt) pair has been accepted twice.
  lemma {:induction false} PairAcceptedTwice(c: Coord, l: Grant, m: Grant, offer: Offer, now: u64, env: Env)
    requires Good(c) && Ready(c, l, m) && env.cfg.maxGrants == 3 && now <= offer.expires
    ensures var (d, issued) := AcquireGrant(c, offer, now, 3, env);
      && issued.Accepted?
      && var (e, first) := ReportGrant(d, Acknowledged, l.id, issued.grant.lastAttempt, now, env);
         var (f, second) := ReportGrant(e, Applied, l.id, issued.grant.lastAttempt, now, env);
         first.Accepted? && second.Accepted?
  {
    hide Good, AcquireGrant, ReportGrant, Misdirects, Sound;
    var n := AcquireMisdirects(c, l, m, offer, now, env);
    AcceptsTwice(AcquireGrant(c, offer, now, 3, env).0, l, m, n, now, env);
  }

  // --------------------------------------------------------------------------
  // A run that gets there
  // --------------------------------------------------------------------------

  // Bounds under which the run below prunes only when it means to: three grants, two
  // fences, four decisions retained, and no full evidence at the records written.
  ghost predicate Bounded(env: Env, first: nat) {
    && env.cfg.maxGrants == 3 && env.cfg.maxFences >= 2 && env.cfg.maxDecisions >= 4 && first + 30 <= U64_MAX
    && forall k: nat | first <= k < first + 17 :: !env.full(k)
  }

  const TWO_ENDED := Form([false, false], 0, 2, 2)
  const THREE_LIVE := Form([false, false, true, true, true], 3, 2, 5)
  const SIX := Form([false, false, true, false, false, true], 2, 4, 6)

  lemma {:induction false} TwoAreEnded(c: Coord, env: Env, start: Trail, offers: nat -> Offer, n: nat)
    returns (t: Trail)
    requires Walked(c, env, start) && Tame(start.at, NOTHING, offers, n) && Bounded(env, n)
    ensures Walked(c, env, t) && start.ops <= t.ops && CurrentVector(t.at.state) == CurrentVector(start.at.state)
    ensures Tame(t.at, TWO_ENDED, offers, n + 6)
  {
    hide Walked, Tame, CurrentVector;
    var a, b, c' := Form([true], 1, 0, 1), Form([true, true], 2, 0, 2), Form([false, true], 1, 1, 2);
    t := WalkAcquire(c, env, start, NOTHING, offers, n, a, 3);
    t := WalkAcquire(c, env, t, a, offers, n + 2, b, 3);
    t := WalkEnd(c, env, t, b, offers, n + 4, c', 0);
    t := WalkEnd(c, env, t, c', offers, n + 5, TWO_ENDED, 1);
  }

  lemma {:induction false} ThreeAreLive(c: Coord, env: Env, start: Trail, offers: nat -> Offer, n: nat)
    returns (t: Trail)
    requires Walked(c, env, start) && Tame(start.at, TWO_ENDED, offers, n + 6) && Bounded(env, n)
    ensures Walked(c, env, t) && start.ops <= t.ops && CurrentVector(t.at.state) == CurrentVector(start.at.state)
    ensures Tame(t.at, THREE_LIVE, offers, n + 12)
  {
    hide Walked, Tame, CurrentVector;
    var a, b := Form([false, false, true], 1, 2, 3), Form([false, false, true, true], 2, 2, 4);
    t := WalkAcquire(c, env, start, TWO_ENDED, offers, n + 6, a, 3);
    t := WalkAcquire(c, env, t, a, offers, n + 8, b, 3);
    t := WalkAcquire(c, env, t, b, offers, n + 10, THREE_LIVE, 3);
  }

  lemma {:induction false} SixFollow(c: Coord, env: Env, start: Trail, offers: nat -> Offer, n: nat)
    returns (t: Trail)
    requires Walked(c, env, start) && Tame(start.at, THREE_LIVE, offers, n + 12) && Bounded(env, n)
    ensures Walked(c, env, t) && start.ops <= t.ops && CurrentVector(t.at.state) == CurrentVector(start.at.state)
    ensures Tame(t.at, SIX, offers, n + 16)
  {
    hide Walked, Tame, CurrentVector;
    var a, b := Form([false, false, true, false, true], 2, 3, 5), Form([false, false, true, false, false], 1, 4, 5);
    t := WalkEnd(c, env, start, THREE_LIVE, offers, n + 12, a, 3);
    t := WalkEnd(c, env, t, a, offers, n + 13, b, 4);
    t := WalkAcquire(c, env, t, b, offers, n + 14, SIX, 3);
  }

  // Six acquisitions and four endings, in an order that leaves the third and the sixth
  // grant live.
  lemma {:induction false} SixAreReached(c: Coord, env: Env, start: Trail, offers: nat -> Offer, n: nat)
    returns (t: Trail)
    requires Walked(c, env, start) && Tame(start.at, NOTHING, offers, n) && Bounded(env, n)
    ensures Walked(c, env, t) && start.ops <= t.ops && CurrentVector(t.at.state) == CurrentVector(start.at.state)
    ensures Tame(t.at, SIX, offers, n + 16)
  {
    hide Walked, Tame, CurrentVector, Bounded;
    var two := TwoAreEnded(c, env, start, offers, n);
    var three := ThreeAreLive(c, env, two, offers, n);
    t := SixFollow(c, env, three, offers, n);
  }

  lemma {:induction false} SixAreReady(c: Coord, offers: nat -> Offer, n: nat, decisions: nat)
    requires Tame(c, SIX.(decisions := decisions), offers, n) && n + 8 <= U64_MAX
    ensures Good(c) && |c.state.grants| == 6 && Ready(c, c.state.grants[2], c.state.grants[5])
    ensures Given(c.state.grants[2], offers(2)) && Given(c.state.grants[5], offers(5)) && c.nextAttempt == 7
  {
    hide Orderly, Sound, Indexes, AttemptsBelow, Count, IsEnded, Given;
    GoodParts(c);
    var shape := [false, false, true, false, false, true];
    assert !shape[0] && !shape[1] && shape[2] && !shape[3] && !shape[4] && shape[5];
  }

  // A seventh acquisition leaves three grants and an index that misdirects.
  lemma {:induction false} MisdirectionIsReached(c: Coord, env: Env, start: Trail, offers: nat -> Offer, n: nat)
    returns (t: Trail, l: Grant, m: Grant, g: Grant)
    requires Walked(c, env, start) && Tame(start.at, NOTHING, offers, n) && Bounded(env, n)
    ensures Walked(c, env, t) && start.ops <= t.ops && CurrentVector(t.at.state) == CurrentVector(start.at.state)
    ensures Misdirects(t.at, l, m, g) && HasRoom(t.at.state, 7) && t.at.nextAttempt == 8
    ensures l.state.Issued? && m.state.Issued? && g.state.Issued? && g.lastAttempt == 7 && g.sequence == 1
    ensures Given(l, offers(2)) && Given(m, offers(5)) && Given(g, offers(6))
  {
    hide Walked, Tame, CurrentVector, Good, Sound, AcquireGrant, Commit, CommitNeutral, Misdirects, Given;
    var six := SixAreReached(c, env, start, offers, n);
    TameDecide(six.at, SIX, offers, n + 16, env);
    var d := CommitNeutral(six.at, DecisionRecorded(NextDecision(SIX)), env);
    SixAreReady(d, offers, n + 17, 7);
    l, m := d.state.grants[2], d.state.grants[5];
    g := AcquireMisdirects(d, l, m, offers(6), 1, env);
    var op := Op.Acquire(Ok(NextDecision(SIX)), offers(6), 1, 3);
    WalkOn(c, env, six, op);
    t := Onward(six, op, env);
  }

  lemma {:induction false} PairsPush(hs: seq<Happening>, h: Happening)
    ensures Pairs(hs + [h]) == Pairs(hs) + (if h.Took? then [h.pair] else [])
    decreases |hs|
  {
    var last := if h.Took? then [h.pair] else [];
    if hs == [] {
      assert hs + [h] == [h] && [h][1..] == [];
      assert last + Pairs([]) == last;
    } else {
      PairsPush(hs[1..], h);
      var first, rest := if hs[0].Took? then [hs[0].pair] else [], Pairs(hs[1..]);
      assert (hs + [h])[1..] == hs[1..] + [h];
      assert first + (rest + last) == first + rest + last;
    }
  }

  lemma {:induction false} TwiceIsNotDistinct(log: seq<Pair>, p: Pair)
    ensures !Distinct(log + [p] + [p])
  {
    var all := log + [p] + [p];
    assert all[|log|] == all[|log| + 1] == p;
  }

  // One contract's grants, bound to the current authority.
  function SomeOffer(v: AuthorityVector, contract: u64, degraded: GuaranteeSet): Offer {
    Offer(Binding(v, contract, 1, 1, 1, 1), [], degraded, 9)
  }

  // A coordinator just started on a new store, past any set-up.
  lemma {:induction false} SetUp(s: Durable, env: Env, setup: seq<Record>, offers: nat -> Offer) returns (t: Trail)
    requires Fresh(s) && (forall r | r in setup :: SettingUp(r)) && |setup| < env.cfg.maxContracts
    requires |setup| + 4 < U64_MAX && forall k: nat | k < |setup| + 4 :: !env.full(k)
    ensures Create(s, env).Ok? && Good(Create(s, env).value)
    ensures Walked(Create(s, env).value, env, t) && t.ops == SetupOps(setup)
    ensures Tame(t.at, NOTHING, offers, |setup| + 4) && t.at.state.capacityGeneration == 1
  {
    hide Create, Good, Walked, Tame, Fresh, SetupOps;
    FreshStarts(s, env, offers);
    var c := Create(s, env).value;
    TameIsGood(c, NOTHING, offers, 4);
    t := WalkSetup(c, env, setup, offers);
  }

  // Grants not issued yet may be offered anything.
  lemma {:induction false} AnyOffers(c: Coord, a: nat -> Offer, b: nat -> Offer, n: nat)
    requires Tame(c, NOTHING, a, n)
    ensures Tame(c, NOTHING, b, n)
  {
    hide Good, Count;
  }

  // Accepting a pair at most once fails of the code: on any new store that keeps three
  // grants, start-up succeeds and, after any set-up, some run accepts a pair twice.
  lemma {:induction false} SomePairIsAcceptedTwice(s: Durable, env: Env, setup: seq<Record>)
    requires Fresh(s) && (forall r | r in setup :: SettingUp(r)) && |setup| < env.cfg.maxContracts
    requires Bounded(env, |setup| + 4) && forall k: nat | k < |setup| + 4 :: !env.full(k)
    ensures Create(s, env).Ok? && Good(Create(s, env).value)
    ensures exists ops, d, happened ::
      && SetupOps(setup) <= ops && Runs(Create(s, env).value, ops, env, d, happened) && !Distinct(Pairs(happened))
  {
    hide Create, Good, Walked, ReportGrant, Tame, Fresh, Distinct, SetupOps, CurrentVector, Misdirects, HasRoom;
    var none := (i: nat) => SomeOffer(AuthorityVector(1, 1, 1, 1, 1, 1), 1, []);
    var start := SetUp(s, env, setup, none);
    var c := Create(s, env).value;
    var offers := (i: nat) => SomeOffer(CurrentVector(start.at.state), 1, []);
    AnyOffers(start.at, none, offers, |setup| + 4);
    var t, l, m, n := MisdirectionIsReached(c, env, start, offers, |setup| + 4);
    LessRoom(t.at.state, 7, 2);
    AcceptsTwice(t.at, l, m, n, 1, env);
    var one := WalkReport(c, env, t, Acknowledged, l.id, 7);
    var two := WalkReport(c, env, one, Applied, l.id, 7);
    assert Pairs(two.happened) == Pairs(t.happened) + [Pair(l.id, 7)] + [Pair(l.id, 7)];
    TwiceIsNotDistinct(Pairs(t.happened), Pair(l.id, 7));
    WalkedIsRun(c, env, two);
  }

  lemma {:induction false} LessRoom(s: Durable, a: nat, b: nat)
    requires HasRoom(s, a) && b <= a
    ensures HasRoom(s, b)
  {
    hide Sound;
  }

  lemma {:induction false} WalkedIsRun(c: Coord, env: Env, t: Trail)
    requires Walked(c, env, t)
    ensures Runs(c, t.ops, env, t.at, t.happened)
  {
    hide Runs;
  }

  lemma {:induction false} WalkReport(c: Coord, env: Env, t: Trail, next: GrantState, id: u64, attempt: u64)
    returns (t': Trail)
    requires Walked(c, env, t) && (next.Acknowledged? || next.Applied?)
    ensures Walked(c, env, t') && t.ops <= t'.ops
    ensures var (d, reply) := ReportGrant(t.at, next, id, attempt, 1, env);
      t'.at == d && Pairs(t'.happened) == Pairs(t.happened) + (if reply.Accepted? then [Pair(id, attempt)] else [])
  {
    hide Walked, ReportGrant;
    var op := Op.Report(next, id, attempt, 1);
    WalkOn(c, env, t, op);
    t' := Onward(t, op, env);
    PairsPush(t.happened, Perform(t.at, op, env).1);
  }
}
