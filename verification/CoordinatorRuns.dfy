// Whole runs of the coordinator, restarts included (src/runtime/coordinator.cpp).
module CoordinatorRuns {
  import opened Core
  import opened Grants
  import opened Store
  import opened Closure
  import opened Replay
  import opened GrantTables
  import opened Coordinators
  import opened BootFencing
  import opened Sums
  import opened Subsets

  // --------------------------------------------------------------------------
  // Runs
  // --------------------------------------------------------------------------

  datatype Op =
    | Acquire(decided: Result<Decision>, offer: Offer, now: u64, maxLive: nat)
    | Report(next: GrantState, id: u64, attempt: u64, now: u64)
    | End(id: u64, kind: EndKind, now: u64)
    | CommitOther(record: Record)
    | Restart(recovered: Durable)

  datatype Happening = Nothing | Took(pair: Pair) | Gave(id: u64)

  function Perform(c: Coord, op: Op, env: Env): (Coord, Happening) {
    match op
    case Acquire(decided, offer, now, maxLive) =>
      var (d, reply) := ObtainGrant(c, decided, offer, now, maxLive, env);
      (d, if reply.Accepted? then Gave(reply.grant.id) else Nothing)
    case Report(next, id, attempt, now) =>
      var (d, reply) := ReportGrant(c, next, id, attempt, now, env);
      (d, if reply.Accepted? then Took(Pair(id, attempt)) else Nothing)
    case End(id, kind, now) => (FenceGrant(c, id, kind, now, env).0, Nothing)
    case CommitOther(r) => (CommitNeutral(c, r, env), Nothing)
    case Restart(rep) =>
      match Create(rep, env)
      case Ok(d) => (d, Nothing)
      case Err(_) => (c, Nothing)
  }

  // What the operations are: reports acknowledge or apply, other records leave grants to
  // the operations, and a restart starts from a recovered state that remembers the
  // identities issued so far.
  ghost predicate Legal(c: Coord, op: Op, env: Env) {
    match op
    case Acquire(_, _, _, _) => true
    case Report(next, _, _, _) => next.Acknowledged? || next.Applied?
    case End(_, _, _) => true
    case CommitOther(r) => Neutral(r)
    case Restart(rep) => Recovered(rep) && rep.grantHigh == c.state.grantHigh && Create(rep, env).Ok?
  }

  // The operation keeps the index exact: it drops no grant, or it is a restart that leaves
  // no earlier grant live.
  ghost predicate KeepsIndex(c: Coord, op: Op, env: Env) {
    if op.Restart? then AllEnded(Perform(c, op, env).0.state.grants)
    else Undropped(c.state, Perform(c, op, env).0.state)
  }

  // The run performs the operations in order and these things happen on the way.
  ghost predicate Runs(c: Coord, ops: seq<Op>, env: Env, d: Coord, happened: seq<Happening>)
    decreases |ops|
  {
    if ops == [] then d == c && happened == []
    else
      && Legal(c, ops[0], env) && happened != [] && happened[0] == Perform(c, ops[0], env).1
      && Runs(Perform(c, ops[0], env).0, ops[1..], env, d, happened[1..])
  }

  // And every operation of it keeps the index exact.
  ghost predicate Performs(c: Coord, ops: seq<Op>, env: Env, d: Coord, happened: seq<Happening>)
    decreases |ops|
  {
    if ops == [] then d == c && happened == []
    else
      && Legal(c, ops[0], env) && KeepsIndex(c, ops[0], env)
      && happened != [] && happened[0] == Perform(c, ops[0], env).1
      && Performs(Perform(c, ops[0], env).0, ops[1..], env, d, happened[1..])
  }

  function Pairs(hs: seq<Happening>): seq<Pair> {
    if hs == [] then [] else (if hs[0].Took? then [hs[0].pair] else []) + Pairs(hs[1..])
  }

  // The identities given out climb from above `high`.
  ghost predicate GivenAbove(hs: seq<Happening>, high: u64)
    decreases |hs|
  {
    hs == [] ||
    if hs[0].Gave? then hs[0].id > high && GivenAbove(hs[1..], hs[0].id) else GivenAbove(hs[1..], high)
  }

  // --------------------------------------------------------------------------
  // Identities
  // --------------------------------------------------------------------------

  // One operation of any run: the coordinator stays orderly, an identity given is new.
  lemma {:induction false} StepOrderly(c: Coord, op: Op, env: Env)
    requires Orderly(c) && Legal(c, op, env)
    ensures var (d, h) := Perform(c, op, env);
      && Orderly(d)
      && (h.Gave? ==> h.id > c.state.grantHigh && d.state.grantHigh == h.id)
      && (!h.Gave? ==> d.state.grantHigh == c.state.grantHigh)
  {
    hide Orderly, ObtainGrant, ReportGrant, FenceGrant, CommitNeutral, Create, Recovered, Good, AllEnded, Remains,
         Inserted;
    match op
    case Acquire(decided, offer, now, maxLive) =>
      ObtainOrderly(c, decided, offer, now, maxLive, env);
      var (d, reply) := ObtainGrant(c, decided, offer, now, maxLive, env);
      assert Perform(c, op, env) == (d, if reply.Accepted? then Gave(reply.grant.id) else Nothing);
    case Report(next, id, attempt, now) =>
      ReportOrderly(c, next, id, attempt, now, env);
      var (d, reply) := ReportGrant(c, next, id, attempt, now, env);
      assert Perform(c, op, env) == (d, if reply.Accepted? then Took(Pair(id, attempt)) else Nothing);
    case End(id, kind, now) =>
      FenceOrderly(c, id, kind, now, env);
      assert Perform(c, op, env) == (FenceGrant(c, id, kind, now, env).0, Nothing);
    case CommitOther(r) => NeutralOrderly(c, r, env);
    case Restart(rep) => BootEndsExactly(rep, env);
  }

  // Over every run, restarts included and whatever retention drops, every grant identity
  // given out is above all given out before: none is ever reissued.
  lemma {:induction false} IdentitiesClimb(c: Coord, ops: seq<Op>, env: Env, d: Coord, happened: seq<Happening>)
    requires Orderly(c) && Runs(c, ops, env, d, happened)
    ensures Orderly(d) && GivenAbove(happened, c.state.grantHigh)
    decreases |ops|
  {
    hide Orderly, Perform, Legal;
    if ops != [] {
      StepOrderly(c, ops[0], env);
      IdentitiesClimb(Perform(c, ops[0], env).0, ops[1..], env, d, happened[1..]);
    }
  }

  // --------------------------------------------------------------------------
  // Attempts
  // --------------------------------------------------------------------------

  // One operation that keeps the index exact: the state stays good and a report taken is new.
  lemma {:induction false} PerformStep(c: Coord, log: seq<Pair>, op: Op, env: Env)
    requires Good(c) && Logged(c, log) && Legal(c, op, env) && KeepsIndex(c, op, env)
    ensures var (d, h) := Perform(c, op, env);
      Good(d) && Logged(d, log + (if h.Took? then [h.pair] else []))
  {
    hide Good, Logged, ObtainGrant, ReportGrant, FenceGrant, CommitNeutral, Create, Recovered, AllEnded;
    assert log + [] == log;
    match op
    case Acquire(decided, offer, now, maxLive) =>
      var (d, reply) := ObtainGrant(c, decided, offer, now, maxLive, env);
      assert Perform(c, op, env) == (d, if reply.Accepted? then Gave(reply.grant.id) else Nothing);
      ObtainStep(c, log, decided, offer, now, maxLive, env);
    case Report(next, id, attempt, now) =>
      var (d, reply) := ReportGrant(c, next, id, attempt, now, env);
      assert Perform(c, op, env) == (d, if reply.Accepted? then Took(Pair(id, attempt)) else Nothing);
      ReportStep(c, log, next, id, attempt, now, env);
    case End(id, kind, now) =>
      assert Perform(c, op, env) == (FenceGrant(c, id, kind, now, env).0, Nothing);
      FenceLogged(c, log, id, kind, now, env);
    case CommitOther(r) => NeutralStep(c, log, r, env);
    case Restart(rep) =>
      BootEndsExactly(rep, env);
      LoggedAfterBoot(c, log, Create(rep, env).value);
  }

  lemma {:induction false} FenceLogged(c: Coord, log: seq<Pair>, id: u64, kind: EndKind, now: u64, env: Env)
    requires Good(c) && Logged(c, log) && Undropped(c.state, FenceGrant(c, id, kind, now, env).0.state)
    ensures var d := FenceGrant(c, id, kind, now, env).0; Good(d) && Logged(d, log)
  {
    hide Good, Logged, FenceGrant, GrantAt;
    FenceStep(c, id, kind, now, env);
    var (d, status) := FenceGrant(c, id, kind, now, env);
    if status.None? {
      var i := GrantAt(c.state.grants, id);
      LoggedUpdate(c, log, i, Transitioned(c.state.grants[i], EndState(kind), now, 0, 0), d);
    } else {
      LoggedSame(c, log, d);
    }
  }

  // With every grant ended, nothing accepted before can be accepted again.
  lemma {:induction false} LoggedAfterBoot(c: Coord, log: seq<Pair>, d: Coord)
    requires Logged(c, log) && d.state.grantHigh == c.state.grantHigh && AllEnded(d.state.grants)
    ensures Logged(d, log)
  {
    hide Distinct;
  }

  // Over every run in which no operation drops a grant and no restart leaves one live,
  // each (grant, attempt) pair is accepted at most once.
  lemma {:induction false} AcceptedOnce(c: Coord, ops: seq<Op>, env: Env, d: Coord, happened: seq<Happening>,
                                        log: seq<Pair>)
    requires Good(c) && Logged(c, log) && Performs(c, ops, env, d, happened)
    ensures Good(d) && Distinct(log + Pairs(happened))
    decreases |ops|
  {
    hide Good, Logged, Perform, Legal, Distinct, KeepsIndex;
    if ops == [] {
      assert log + [] == log;
      LoggedDistinct(c, log);
    } else {
      PerformStep(c, log, ops[0], env);
      var (next, h) := Perform(c, ops[0], env);
      var taken := if h.Took? then [h.pair] else [];
      AcceptedOnce(next, ops[1..], env, d, happened[1..], log + taken);
      PairsJoin(log, happened);
    }
  }

  lemma {:induction false} PairsJoin(log: seq<Pair>, hs: seq<Happening>)
    requires hs != []
    ensures (log + (if hs[0].Took? then [hs[0].pair] else [])) + Pairs(hs[1..]) == log + Pairs(hs)
  {
  }

  lemma {:induction false} LoggedDistinct(c: Coord, log: seq<Pair>)
    requires Logged(c, log)
    ensures Distinct(log)
  {
  }

  // --------------------------------------------------------------------------
  // Ended grants, over every history of a store
  // --------------------------------------------------------------------------

  // Applying a record leaves every ended grant as it is, in its place.
  lemma {:induction false} ApplyLeavesEnded(s: Durable, r: Record, cfg: Config, j: nat)
    requires Apply(s, r, cfg).status.None? && j < |s.grants| && IsEnded(s.grants[j])
    ensures var gs := Apply(s, r, cfg).state.grants;
      j < |gs| && gs[j] == s.grants[j]
  {
    hide GrantAt, ContractAt, Count, IsEnded;
    match r
    case GrantIssued(g) => IssuedGrants(s, g, cfg);
    case GrantAcknowledged(id, tick, attempt, sequence) =>
      ReportBecomes(s, Acknowledged, id, tick, attempt, sequence);
      MovedWasLive(s, Acknowledged, id, tick, attempt, sequence, j);
    case GrantApplied(id, tick, attempt, sequence) =>
      ReportBecomes(s, Applied, id, tick, attempt, sequence);
      MovedWasLive(s, Applied, id, tick, attempt, sequence, j);
    case GrantEnded(k, f) =>
      EndedBecomes(s, k, f, cfg);
      WasNotEnded(s, j, GrantAt(s.grants, f.grant));
      assert Apply(s, r, cfg).state.grants[j] == s.grants[j];
    case GrantRebound(id, b) =>
      ReboundBecomes(s, id, b);
      WasNotEnded(s, j, GrantAt(s.grants, id));
      assert Apply(s, r, cfg).state.grants[j] == s.grants[j];
    case _ =>
  }

  lemma {:induction false} WasNotEnded(s: Durable, j: nat, i: nat)
    requires j < |s.grants| && i < |s.grants| && IsEnded(s.grants[j]) && s.grants[i].Live()
    ensures i != j
  {
  }

  lemma {:induction false} MovedWasLive(s: Durable, next: GrantState, id: u64, tick: u64, attempt: u64, sequence: u64,
                                        j: nat)
    requires ApplyMoved(s, id, next, tick, attempt, sequence).status.None? && j < |s.grants| && IsEnded(s.grants[j])
    ensures GrantAt(s.grants, id) != j
  {
    hide GrantAt;
  }

  // A store's history: records appended, and crashes after which the journal is replayed.
  datatype Turn = Wrote(event: Event) | Crashed

  // The live store and the replay of its journal go through the turns together. Grants are
  // issued above every identity issued before. Replay applies what was written and prunes
  // nothing; a crash puts it in the live store's place.
  ghost predicate Endures(live: Durable, rep: Durable, turns: seq<Turn>, cfg: Config, live': Durable, rep': Durable)
    decreases |turns|
  {
    if turns == [] then live' == live && rep' == rep
    else
      match turns[0]
      case Wrote(e) =>
        var wrote, replayed := Append(live, e.record, e.evidenceFull, cfg), Apply(rep, e.record, cfg);
        && Admissible(e.record, live) && !e.record.AccountingCheckpoint? && wrote.status.None?
        && (e.record.GrantIssued? ==> e.record.grant.id > live.grantHigh)
        && Endures(wrote.state, replayed.state, turns[1..], cfg, live', rep')
      case Crashed =>
        var recovered := rep.(journalSequence := live.journalSequence, journalRecords := live.journalRecords);
        Endures(recovered, rep, turns[1..], cfg, live', rep')
  }

  // Replay simulates the live store, and its identities climb to the high-water mark.
  ghost predicate Tracks(live: Durable, rep: Durable, gone: seq<Grant>, lost: seq<Fence>) {
    Simulates(live, rep, gone, lost) && IdsClimb(rep.grants) && IdsBelow(rep.grants, rep.grantHigh)
  }

  lemma {:induction false} SameHigh(live: Durable, rep: Durable, gone: seq<Grant>, lost: seq<Fence>)
    requires Simulates(live, rep, gone, lost)
    ensures live.grantHigh == rep.grantHigh
  {
    hide DistinctBy, SameCounts;
  }

  lemma {:induction false} AboveIsNew(gs: seq<Grant>, high: u64, id: u64)
    requires IdsBelow(gs, high) && id > high
    ensures !Known(id, gs)
  {
  }

  lemma {:induction false} WriteTracks(live: Durable, rep: Durable, gone: seq<Grant>, lost: seq<Fence>, e: Event,
                                       cfg: Config)
    returns (gone': seq<Grant>, lost': seq<Fence>)
    requires Tracks(live, rep, gone, lost) && Append(live, e.record, e.evidenceFull, cfg).status.None?
    requires !e.record.AccountingCheckpoint? && (e.record.GrantIssued? ==> e.record.grant.id > live.grantHigh)
    ensures Apply(rep, e.record, cfg).status.None?
    ensures Tracks(Append(live, e.record, e.evidenceFull, cfg).state, Apply(rep, e.record, cfg).state, gone', lost')
  {
    hide Simulates, Apply, Append, Known, IdsClimb, IdsBelow;
    SameHigh(live, rep, gone, lost);
    if e.record.GrantIssued? { AboveIsNew(rep.grants, rep.grantHigh, e.record.grant.id); }
    gone', lost' := AppendInStep(live, rep, e, cfg, gone, lost);
    ApplyClimbs(rep, e.record, cfg);
  }

  lemma {:induction false} CrashTracks(live: Durable, rep: Durable, gone: seq<Grant>, lost: seq<Fence>)
    requires Tracks(live, rep, gone, lost)
    ensures Tracks(rep.(journalSequence := live.journalSequence, journalRecords := live.journalRecords), rep, [], [])
  {
    hide DistinctBy, IdsClimb, IdsBelow;
    assert rep.grants + [] == rep.grants && rep.fences + [] == rep.fences;
  }

  // Through any number of crashes, live state and replay agree on everything but pruned
  // history.
  lemma {:induction false} SimulatesThroughout(live: Durable, rep: Durable, gone: seq<Grant>, lost: seq<Fence>,
                                               turns: seq<Turn>, cfg: Config, live': Durable, rep': Durable)
    returns (gone': seq<Grant>, lost': seq<Fence>)
    requires Tracks(live, rep, gone, lost) && Endures(live, rep, turns, cfg, live', rep')
    ensures Tracks(live', rep', gone', lost')
    decreases |turns|
  {
    hide Tracks, Apply, Append, Admissible;
    if turns == [] {
      gone', lost' := gone, lost;
    } else if turns[0].Wrote? {
      var e := turns[0].event;
      var g, l := WriteTracks(live, rep, gone, lost, e, cfg);
      var wrote, replayed := Append(live, e.record, e.evidenceFull, cfg).state, Apply(rep, e.record, cfg).state;
      gone', lost' := SimulatesThroughout(wrote, replayed, g, l, turns[1..], cfg, live', rep');
    } else {
      CrashTracks(live, rep, gone, lost);
      var recovered := rep.(journalSequence := live.journalSequence, journalRecords := live.journalRecords);
      gone', lost' := SimulatesThroughout(recovered, rep, [], [], turns[1..], cfg, live', rep');
    }
  }

  // Replay never moves or changes an ended grant.
  lemma {:induction false} EndedInReplay(live: Durable, rep: Durable, gone: seq<Grant>, lost: seq<Fence>,
                                         turns: seq<Turn>, cfg: Config, live': Durable, rep': Durable, j: nat)
    requires Tracks(live, rep, gone, lost) && Endures(live, rep, turns, cfg, live', rep')
    requires j < |rep.grants| && IsEnded(rep.grants[j])
    ensures j < |rep'.grants| && rep'.grants[j] == rep.grants[j]
    decreases |turns|
  {
    hide Tracks, Apply, Append, Admissible, IsEnded;
    if turns != [] {
      if turns[0].Wrote? {
        var e := turns[0].event;
        var g, l := WriteTracks(live, rep, gone, lost, e, cfg);
        ApplyLeavesEnded(rep, e.record, cfg, j);
        var wrote, replayed := Append(live, e.record, e.evidenceFull, cfg).state, Apply(rep, e.record, cfg).state;
        EndedInReplay(wrote, replayed, g, l, turns[1..], cfg, live', rep', j);
      } else {
        CrashTracks(live, rep, gone, lost);
        var recovered := rep.(journalSequence := live.journalSequence, journalRecords := live.journalRecords);
        EndedInReplay(recovered, rep, [], [], turns[1..], cfg, live', rep', j);
      }
    }
  }

  lemma {:induction false} LiveIsReplayed(live: Durable, rep: Durable, gone: seq<Grant>, lost: seq<Fence>, g: Grant)
    requires Tracks(live, rep, gone, lost) && g in live.grants
    ensures g in rep.grants && DistinctBy(GrantKey, rep.grants)
  {
    hide DistinctBy, SameHead, SameCounts, IdsClimb, IdsBelow;
    assert g in multiset(live.grants + gone);
  }

  lemma {:induction false} FrozenFrom(live: Durable, rep: Durable, gone: seq<Grant>, lost: seq<Fence>,
                                      turns: seq<Turn>, cfg: Config, live': Durable, rep': Durable, g: Grant,
                                      h: Grant)
    requires Tracks(live, rep, gone, lost) && Endures(live, rep, turns, cfg, live', rep')
    requires g in live.grants && IsEnded(g) && h in live'.grants && h.id == g.id
    ensures h == g
  {
    hide Tracks, Endures, DistinctBy, IsEnded;
    LiveIsReplayed(live, rep, gone, lost, g);
    var j :| 0 <= j < |rep.grants| && rep.grants[j] == g;
    EndedInReplay(live, rep, gone, lost, turns, cfg, live', rep', j);
    var gone', lost' := SimulatesThroughout(live, rep, gone, lost, turns, cfg, live', rep');
    LiveIsReplayed(live', rep', gone', lost', h);
    var k :| 0 <= k < |rep'.grants| && rep'.grants[k] == h;
    OnePlace(rep'.grants, j, k);
  }

  // A grant that has ended is, at every later point of every history, crashes included,
  // unchanged or gone.
  lemma {:induction false} EndedForever(s: Durable, before: seq<Turn>, live: Durable, rep: Durable, after: seq<Turn>,
                                        cfg: Config, live': Durable, rep': Durable, g: Grant, h: Grant)
    requires Fresh(s) && Endures(s, s, before, cfg, live, rep) && Endures(live, rep, after, cfg, live', rep')
    requires g in live.grants && IsEnded(g) && h in live'.grants && h.id == g.id
    ensures h == g
  {
    hide Tracks, Endures, IsEnded, Fresh;
    FreshTracks(s);
    var gone, lost := SimulatesThroughout(s, s, [], [], before, cfg, live, rep);
    FrozenFrom(live, rep, gone, lost, after, cfg, live', rep', g, h);
  }

  lemma {:induction false} FreshTracks(s: Durable)
    requires Fresh(s)
    ensures Tracks(s, s, [], [])
  {
    hide Simulates, AllZero;
    FreshSimulates(s);
  }

  // --------------------------------------------------------------------------
  // What recovery hands over
  // --------------------------------------------------------------------------

  // The state with n records behind it.
  function At(s: Durable, n: nat): Durable {
    s.(journalSequence := n, journalRecords := n)
  }

  // Applying a record does not look at the journal position.
  lemma {:induction false} ApplyAt(s: Durable, r: Record, cfg: Config, n: nat)
    ensures Apply(At(s, n), r, cfg) == Effect(At(Apply(s, r, cfg).state, n), Apply(s, r, cfg).status)
  {
    hide GrantAt, ContractAt, Count, ApplyMoved, ApplyEnded, CountDecision, ApplyBoot;
    match r
    case GrantEnded(k, f) => EndedAt(s, k, f, n);
    case GrantAcknowledged(id, tick, attempt, sequence) => MovedAt(s, id, Acknowledged, tick, attempt, sequence, n);
    case GrantApplied(id, tick, attempt, sequence) => MovedAt(s, id, Applied, tick, attempt, sequence, n);
    case DecisionRecorded(d) => DecidedAt(s, d, cfg, n);
    case BootAdvanced(boot, term, tick) => BootAt(s, boot, term, tick, n);
    case _ =>
  }

  lemma {:induction false} EndedAt(s: Durable, k: EndKind, f: Fence, n: nat)
    ensures ApplyEnded(At(s, n), k, f) == Effect(At(ApplyEnded(s, k, f).state, n), ApplyEnded(s, k, f).status)
  {
    hide GrantAt, Allowed;
  }

  lemma {:induction false} MovedAt(s: Durable, id: u64, next: GrantState, tick: u64, attempt: u64, sequence: u64,
                                   n: nat)
    ensures var e := ApplyMoved(s, id, next, tick, attempt, sequence);
      ApplyMoved(At(s, n), id, next, tick, attempt, sequence) == Effect(At(e.state, n), e.status)
  {
    hide GrantAt, Allowed;
  }

  lemma {:induction false} DecidedAt(s: Durable, d: Decision, cfg: Config, n: nat)
    ensures var e := Apply(s, DecisionRecorded(d), cfg);
      Apply(At(s, n), DecisionRecorded(d), cfg) == Effect(At(e.state, n), e.status)
  {
  }

  lemma {:induction false} BootAt(s: Durable, boot: u64, term: u64, tick: u64, n: nat)
    ensures var e := ApplyBoot(s, boot, term, tick);
      ApplyBoot(At(s, n), boot, term, tick) == Effect(At(e.state, n), e.status)
  {
  }

  // Issued identities climb from above `high`.
  ghost predicate IssuedClimb(events: seq<Event>, high: u64)
    decreases |events|
  {
    events == [] ||
    var r := events[0].record;
    && !r.AccountingCheckpoint? && (r.GrantIssued? ==> r.grant.state.Issued? && r.grant.id > high)
    && IssuedClimb(events[1..], if r.GrantIssued? then r.grant.id else high)
  }

  lemma {:induction false} ApplyClimbs(s: Durable, r: Record, cfg: Config)
    requires Apply(s, r, cfg).status.None? && IdsClimb(s.grants) && IdsBelow(s.grants, s.grantHigh)
    requires r.GrantIssued? ==> r.grant.id > s.grantHigh
    ensures var t := Apply(s, r, cfg).state;
      IdsClimb(t.grants) && IdsBelow(t.grants, t.grantHigh) && t.grantHigh == if r.GrantIssued? then r.grant.id
        else s.grantHigh
  {
    hide GrantAt, ContractAt, Count, IdsClimb, IdsBelow;
    match r
    case GrantIssued(g) =>
      IssuedGrants(s, g, cfg);
      ClimbPush(s.grants, g, s.grantHigh);
    case GrantAcknowledged(id, tick, attempt, sequence) =>
      ReportBecomes(s, Acknowledged, id, tick, attempt, sequence);
      ClimbsOn(s, GrantAt(s.grants, id),
               Transitioned(s.grants[GrantAt(s.grants, id)], Acknowledged, tick, attempt, sequence));
    case GrantApplied(id, tick, attempt, sequence) =>
      ReportBecomes(s, Applied, id, tick, attempt, sequence);
      ClimbsOn(s, GrantAt(s.grants, id),
               Transitioned(s.grants[GrantAt(s.grants, id)], Applied, tick, attempt, sequence));
    case GrantEnded(k, f) =>
      EndedBecomes(s, k, f, cfg);
      ClimbsOn(s, GrantAt(s.grants, f.grant),
               Transitioned(s.grants[GrantAt(s.grants, f.grant)], EndState(k), f.tick, 0, 0));
    case GrantRebound(id, b) =>
      ReboundBecomes(s, id, b);
      ClimbsOn(s, GrantAt(s.grants, id), s.grants[GrantAt(s.grants, id)].(binding := b));
    case _ =>
  }

  lemma {:induction false} ClimbsOn(s: Durable, i: nat, g: Grant)
    requires IdsClimb(s.grants) && IdsBelow(s.grants, s.grantHigh) && i < |s.grants| && g.id == s.grants[i].id
    ensures IdsClimb(s.grants[i := g]) && IdsBelow(s.grants[i := g], s.grantHigh)
  {
    ClimbUpdate(s.grants, i, g);
    BelowUpdate(s.grants, i, g, s.grantHigh);
  }

  // Replaying records whose issued identities climb yields a state a restart can use.
  lemma {:induction false} ReplayRecovers(s: Durable, events: seq<Event>, cfg: Config, t: Durable, n: nat)
    requires Recovered(At(s, n)) && ReplaysTo(s, events, cfg, t) && IssuedClimb(events, s.grantHigh)
    requires n + |events| <= U64_MAX
    ensures Recovered(At(t, n + |events|))
    decreases |events|
  {
    hide Apply, Sound, IdsClimb, IdsBelow, Roomy, Keeps;
    if events != [] {
      var r := events[0].record;
      var next := Apply(s, r, cfg);
      var m := Numbered(At(s, n));
      NumberedRoomy(At(s, n));
      ApplyAt(s, r, cfg, n + 1);
      ApplyKeeps(m, r, cfg);
      KeepsSound(m, Apply(m, r, cfg));
      ApplyClimbs(s, r, cfg);
      ReplayRecovers(next.state, events[1..], cfg, t, n + 1);
    }
  }

  // The replay of any live run is such a state, and remembers the same identities.
  lemma {:induction false} CrashLeavesRecoverable(s: Durable, events: seq<Event>, cfg: Config, end: Durable)
    returns (rep: Durable)
    requires Fresh(s) && RunsTo(s, events, cfg, end) && FreshIdentities(events, []) && IssuedClimb(events, 0)
    requires |events| <= U64_MAX
    ensures ReplaysTo(s, events, cfg, rep) && Recovered(At(rep, |events|)) && rep.grantHigh == end.grantHigh
    ensures multiset(Filter(IsLive, rep.grants)) == multiset(Filter(IsLive, end.grants))
  {
    hide RunsTo, ReplaysTo, FreshIdentities, IssuedClimb, Recovered, Filter, SameCounts, DistinctBy, AllZero;
    var gone, lost;
    rep, gone, lost := ReplayAgrees(s, events, cfg, end);
    FreshRecovered(s);
    ReplayRecovers(s, events, cfg, rep, 0);
  }

  lemma {:induction false} FreshRecovered(s: Durable)
    requires Fresh(s)
    ensures Recovered(At(s, 0))
  {
    hide Sound, AllZero;
    FreshIsSound(s);
    assert At(s, 0) == s;
  }
}
