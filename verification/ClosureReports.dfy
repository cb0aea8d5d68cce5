// When the runtime's own check of its counters passes (check_closure in
// src/runtime/accounting.cpp). A grant may be applied without having been acknowledged,
// and the check compares totals, so what decides it is how the run's records balance.
module ClosureReports {
  import opened Core
  import opened Grants
  import opened Store
  import opened Closure
  import opened Sorting

  predicate IsAcknowledged(g: Grant) { g.state.Acknowledged? }

  // The record finds its grant in a state of this kind.
  predicate Finds(s: Durable, id: u64, p: Grant -> bool) {
    GrantAt(s.grants, id) < |s.grants| && p(s.grants[GrantAt(s.grants, id)])
  }

  // The record applies a grant that was never acknowledged.
  predicate Skips(s: Durable, r: Record) {
    r.GrantApplied? && Finds(s, r.grantId, IsIssued)
  }

  // The record ends a grant that was acknowledged and never applied.
  predicate Forgoes(s: Durable, r: Record) {
    r.GrantEnded? && Finds(s, r.fence.grant, IsAcknowledged)
  }

  // How often that happens in a run.
  function CountSkips(s: Durable, events: seq<Event>, cfg: Config): nat
    decreases |events|
  {
    if events == [] then 0
    else
      var e := events[0];
      One(Skips(s, e.record)) + CountSkips(Append(s, e.record, e.evidenceFull, cfg).state, events[1..], cfg)
  }

  function CountForgone(s: Durable, events: seq<Event>, cfg: Config): nat
    decreases |events|
  {
    if events == [] then 0
    else
      var e := events[0];
      One(Forgoes(s, e.record)) + CountForgone(Append(s, e.record, e.evidenceFull, cfg).state, events[1..], cfg)
  }

  // --------------------------------------------------------------------------
  // One record
  // --------------------------------------------------------------------------

  // Between two states: applications and acknowledgements balance.
  ghost predicate Balanced(s: Durable, t: Durable, skips: nat, forgone: nat) {
    t.counters.applied + forgone + Count(IsAcknowledged, t.grants) + s.counters.acknowledged
    == s.counters.applied + skips + Count(IsAcknowledged, s.grants) + t.counters.acknowledged
  }

  lemma {:induction false} ReportBalances(s: Durable, id: u64, next: GrantState, tick: u64, attempt: u64, sequence: u64)
    requires (next.Acknowledged? || next.Applied?) && ApplyMoved(s, id, next, tick, attempt, sequence).status.None?
    ensures Balanced(s, ApplyMoved(s, id, next, tick, attempt, sequence).state,
      One(next.Applied? && Finds(s, id, IsIssued)), 0)
  {
    hide Count, GrantAt;
    var i := GrantAt(s.grants, id);
    CountUpdate(IsAcknowledged, s.grants, i, Transitioned(s.grants[i], next, tick, attempt, sequence));
  }

  lemma {:induction false} EndBalances(s: Durable, k: EndKind, f: Fence)
    requires ApplyEnded(s, k, f).status.None?
    ensures Balanced(s, ApplyEnded(s, k, f).state, 0, One(Finds(s, f.grant, IsAcknowledged)))
  {
    hide Count, GrantAt;
    var i := GrantAt(s.grants, f.grant);
    CountUpdate(IsAcknowledged, s.grants, i, Transitioned(s.grants[i], EndState(k), f.tick, 0, 0));
  }

  lemma {:induction false} ReboundBalances(s: Durable, id: u64, b: Binding)
    requires ApplyRebound(s, id, b).status.None?
    ensures Balanced(s, ApplyRebound(s, id, b).state, 0, 0)
  {
    hide Count, GrantAt;
    var i := GrantAt(s.grants, id);
    CountUpdate(IsAcknowledged, s.grants, i, s.grants[i].(binding := b));
  }

  lemma {:induction false} ApplyBalances(s: Durable, r: Record, cfg: Config)
    requires Admissible(r, s) && Apply(s, r, cfg).status.None?
    ensures Balanced(s, Apply(s, r, cfg).state, One(Skips(s, r)), One(Forgoes(s, r)))
  {
    hide Count, GrantAt, ContractAt, ApplyMoved, ApplyEnded, ApplyRebound, Finds;
    match r
    case GrantIssued(g) => CountPush(IsAcknowledged, s.grants, g);
    case GrantAcknowledged(id, tick, attempt, sequence) => ReportBalances(s, id, Acknowledged, tick, attempt, sequence);
    case GrantApplied(id, tick, attempt, sequence) => ReportBalances(s, id, Applied, tick, attempt, sequence);
    case GrantEnded(k, f) => EndBalances(s, k, f);
    case GrantRebound(id, b) => ReboundBalances(s, id, b);
    case _ =>
  }

  // Retention takes no acknowledged grant and touches neither counter.
  lemma {:induction false} PruneBalances(s: Durable, cfg: Config)
    ensures Balanced(s, Prune(s, cfg).state, 0, 0)
  {
    hide Count, KeptGrants, Dropped, SortBy;
    var gone := RetentionSplits(s.grants, cfg);
    CountJoined(IsAcknowledged, s.grants, KeptGrants(s.grants, cfg), gone);
    CountNone(IsAcknowledged, gone);
  }

  lemma {:induction false} AppendBalances(s: Durable, r: Record, evidenceFull: bool, cfg: Config)
    requires Admissible(r, s) && Append(s, r, evidenceFull, cfg).status.None?
    ensures Balanced(s, Append(s, r, evidenceFull, cfg).state, One(Skips(s, r)), One(Forgoes(s, r)))
  {
    hide Count, GrantAt, Apply, Prune, Overfull;
    var n := s.(journalSequence := s.journalSequence + 1, journalRecords := s.journalRecords + 1);
    ApplyBalances(n, r, cfg);
    PruneBalances(Apply(n, r, cfg).state, cfg);
  }

  // --------------------------------------------------------------------------
  // Runs
  // --------------------------------------------------------------------------

  lemma {:induction false} RunBalances(s: Durable, events: seq<Event>, cfg: Config, t: Durable)
    requires RunsTo(s, events, cfg, t)
    ensures Balanced(s, t, CountSkips(s, events, cfg), CountForgone(s, events, cfg))
    decreases |events|
  {
    hide Count, Append, Skips, Forgoes, Admissible;
    if events != [] {
      var e := events[0];
      AppendBalances(s, e.record, e.evidenceFull, cfg);
      RunBalances(Append(s, e.record, e.evidenceFull, cfg).state, events[1..], cfg, t);
    }
  }

  // In every state reached from a new store, the check passes exactly when the grants
  // applied without an acknowledgement are no more than the grants acknowledged and never
  // applied, ended ones included.
  lemma {:induction false} CheckPassesIff(s: Durable, events: seq<Event>, cfg: Config, t: Durable)
    requires Fresh(s) && RunsTo(s, events, cfg, t)
    ensures ClosureReported(t) <==>
      CountSkips(s, events, cfg) <= CountForgone(s, events, cfg) + Count(IsAcknowledged, t.grants)
  {
    hide RunsTo, ClosureReported, Count, CountSkips, CountForgone;
    ReportedIffAppliedBelow(s, events, cfg, t);
    RunBalances(s, events, cfg, t);
    NothingCounted(s);
  }

  lemma {:induction false} NothingCounted(s: Durable)
    requires Fresh(s)
    ensures s.counters.applied == 0 && s.counters.acknowledged == 0 && Count(IsAcknowledged, s.grants) == 0
  {
    hide Count;
    CountNone(IsAcknowledged, s.grants);
  }

  // Every application of the run finds its grant acknowledged.
  ghost predicate AcknowledgedFirst(s: Durable, events: seq<Event>, cfg: Config)
    decreases |events|
  {
    events == [] ||
    var e := events[0];
    && (e.record.GrantApplied? ==> Finds(s, e.record.grantId, IsAcknowledged))
    && AcknowledgedFirst(Append(s, e.record, e.evidenceFull, cfg).state, events[1..], cfg)
  }

  lemma {:induction false} NothingSkipped(s: Durable, events: seq<Event>, cfg: Config)
    requires AcknowledgedFirst(s, events, cfg)
    ensures CountSkips(s, events, cfg) == 0
    decreases |events|
  {
    hide Append, GrantAt;
    if events != [] {
      var e := events[0];
      NothingSkipped(Append(s, e.record, e.evidenceFull, cfg).state, events[1..], cfg);
    }
  }

  // A run that acknowledges every grant before applying it always passes the check.
  lemma {:induction false} AcknowledgingRunsPass(s: Durable, events: seq<Event>, cfg: Config, t: Durable)
    requires Fresh(s) && RunsTo(s, events, cfg, t) && AcknowledgedFirst(s, events, cfg)
    ensures ClosureReported(t)
  {
    hide RunsTo, ClosureReported, Count, CountSkips, CountForgone, AcknowledgedFirst;
    NothingSkipped(s, events, cfg);
    CheckPassesIff(s, events, cfg, t);
  }

  // --------------------------------------------------------------------------
  // A run that does not pass
  // --------------------------------------------------------------------------

  lemma {:induction false} ApplyDirectly(s: Durable, g: Grant, tick: u64, attempt: u64)
    requires s.grants == [g] && g.state.Issued? && s.counters.applied == 0
    ensures var e := ApplyMoved(s, g.id, Applied, tick, attempt, 0);
      e.status.None? && e.state.counters == s.counters.(applied := 1) && |e.state.grants| == 1
      && e.state == s.(grants := e.state.grants, counters := e.state.counters)
  {
    assert GrantAt(s.grants, g.id) == 0;
  }

  lemma {:induction false} SmallIsNotOverfull(s: Durable, cfg: Config)
    requires |s.grants| <= cfg.maxGrants && |s.fences| <= cfg.maxFences && |s.decisions| <= cfg.maxDecisions
    ensures !Overfull(s, cfg)
  {
  }

  lemma {:induction false} AppendSmall(s: Durable, r: Record, cfg: Config, n: Durable, e: Effect)
    requires s.journalSequence < U64_MAX && s.journalRecords < U64_MAX
    requires n == s.(journalSequence := s.journalSequence + 1, journalRecords := s.journalRecords + 1)
    requires e == Apply(n, r, cfg) && e.status.None? && !Overfull(e.state, cfg)
    ensures Append(s, r, false, cfg) == e
  {
    hide Apply, Overfull, Prune;
  }

  lemma {:induction false} IssueNumbered(n: Durable, g: Grant, cfg: Config)
    requires n.grants == [] && n.counters.issued == 0 && cfg.maxGrants > 0
    ensures ApplyIssued(n, g, cfg) ==
      Success(n.(grants := [g], grantHigh := Max(n.grantHigh, g.id), counters := n.counters.(issued := 1)))
  {
    hide Count;
    CountNone(IsLive, n.grants);
    assert [] + [g] == [g];
  }

  lemma {:induction false} IssueFirst(s: Durable, g: Grant, cfg: Config)
    requires Fresh(s) && cfg.maxGrants > 0
    ensures var e := Append(s, GrantIssued(g), false, cfg);
      && e.status.None? && e.state.grants == [g] && e.state.fences == [] && e.state.decisions == []
      && e.state.counters == s.counters.(issued := 1) && e.state.journalSequence == 1 && e.state.journalRecords == 1
  {
    hide ApplyIssued, Overfull, Append;
    var n := s.(journalSequence := s.journalSequence + 1, journalRecords := s.journalRecords + 1);
    IssueNumbered(n, g, cfg);
    var e := Apply(n, GrantIssued(g), cfg);
    SmallIsNotOverfull(e.state, cfg);
    AppendSmall(s, GrantIssued(g), cfg, n, e);
  }

  lemma {:induction false} ApplySecond(s: Durable, g: Grant, cfg: Config)
    requires s.grants == [g] && s.fences == [] && s.decisions == [] && g.state.Issued? && s.counters.applied == 0
    requires s.journalSequence == 1 && s.journalRecords == 1 && cfg.maxGrants > 0
    ensures var e := Append(s, GrantApplied(g.id, 1, 1, 0), false, cfg);
      e.status.None? && e.state.counters == s.counters.(applied := 1)
  {
    hide ApplyMoved, Overfull, Append;
    var n := s.(journalSequence := s.journalSequence + 1, journalRecords := s.journalRecords + 1);
    ApplyDirectly(n, g, 1, 1);
    var e := Apply(n, GrantApplied(g.id, 1, 1, 0), cfg);
    SmallIsNotOverfull(e.state, cfg);
    AppendSmall(s, GrantApplied(g.id, 1, 1, 0), cfg, n, e);
  }

  lemma {:induction false} TwoSteps(s: Durable, a: Event, b: Event, cfg: Config)
    requires Admissible(a.record, s) && Append(s, a.record, a.evidenceFull, cfg).status.None?
    requires var mid := Append(s, a.record, a.evidenceFull, cfg).state;
      Admissible(b.record, mid) && Append(mid, b.record, b.evidenceFull, cfg).status.None?
    ensures var mid := Append(s, a.record, a.evidenceFull, cfg).state;
      RunsTo(s, [a, b], cfg, Append(mid, b.record, b.evidenceFull, cfg).state)
  {
    hide Append, Admissible;
    var mid := Append(s, a.record, a.evidenceFull, cfg).state;
    var t := Append(mid, b.record, b.evidenceFull, cfg).state;
    assert [a, b][1..] == [b] && [b][1..] == [];
    assert RunsTo(t, [], cfg, t);
    assert RunsTo(mid, [b], cfg, t);
  }

  // A grant applied without being acknowledged is legal, and the runtime's own check
  // then reports a violation: every store has such a two-record run.
  lemma {:induction false} DirectApplicationIsReported(s: Durable, g: Grant, cfg: Config) returns (t: Durable)
    requires Fresh(s) && g.state.Issued? && cfg.maxGrants > 0
    ensures RunsTo(s, [Event(GrantIssued(g), false), Event(GrantApplied(g.id, 1, 1, 0), false)], cfg, t)
    ensures t.counters.applied == 1 && t.counters.acknowledged == 0 && !ClosureReported(t)
  {
    hide Append, Apply, ClosureReported, RunsTo;
    var one, two := Event(GrantIssued(g), false), Event(GrantApplied(g.id, 1, 1, 0), false);
    IssueFirst(s, g, cfg);
    var mid := Append(s, one.record, false, cfg).state;
    ApplySecond(mid, g, cfg);
    t := Append(mid, two.record, false, cfg).state;
    TwoSteps(s, one, two, cfg);
    ReportedIffAppliedBelow(s, [one, two], cfg, t);
  }
}
