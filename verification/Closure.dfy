// The accounting closure identities (src/runtime/accounting.cpp): exact in every
// state reachable by records and prunes, and never left half updated.
module Closure {
  import opened Core
  import opened Assessments
  import opened Grants
  import opened Store
  import opened Sorting
  import opened Sums

  predicate IsIssued(g: Grant) { g.state.Issued? }
  predicate IsUnapplied(g: Grant) { g.state.Issued? || g.state.Acknowledged? }

  function DecisionSum(c: Counters): nat {
    c.decisionsFull + c.decisionsDegraded + c.decisionsRefused + c.decisionsEscalated + c.decisionsUnsupported
    + c.decisionsIndeterminate + c.decisionsInvalid
  }

  function Ended(c: Counters): nat {
    c.fenced + c.expired + c.revoked
  }

  // The identities between the counters and what is retained.
  ghost predicate Closed(s: Durable) {
    var c := s.counters;
    && c.decisionsTotal == DecisionSum(c)
    && c.issued == Count(IsLive, s.grants) + Count(IsEnded, s.grants) + c.pruned
    && Ended(c) == Count(IsEnded, s.grants) + c.pruned
    && c.fencesTotal == |s.fences| + c.fencesPruned
    && c.fencesTotal == Ended(c)
    && c.acknowledged + Count(IsIssued, s.grants) <= c.issued
    && c.applied + Count(IsUnapplied, s.grants) <= c.issued
  }

  // Every record moves every counter by at most one.
  ghost predicate Within(c: Counters, bootCount: nat, n: nat) {
    && c.decisionsTotal <= n && c.issued <= n && c.acknowledged <= n && c.applied <= n
    && c.fencesTotal <= n && c.tornTails <= n && c.boots <= n && c.termAdvances <= n && bootCount <= n
  }

  ghost predicate Sound(s: Durable) {
    Closed(s) && Within(s.counters, s.bootCount, s.journalRecords) && s.journalRecords <= U64_MAX
  }

  // New grants start at the beginning of their lifecycle, and a checkpoint repeats the
  // counters it was taken from.
  ghost predicate Admissible(r: Record, s: Durable) {
    && (r.GrantIssued? ==> r.grant.state.Issued?)
    && (r.AccountingCheckpoint? ==> r.counters == s.counters)
  }

  // --------------------------------------------------------------------------
  // Counting
  // --------------------------------------------------------------------------

  function One(b: bool): nat { if b then 1 else 0 }

  lemma {:induction false} CountPush(p: Grant -> bool, gs: seq<Grant>, g: Grant)
    ensures Count(p, gs + [g]) == Count(p, gs) + One(p(g))
  {
    SumAppend(Tally(p), gs, [g]);
    assert SumBy(Tally(p), [g]) == Tally(p)(g) + SumBy(Tally(p), [g][1..]);
  }

  lemma {:induction false} CountUpdate(p: Grant -> bool, gs: seq<Grant>, i: nat, g: Grant)
    requires i < |gs|
    ensures Count(p, gs[i := g]) + One(p(gs[i])) == Count(p, gs) + One(p(g))
  {
    var t := gs[i := g];
    SumRemove(Tally(p), gs, i);
    SumRemove(Tally(p), t, i);
    assert t[..i] + t[i + 1..] == gs[..i] + gs[i + 1..];
  }

  lemma {:induction false} CountAll(p: Grant -> bool, gs: seq<Grant>)
    requires forall g | g in gs :: p(g)
    ensures Count(p, gs) == |gs|
  {
    if gs != [] {
      assert gs[0] in gs;
      CountAll(p, gs[1..]);
    }
  }

  lemma {:induction false} CountNone(p: Grant -> bool, gs: seq<Grant>)
    requires forall g | g in gs :: !p(g)
    ensures Count(p, gs) == 0
  {
    if gs != [] {
      assert gs[0] in gs;
      CountNone(p, gs[1..]);
    }
  }

  lemma {:induction false} CountJoined(p: Grant -> bool, gs: seq<Grant>, a: seq<Grant>, b: seq<Grant>)
    requires multiset(gs) == multiset(a + b)
    ensures Count(p, gs) == Count(p, a) + Count(p, b)
  {
    SumPermutes(Tally(p), gs, a + b);
    SumAppend(Tally(p), a, b);
  }

  // --------------------------------------------------------------------------
  // Records
  // --------------------------------------------------------------------------

  // What applying one record to a numbered state does: everything or nothing.
  ghost predicate Keeps(s: Durable, e: Effect) {
    && (e.status.Some? ==> e.state == s && e.status != Some(Overflow))
    && (e.status.None? ==> Closed(e.state) && Within(e.state.counters, e.state.bootCount, s.journalRecords)
                           && e.state.journalRecords == s.journalRecords)
  }

  // There is room for one more of anything.
  ghost predicate Roomy(s: Durable) {
    && Closed(s) && 0 < s.journalRecords <= U64_MAX
    && Within(s.counters, s.bootCount, s.journalRecords - 1)
  }

  lemma {:induction false} IssuedKeeps(s: Durable, g: Grant, cfg: Config)
    requires Roomy(s) && g.state.Issued?
    ensures Keeps(s, ApplyIssued(s, g, cfg))
  {
    hide Count, GrantAt;
    CountPush(IsLive, s.grants, g);
    CountPush(IsEnded, s.grants, g);
    CountPush(IsIssued, s.grants, g);
    CountPush(IsUnapplied, s.grants, g);
  }

  // Changing one grant in place, in terms of the four counts.
  lemma {:induction false} Moved(gs: seq<Grant>, i: nat, g: Grant)
    requires i < |gs|
    ensures var t := gs[i := g];
      && Count(IsLive, t) + One(IsLive(gs[i])) == Count(IsLive, gs) + One(IsLive(g))
      && Count(IsEnded, t) + One(IsEnded(gs[i])) == Count(IsEnded, gs) + One(IsEnded(g))
      && Count(IsIssued, t) + One(IsIssued(gs[i])) == Count(IsIssued, gs) + One(IsIssued(g))
      && Count(IsUnapplied, t) + One(IsUnapplied(gs[i])) == Count(IsUnapplied, gs) + One(IsUnapplied(g))
  {
    hide Count, One;
    CountUpdate(IsLive, gs, i, g);
    CountUpdate(IsEnded, gs, i, g);
    CountUpdate(IsIssued, gs, i, g);
    CountUpdate(IsUnapplied, gs, i, g);
  }

  lemma {:induction false} MovedKeeps(s: Durable, id: u64, next: GrantState, tick: u64, attempt: u64, sequence: u64)
    requires Roomy(s) && (next.Acknowledged? || next.Applied?)
    ensures Keeps(s, ApplyMoved(s, id, next, tick, attempt, sequence))
  {
    hide Count, GrantAt;
    var i := GrantAt(s.grants, id);
    if i < |s.grants| {
      Moved(s.grants, i, Transitioned(s.grants[i], next, tick, attempt, sequence));
    }
  }

  lemma {:induction false} EndedKeeps(s: Durable, k: EndKind, f: Fence)
    requires Roomy(s)
    ensures Keeps(s, ApplyEnded(s, k, f))
  {
    hide Count, GrantAt;
    var i := GrantAt(s.grants, f.grant);
    if i < |s.grants| {
      Moved(s.grants, i, Transitioned(s.grants[i], EndState(k), f.tick, 0, 0));
    }
  }

  lemma {:induction false} ReboundKeeps(s: Durable, id: u64, b: Binding)
    requires Roomy(s)
    ensures Keeps(s, ApplyRebound(s, id, b))
  {
    hide Count, GrantAt;
    var i := GrantAt(s.grants, id);
    if i < |s.grants| {
      Moved(s.grants, i, s.grants[i].(binding := b));
    }
  }

  lemma {:induction false} OutcomeCounted(c: Counters, o: Outcome)
    ensures DecisionCount(c, o) <= DecisionSum(c)
    ensures DecisionSum(SetDecisionCount(c, o, DecisionCount(c, o) + 1)) == DecisionSum(c) + 1
    ensures SetDecisionCount(c, o, DecisionCount(c, o) + 1).decisionsTotal == c.decisionsTotal
  {
  }

  lemma {:induction false} DecisionKeeps(s: Durable, d: Decision)
    requires Roomy(s)
    ensures Keeps(s,
      CountDecision(s.(decisions := s.decisions + [d], decisionHigh := Max(s.decisionHigh, d.id)), d.outcome))
  {
    hide Count, DecisionCount, DecisionSum;
    OutcomeCounted(s.counters, d.outcome);
    OutcomeCounted(s.counters.(decisionsTotal := s.counters.decisionsTotal + 1), d.outcome);
    SameOutcomes(s.counters, d.outcome);
  }

  lemma {:induction false} SameOutcomes(c: Counters, o: Outcome)
    ensures DecisionSum(c.(decisionsTotal := c.decisionsTotal + 1)) == DecisionSum(c)
    ensures DecisionCount(c.(decisionsTotal := c.decisionsTotal + 1), o) == DecisionCount(c, o)
  {
  }

  lemma {:induction false} BootKeeps(s: Durable, boot: u64, term: u64, tick: u64)
    requires Roomy(s)
    ensures Keeps(s, ApplyBoot(s, boot, term, tick))
  {
    hide Count;
  }

  // Applying a record keeps the identities, or changes nothing at all; no counter can
  // overflow half way through an update.
  lemma {:induction false} ApplyKeeps(s: Durable, r: Record, cfg: Config)
    requires Roomy(s) && Admissible(r, s)
    ensures Keeps(s, Apply(s, r, cfg))
  {
    hide Count, ApplyIssued, ApplyMoved, ApplyEnded, ApplyRebound, CountDecision, ApplyBoot, ContractAt;
    match r
    case GrantIssued(g) => IssuedKeeps(s, g, cfg);
    case GrantAcknowledged(id, tick, attempt, sequence) => MovedKeeps(s, id, Acknowledged, tick, attempt, sequence);
    case GrantApplied(id, tick, attempt, sequence) => MovedKeeps(s, id, Applied, tick, attempt, sequence);
    case GrantEnded(k, f) => EndedKeeps(s, k, f);
    case GrantRebound(id, b) => ReboundKeeps(s, id, b);
    case DecisionRecorded(d) => DecisionKeeps(s, d);
    case BootAdvanced(boot, term, tick) => BootKeeps(s, boot, term, tick);
    case _ =>
  }

  // --------------------------------------------------------------------------
  // Retention
  // --------------------------------------------------------------------------

  lemma {:induction false} LiveAndEnded(gs: seq<Grant>)
    ensures multiset(gs) == multiset(Filter(IsLive, gs) + Filter(IsEnded, gs))
  {
    if gs != [] {
      LiveAndEnded(gs[1..]);
      assert gs == [gs[0]] + gs[1..];
    }
  }

  lemma {:induction false} SplitTail<T>(a: seq<T>, sorted: seq<T>, b: seq<T>, k: nat)
    requires multiset(sorted) == multiset(b) && k <= |sorted|
    ensures multiset(a + b) == multiset(a + sorted[..k] + sorted[k..])
  {
    assert sorted == sorted[..k] + sorted[k..];
    assert multiset(a + b) == multiset(a) + multiset(sorted);
  }

  // Retention splits the grants into what stays and what goes; only ended grants go.
  lemma {:induction false} RetentionSplits(gs: seq<Grant>, cfg: Config) returns (gone: seq<Grant>)
    ensures multiset(gs) == multiset(KeptGrants(gs, cfg) + gone)
    ensures |gone| == Dropped(gs, cfg) && forall g | g in gone :: IsEnded(g)
  {
    hide SortBy, Count;
    var live, ended, byAge := Filter(IsLive, gs), Filter(IsEnded, gs), EndedByAge(gs);
    var k := |byAge| - Dropped(gs, cfg);
    gone := byAge[k..];
    LiveAndEnded(gs);
    SplitTail(live, byAge, ended, k);
    assert multiset(KeptGrants(gs, cfg)) == multiset(live + byAge[..k]);
    SameElements(byAge, ended);
    forall g | g in gone ensures IsEnded(g) {
      assert g in byAge;
      assert g in ended;
    }
  }

  lemma {:induction false} RetentionCounts(gs: seq<Grant>, cfg: Config)
    ensures var kept := KeptGrants(gs, cfg);
      && Count(IsLive, kept) == Count(IsLive, gs)
      && Count(IsIssued, kept) == Count(IsIssued, gs)
      && Count(IsUnapplied, kept) == Count(IsUnapplied, gs)
      && Count(IsEnded, kept) + Dropped(gs, cfg) == Count(IsEnded, gs)
  {
    hide Count, KeptGrants, Dropped;
    var gone := RetentionSplits(gs, cfg);
    var kept := KeptGrants(gs, cfg);
    CountJoined(IsLive, gs, kept, gone);
    CountJoined(IsEnded, gs, kept, gone);
    CountJoined(IsIssued, gs, kept, gone);
    CountJoined(IsUnapplied, gs, kept, gone);
    CountAll(IsEnded, gone);
    CountNone(IsLive, gone);
    CountNone(IsIssued, gone);
    CountNone(IsUnapplied, gone);
  }

  lemma {:induction false} PruneGrantsKeeps(s: Durable, cfg: Config)
    requires Sound(s)
    ensures PruneGrants(s, cfg).status.None? && Sound(PruneGrants(s, cfg).state)
  {
    hide Count, KeptGrants, Dropped;
    RetentionCounts(s.grants, cfg);
  }

  lemma {:induction false} PruneFencesKeeps(s: Durable, cfg: Config)
    requires Sound(s)
    ensures PruneFences(s, cfg).status.None? && Sound(PruneFences(s, cfg).state)
  {
    hide Count, SortBy;
  }

  // Pruning always succeeds and keeps the identities.
  lemma {:induction false} PruneKeeps(s: Durable, cfg: Config)
    requires Sound(s)
    ensures Prune(s, cfg).status.None? && Sound(Prune(s, cfg).state)
  {
    hide Count, PruneGrants, PruneFences, SortBy;
    PruneGrantsKeeps(s, cfg);
    PruneFencesKeeps(PruneGrants(s, cfg).state, cfg);
  }

  // --------------------------------------------------------------------------
  // Runs
  // --------------------------------------------------------------------------

  datatype Event = Event(record: Record, evidenceFull: bool)

  // The events append one after the other, each successfully, from s to t.
  ghost predicate RunsTo(s: Durable, events: seq<Event>, cfg: Config, t: Durable)
    decreases |events|
  {
    if events == [] then s == t
    else
      var e := Append(s, events[0].record, events[0].evidenceFull, cfg);
      Admissible(events[0].record, s) && e.status.None? && RunsTo(e.state, events[1..], cfg, t)
  }

  lemma {:induction false} AppendKeeps(s: Durable, r: Record, evidenceFull: bool, cfg: Config)
    requires Sound(s) && Admissible(r, s)
    ensures var e := Append(s, r, evidenceFull, cfg);
      && (e.status.None? ==> Sound(e.state))
      && (e.status.Some? ==> e.state.counters == s.counters && e.state.grants == s.grants && e.state.fences == s.fences)
  {
    hide Count, Apply, Prune, Overfull;
    if s.journalSequence < U64_MAX && s.journalRecords < U64_MAX {
      var numbered := s.(journalSequence := s.journalSequence + 1, journalRecords := s.journalRecords + 1);
      ApplyKeeps(numbered, r, cfg);
      var applied := Apply(numbered, r, cfg);
      if applied.status.None? { PruneKeeps(applied.state, cfg); }
    }
  }

  // In every state a run reaches, the closure identities hold exactly.
  lemma {:induction false} ClosureAlways(s: Durable, events: seq<Event>, cfg: Config, t: Durable)
    requires Sound(s) && RunsTo(s, events, cfg, t)
    ensures Sound(t)
    decreases |events|
  {
    hide Append, Sound;
    if events != [] {
      AppendKeeps(s, events[0].record, events[0].evidenceFull, cfg);
      ClosureAlways(Append(s, events[0].record, events[0].evidenceFull, cfg).state, events[1..], cfg, t);
    }
  }

  lemma {:induction false} ZeroCounts(c: Counters)
    requires AllZero(c)
    ensures Within(c, 0, 0)
    ensures c.pruned == 0 && c.fencesPruned == 0
  {
  }

  lemma {:induction false} ZeroDecisions(c: Counters)
    requires AllZero(c)
    ensures DecisionSum(c) == 0
  {
  }

  lemma {:induction false} ZeroEnded(c: Counters)
    requires AllZero(c)
    ensures Ended(c) == 0
  {
  }

  lemma {:induction false} EmptyIsSound(s: Durable)
    requires s.grants == [] && s.fences == [] && s.bootCount == 0 && s.journalRecords == 0
    requires Within(s.counters, 0, 0) && DecisionSum(s.counters) == 0 && Ended(s.counters) == 0
    requires s.counters.pruned == 0 && s.counters.fencesPruned == 0
    ensures Sound(s)
  {
    hide Count;
    CountNone(IsLive, s.grants);
    CountNone(IsEnded, s.grants);
    CountNone(IsIssued, s.grants);
    CountNone(IsUnapplied, s.grants);
  }

  lemma {:induction false} FreshIsSound(s: Durable)
    requires Fresh(s)
    ensures Sound(s)
  {
    hide Sound, AllZero, Within, DecisionSum, Ended;
    ZeroCounts(s.counters);
    ZeroDecisions(s.counters);
    ZeroEnded(s.counters);
    EmptyIsSound(s);
  }

  // --------------------------------------------------------------------------
  // The runtime's own check
  // --------------------------------------------------------------------------

  // check_closure, as far as grants, fences and decisions go.
  predicate ClosureReported(s: Durable) {
    var c := s.counters;
    && c.decisionsTotal == DecisionSum(c)
    && c.issued == Count(IsLive, s.grants) + Count(IsEnded, s.grants) + c.pruned
    && Ended(c) == Count(IsEnded, s.grants) + c.pruned
    && c.fencesTotal == |s.fences| + c.fencesPruned
    && c.acknowledged <= c.issued
    && c.applied <= c.acknowledged
    && c.fencesTotal >= Ended(c)
  }

  lemma {:induction false} ReportedIff(t: Durable)
    requires Sound(t)
    ensures ClosureReported(t) <==> t.counters.applied <= t.counters.acknowledged
  {
    hide Count;
  }

  // So in a reachable state one comparison of counters decides the check.
  lemma {:induction false} ReportedIffAppliedBelow(s: Durable, events: seq<Event>, cfg: Config, t: Durable)
    requires Fresh(s) && RunsTo(s, events, cfg, t)
    ensures ClosureReported(t) <==> t.counters.applied <= t.counters.acknowledged
  {
    hide Sound, RunsTo, ClosureReported;
    FreshIsSound(s);
    ClosureAlways(s, events, cfg, t);
    ReportedIff(t);
  }
}
