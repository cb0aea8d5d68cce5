// Live state and replay simulate each other (src/store/state_store.cpp). The live
// store prunes as it appends; replay applies the same records and prunes nothing.
module Replay {
  import opened Core
  import opened Grants
  import opened Store
  import opened Closure
  import opened Sorting
  import opened Sums
  import opened Subsets

  function GrantKey(g: Grant): nat { g.id }

  // --------------------------------------------------------------------------
  // The relation
  // --------------------------------------------------------------------------

  // Everything but the pruned collections, the counters and the journal position.
  ghost predicate SameHead(a: Durable, b: Durable) {
    b == a.(grants := b.grants, fences := b.fences, decisions := b.decisions, restorations := b.restorations,
            counters := b.counters, journalSequence := b.journalSequence, journalRecords := b.journalRecords)
  }

  // Replay counts what the live store counts, except that it prunes nothing.
  ghost predicate SameCounts(a: Counters, b: Counters) {
    b == a.(pruned := 0, fencesPruned := 0)
  }

  // `gone` and `lost` are the grants and fences the live store has pruned.
  ghost predicate Simulates(live: Durable, rep: Durable, gone: seq<Grant>, lost: seq<Fence>) {
    && SameHead(live, rep)
    && SameCounts(live.counters, rep.counters)
    && multiset(rep.grants) == multiset(live.grants + gone) && (forall g | g in gone :: IsEnded(g))
    && |gone| == live.counters.pruned
    && multiset(rep.fences) == multiset(live.fences + lost) && |lost| == live.counters.fencesPruned
    && SubOf(live.decisions, rep.decisions) && SubOf(live.restorations, rep.restorations)
    && DistinctBy(GrantKey, rep.grants)
  }

  // A grant is known to have been issued.
  ghost predicate Known(id: u64, gs: seq<Grant>) {
    exists g | g in gs :: g.id == id
  }

  // --------------------------------------------------------------------------
  // Grants in the two states
  // --------------------------------------------------------------------------

  lemma {:induction false} SameLiveCount(live: Durable, rep: Durable, gone: seq<Grant>, lost: seq<Fence>)
    requires Simulates(live, rep, gone, lost)
    ensures Count(IsLive, rep.grants) == Count(IsLive, live.grants)
  {
    hide Count, SameHead, SameCounts, DistinctBy;
    CountJoined(IsLive, rep.grants, live.grants, gone);
    CountNone(IsLive, gone);
  }

  // The grant the live store finds is the one replay finds.
  lemma {:induction false} SameGrant(gs: seq<Grant>, rs: seq<Grant>, gone: seq<Grant>, id: u64)
    requires multiset(rs) == multiset(gs + gone) && DistinctBy(GrantKey, rs) && GrantAt(gs, id) < |gs|
    ensures GrantAt(rs, id) < |rs| && rs[GrantAt(rs, id)] == gs[GrantAt(gs, id)]
  {
    hide GrantAt;
    var i := GrantAt(gs, id);
    assert gs[i] in multiset(gs + gone);
    assert gs[i] in rs;
    var k :| 0 <= k < |rs| && rs[k] == gs[i];
    var j := GrantAt(rs, id);
    assert j < |rs|;
    assert GrantKey(rs[j]) == GrantKey(rs[k]);
  }

  lemma {:induction false} UpdateBoth(gs: seq<Grant>, rs: seq<Grant>, gone: seq<Grant>, i: nat, j: nat, g: Grant)
    requires multiset(rs) == multiset(gs + gone) && i < |gs| && j < |rs| && rs[j] == gs[i]
    ensures multiset(rs[j := g]) == multiset(gs[i := g] + gone)
  {
    assert multiset(gs + gone) == multiset(gs) + multiset(gone);
    assert gs[i] in multiset(gs);
  }

  lemma {:induction false} UpdateDistinct(rs: seq<Grant>, j: nat, g: Grant)
    requires DistinctBy(GrantKey, rs) && j < |rs| && rs[j].id == g.id
    ensures DistinctBy(GrantKey, rs[j := g])
  {
    var t := rs[j := g];
    assert forall k | 0 <= k < |t| :: GrantKey(t[k]) == GrantKey(rs[k]);
    forall a, b | 0 <= a < b < |t| ensures GrantKey(t[a]) != GrantKey(t[b]) {
      assert GrantKey(rs[a]) != GrantKey(rs[b]);
    }
  }

  lemma {:induction false} PushBoth(gs: seq<Grant>, rs: seq<Grant>, gone: seq<Grant>, g: Grant)
    requires multiset(rs) == multiset(gs + gone) && DistinctBy(GrantKey, rs) && !Known(g.id, rs)
    ensures multiset(rs + [g]) == multiset(gs + [g] + gone) && DistinctBy(GrantKey, rs + [g])
  {
    forall a, b | 0 <= a < b < |rs + [g]| ensures GrantKey((rs + [g])[a]) != GrantKey((rs + [g])[b]) {
      if b < |rs| {
        assert GrantKey(rs[a]) != GrantKey(rs[b]);
      } else {
        assert rs[a] in rs;
      }
    }
  }

  lemma {:induction false} PushFences(fs: seq<Fence>, rs: seq<Fence>, lost: seq<Fence>, f: Fence)
    requires multiset(rs) == multiset(fs + lost)
    ensures multiset(rs + [f]) == multiset(fs + [f] + lost)
  {
  }

  lemma {:induction false} NotFoundWhenUnknown(gs: seq<Grant>, id: u64)
    requires !Known(id, gs)
    ensures GrantAt(gs, id) == |gs|
  {
    hide GrantAt;
    assert forall j | 0 <= j < |gs| :: gs[j] in gs && gs[j].id != id;
  }

  // --------------------------------------------------------------------------
  // One record
  // --------------------------------------------------------------------------

  // Both sides apply the record and stay related.
  ghost predicate InStep(a: Effect, b: Effect, gone: seq<Grant>, lost: seq<Fence>) {
    a.status.None? ==> b.status.None? && Simulates(a.state, b.state, gone, lost)
  }

  lemma {:induction false} IssuedInStep(s: Durable, t: Durable, g: Grant, cfg: Config, gone: seq<Grant>,
                                        lost: seq<Fence>)
    requires Simulates(s, t, gone, lost) && !Known(g.id, t.grants)
    ensures InStep(ApplyIssued(s, g, cfg), ApplyIssued(t, g, cfg), gone, lost)
  {
    hide Count, GrantAt, DistinctBy, Known;
    NotFoundWhenUnknown(t.grants, g.id);
    SameLiveCount(s, t, gone, lost);
    PushBoth(s.grants, t.grants, gone, g);
  }

  // Transitions find the same grant and leave it in the same state.
  lemma {:induction false} TransitionInStep(s: Durable, t: Durable, id: u64, next: GrantState, tick: u64, attempt: u64,
                                            sequence: u64, gone: seq<Grant>, lost: seq<Fence>)
    requires Simulates(s, t, gone, lost)
    ensures InStep(Transition(s, id, next, tick, attempt, sequence), Transition(t, id, next, tick, attempt, sequence),
      gone, lost)
  {
    hide Count, GrantAt, DistinctBy, Allowed;
    var i := GrantAt(s.grants, id);
    if i < |s.grants| {
      SameGrant(s.grants, t.grants, gone, id);
      var j := GrantAt(t.grants, id);
      var g := Transitioned(s.grants[i], next, tick, attempt, sequence);
      UpdateBoth(s.grants, t.grants, gone, i, j, g);
      UpdateDistinct(t.grants, j, g);
    }
  }

  lemma {:induction false} MovedInStep(s: Durable, t: Durable, id: u64, next: GrantState, tick: u64, attempt: u64,
                                       sequence: u64, gone: seq<Grant>, lost: seq<Fence>)
    requires Simulates(s, t, gone, lost)
    ensures InStep(ApplyMoved(s, id, next, tick, attempt, sequence), ApplyMoved(t, id, next, tick, attempt, sequence),
      gone, lost)
  {
    hide Count, Transition, DistinctBy;
    TransitionInStep(s, t, id, next, tick, attempt, sequence, gone, lost);
  }

  lemma {:induction false} CountEndInStep(s: Durable, t: Durable, k: EndKind, gone: seq<Grant>, lost: seq<Fence>)
    requires Simulates(s, t, gone, lost)
    ensures InStep(CountEnd(s, k), CountEnd(t, k), gone, lost)
  {
    hide Count, DistinctBy;
  }

  lemma {:induction false} EndedInStep(s: Durable, t: Durable, k: EndKind, f: Fence, gone: seq<Grant>, lost: seq<Fence>)
    requires Simulates(s, t, gone, lost)
    ensures InStep(ApplyEnded(s, k, f), ApplyEnded(t, k, f), gone, lost)
  {
    hide Count, Transition, DistinctBy, CountEnd;
    TransitionInStep(s, t, f.grant, EndState(k), f.tick, 0, 0, gone, lost);
    TransitionKeepsFences(s, f.grant, EndState(k), f.tick, 0, 0);
    TransitionKeepsFences(t, f.grant, EndState(k), f.tick, 0, 0);
    var a, b := Transition(s, f.grant, EndState(k), f.tick, 0, 0), Transition(t, f.grant, EndState(k), f.tick, 0, 0);
    if a.status.None? {
      PushFences(s.fences, t.fences, lost, f);
      var a' := a.state.(fences := s.fences + [f], fenceHigh := Max(s.fenceHigh, f.id));
      var b' := b.state.(fences := t.fences + [f], fenceHigh := Max(t.fenceHigh, f.id));
      CountEndInStep(a', b', k, gone, lost);
    }
  }

  lemma {:induction false} TransitionKeepsFences(s: Durable, id: u64, next: GrantState, tick: u64, attempt: u64,
                                                 sequence: u64)
    ensures var e := Transition(s, id, next, tick, attempt, sequence);
      e.state.fences == s.fences && e.state.fenceHigh == s.fenceHigh
  {
    hide GrantAt;
  }

  lemma {:induction false} ReboundInStep(s: Durable, t: Durable, id: u64, b: Binding, gone: seq<Grant>,
                                         lost: seq<Fence>)
    requires Simulates(s, t, gone, lost)
    ensures InStep(ApplyRebound(s, id, b), ApplyRebound(t, id, b), gone, lost)
  {
    hide Count, GrantAt, DistinctBy, SameSubject;
    var i := GrantAt(s.grants, id);
    if i < |s.grants| {
      SameGrant(s.grants, t.grants, gone, id);
      var j := GrantAt(t.grants, id);
      UpdateBoth(s.grants, t.grants, gone, i, j, s.grants[i].(binding := b));
      UpdateDistinct(t.grants, j, s.grants[i].(binding := b));
    }
  }

  lemma {:induction false} DecisionInStep(s: Durable, t: Durable, d: Decision, gone: seq<Grant>, lost: seq<Fence>)
    requires Simulates(s, t, gone, lost)
    ensures InStep(
      CountDecision(s.(decisions := s.decisions + [d], decisionHigh := Max(s.decisionHigh, d.id)), d.outcome),
      CountDecision(t.(decisions := t.decisions + [d], decisionHigh := Max(t.decisionHigh, d.id)), d.outcome),
      gone, lost)
  {
    hide Count, DistinctBy;
  }

  lemma {:induction false} BootInStep(s: Durable, t: Durable, boot: u64, term: u64, tick: u64, gone: seq<Grant>,
                                      lost: seq<Fence>)
    requires Simulates(s, t, gone, lost)
    ensures InStep(ApplyBoot(s, boot, term, tick), ApplyBoot(t, boot, term, tick), gone, lost)
  {
    hide Count, DistinctBy;
  }

  lemma {:induction false} OtherInStep(s: Durable, t: Durable, r: Record, cfg: Config, gone: seq<Grant>,
                                       lost: seq<Fence>)
    requires Simulates(s, t, gone, lost)
    requires r.ContractRegistered? || r.ContractRetired? || r.PolicyInstalled? || r.FabricAdvanced?
      || r.CapacityAdvanced?
      || r.EvidenceAdvanced? || r.EvidencePublished? || r.TermAdvanced? || r.TornTailObserved? || r.RestorationRecorded?
    ensures InStep(Apply(s, r, cfg), Apply(t, r, cfg), gone, lost)
  {
    hide Count, DistinctBy, ContractAt;
  }

  lemma {:induction false} ApplyInStep(s: Durable, t: Durable, r: Record, cfg: Config, gone: seq<Grant>,
                                       lost: seq<Fence>)
    requires Simulates(s, t, gone, lost) && !r.AccountingCheckpoint?
    requires r.GrantIssued? ==> !Known(r.grant.id, t.grants)
    ensures InStep(Apply(s, r, cfg), Apply(t, r, cfg), gone, lost)
  {
    hide InStep, Simulates, ApplyIssued, ApplyMoved, ApplyEnded, ApplyRebound, CountDecision, ApplyBoot;
    match r
    case GrantIssued(g) => IssuedInStep(s, t, g, cfg, gone, lost);
    case GrantAcknowledged(id, tick, attempt, sequence) =>
      MovedInStep(s, t, id, Acknowledged, tick, attempt, sequence, gone, lost);
    case GrantApplied(id, tick, attempt, sequence) =>
      MovedInStep(s, t, id, Applied, tick, attempt, sequence, gone, lost);
    case GrantEnded(k, f) => EndedInStep(s, t, k, f, gone, lost);
    case GrantRebound(id, b) => ReboundInStep(s, t, id, b, gone, lost);
    case DecisionRecorded(d) => DecisionInStep(s, t, d, gone, lost);
    case BootAdvanced(boot, term, tick) => BootInStep(s, t, boot, term, tick, gone, lost);
    case _ => OtherInStep(s, t, r, cfg, gone, lost);
  }

  // --------------------------------------------------------------------------
  // Pruning the live side
  // --------------------------------------------------------------------------

  lemma {:induction false} MoreGone<T>(rs: seq<T>, gs: seq<T>, gone: seq<T>, kept: seq<T>, now: seq<T>)
    requires multiset(rs) == multiset(gs + gone) && multiset(gs) == multiset(kept + now)
    ensures multiset(rs) == multiset(kept + (gone + now))
  {
  }

  lemma {:induction false} FencesSplit(fs: seq<Fence>, keep: nat) returns (lost: seq<Fence>)
    requires keep <= |fs|
    ensures multiset(fs) == multiset(SortBy(FenceBefore, FencesByAge(fs)[..keep]) + lost) && |lost| == |fs| - keep
  {
    hide SortBy;
    var byAge := FencesByAge(fs);
    lost := byAge[keep..];
    assert byAge == byAge[..keep] + byAge[keep..];
  }

  lemma {:induction false} KeptIsSub<T>(older: (T, T) -> bool, newer: (T, T) -> bool, s: seq<T>, keep: nat,
                                        whole: seq<T>)
    requires SubOf(s, whole) && keep <= |s|
    ensures SubOf(SortBy(older, SortBy(newer, s)[..keep]), whole) && SubOf(SortBy(newer, s)[..keep], whole)
  {
    hide SortBy;
    var sorted := SortBy(newer, s);
    assert sorted == sorted[..keep] + sorted[keep..];
  }

  lemma {:induction false} PruneGrantsSimulates(s: Durable, t: Durable, cfg: Config, gone: seq<Grant>, lost: seq<Fence>)
    returns (gone': seq<Grant>)
    requires Simulates(s, t, gone, lost) && PruneGrants(s, cfg).status.None?
    ensures Simulates(PruneGrants(s, cfg).state, t, gone', lost)
  {
    hide Count, KeptGrants, Dropped, DistinctBy;
    var now := RetentionSplits(s.grants, cfg);
    MoreGone(t.grants, s.grants, gone, KeptGrants(s.grants, cfg), now);
    gone' := gone + now;
  }

  lemma {:induction false} PruneFencesSimulates(s: Durable, t: Durable, cfg: Config, gone: seq<Grant>, lost: seq<Fence>)
    returns (lost': seq<Fence>)
    requires Simulates(s, t, gone, lost) && PruneFences(s, cfg).status.None?
    ensures Simulates(PruneFences(s, cfg).state, t, gone, lost')
  {
    hide Count, SortBy, DistinctBy;
    if |s.fences| <= cfg.maxFences {
      lost' := lost;
    } else {
      var now := FencesSplit(s.fences, cfg.maxFences);
      MoreGone(t.fences, s.fences, lost, SortBy(FenceBefore, FencesByAge(s.fences)[..cfg.maxFences]), now);
      lost' := lost + now;
    }
  }

  lemma {:induction false} PruneHistorySimulates(s: Durable, t: Durable, cfg: Config, gone: seq<Grant>,
                                                 lost: seq<Fence>)
    requires Simulates(s, t, gone, lost)
    ensures Simulates(PruneHistory(s, cfg), t, gone, lost)
  {
    hide Count, SortBy, DistinctBy;
    if |s.decisions| > cfg.maxDecisions {
      KeptIsSub(DecisionBefore, NewerDecision, s.decisions, cfg.maxDecisions, t.decisions);
    }
    if |s.restorations| > cfg.maxDecisions {
      KeptIsSub(NewerRestoration, NewerRestoration, s.restorations, cfg.maxDecisions, t.restorations);
    }
  }

  lemma {:induction false} PruneSimulates(s: Durable, t: Durable, cfg: Config, gone: seq<Grant>, lost: seq<Fence>)
    returns (gone': seq<Grant>, lost': seq<Fence>)
    requires Simulates(s, t, gone, lost) && Prune(s, cfg).status.None?
    ensures Simulates(Prune(s, cfg).state, t, gone', lost')
  {
    hide Simulates, PruneGrants, PruneFences, PruneHistory;
    gone' := PruneGrantsSimulates(s, t, cfg, gone, lost);
    var a := PruneGrants(s, cfg).state;
    lost' := PruneFencesSimulates(a, t, cfg, gone', lost);
    PruneHistorySimulates(PruneFences(a, cfg).state, t, cfg, gone', lost');
  }

  // --------------------------------------------------------------------------
  // Runs
  // --------------------------------------------------------------------------

  // The segment replay loop: every record applies, nothing is pruned.
  ghost predicate ReplaysTo(s: Durable, events: seq<Event>, cfg: Config, t: Durable)
    decreases |events|
  {
    if events == [] then s == t
    else
      var e := Apply(s, events[0].record, cfg);
      e.status.None? && ReplaysTo(e.state, events[1..], cfg, t)
  }

  // No checkpoint, and every issued grant identity is new.
  ghost predicate FreshIdentities(events: seq<Event>, gs: seq<Grant>)
    decreases |events|
  {
    events == [] ||
    var r := events[0].record;
    && !r.AccountingCheckpoint?
    && (r.GrantIssued? ==> !Known(r.grant.id, gs))
    && FreshIdentities(events[1..], if r.GrantIssued? then gs + [r.grant] else gs)
  }

  // Records keep the identities they find and add at most the one they issue.
  ghost predicate IdsFrom(gs: seq<Grant>, was: seq<Grant>) {
    forall g | g in gs :: Known(g.id, was)
  }

  lemma {:induction false} ApplyIds(s: Durable, r: Record, cfg: Config)
    requires Apply(s, r, cfg).status.None?
    ensures IdsFrom(Apply(s, r, cfg).state.grants, if r.GrantIssued? then s.grants + [r.grant] else s.grants)
  {
    hide Count, GrantAt, ContractAt;
    assert forall g | g in s.grants :: Known(g.id, s.grants);
    match r
    case GrantAcknowledged(id, tick, attempt, sequence) => TransitionIds(s, id, Acknowledged, tick, attempt, sequence);
    case GrantApplied(id, tick, attempt, sequence) => TransitionIds(s, id, Applied, tick, attempt, sequence);
    case GrantEnded(k, f) => TransitionIds(s, f.grant, EndState(k), f.tick, 0, 0);
    case GrantRebound(id, b) =>
      var i := GrantAt(s.grants, id);
      UpdatedIds(s.grants, i, s.grants[i].(binding := b));
    case _ =>
  }

  lemma {:induction false} UpdatedIds(gs: seq<Grant>, i: nat, g: Grant)
    requires i < |gs| && g.id == gs[i].id
    ensures IdsFrom(gs[i := g], gs)
  {
    forall x | x in gs[i := g] ensures Known(x.id, gs) {
      var k :| 0 <= k < |gs| && gs[i := g][k] == x;
      assert gs[k] in gs && gs[k].id == x.id;
    }
  }

  lemma {:induction false} TransitionIds(s: Durable, id: u64, next: GrantState, tick: u64, attempt: u64, sequence: u64)
    ensures IdsFrom(Transition(s, id, next, tick, attempt, sequence).state.grants, s.grants)
  {
    hide GrantAt, IdsFrom;
    var i := GrantAt(s.grants, id);
    SameIds(s.grants);
    if i < |s.grants| { UpdatedIds(s.grants, i, Transitioned(s.grants[i], next, tick, attempt, sequence)); }
  }

  lemma {:induction false} SameIds(gs: seq<Grant>)
    ensures IdsFrom(gs, gs)
  {
  }

  lemma {:induction false} FreshShrinks(events: seq<Event>, gs: seq<Grant>, was: seq<Grant>)
    requires FreshIdentities(events, was) && IdsFrom(gs, was)
    ensures FreshIdentities(events, gs)
    decreases |events|
  {
    if events != [] {
      var r := events[0].record;
      if r.GrantIssued? {
        assert IdsFrom(gs + [r.grant], was + [r.grant]) by {
          forall g | g in gs + [r.grant] ensures Known(g.id, was + [r.grant]) {
            if g in gs {
              var h :| h in was && h.id == g.id;
              assert h in was + [r.grant];
            } else {
              assert r.grant in was + [r.grant];
            }
          }
        }
        assert !Known(r.grant.id, gs);
        FreshShrinks(events[1..], gs + [r.grant], was + [r.grant]);
      } else {
        FreshShrinks(events[1..], gs, was);
      }
    }
  }

  lemma {:induction false} Renumbered(s: Durable, t: Durable, gone: seq<Grant>, lost: seq<Fence>, sequence: nat,
                                      records: nat)
    requires Simulates(s, t, gone, lost)
    ensures Simulates(s.(journalSequence := sequence, journalRecords := records), t, gone, lost)
  {
    hide DistinctBy;
  }

  lemma {:induction false} AppendInStep(s: Durable, t: Durable, e: Event, cfg: Config, gone: seq<Grant>,
                                        lost: seq<Fence>)
    returns (gone': seq<Grant>, lost': seq<Fence>)
    requires Simulates(s, t, gone, lost) && Append(s, e.record, e.evidenceFull, cfg).status.None?
    requires !e.record.AccountingCheckpoint? && (e.record.GrantIssued? ==> !Known(e.record.grant.id, t.grants))
    ensures Apply(t, e.record, cfg).status.None?
    ensures Simulates(Append(s, e.record, e.evidenceFull, cfg).state, Apply(t, e.record, cfg).state, gone', lost')
  {
    hide Simulates, Apply, Prune, Overfull;
    var numbered := s.(journalSequence := s.journalSequence + 1, journalRecords := s.journalRecords + 1);
    Renumbered(s, t, gone, lost, s.journalSequence + 1, s.journalRecords + 1);
    ApplyInStep(numbered, t, e.record, cfg, gone, lost);
    var applied := Apply(numbered, e.record, cfg).state;
    if Overfull(applied, cfg) || e.evidenceFull {
      gone', lost' := PruneSimulates(applied, Apply(t, e.record, cfg).state, cfg, gone, lost);
    } else {
      gone', lost' := gone, lost;
    }
  }

  lemma {:induction false} RunSimulates(s: Durable, t: Durable, events: seq<Event>, cfg: Config, end: Durable,
                                        gone: seq<Grant>, lost: seq<Fence>)
    returns (rep: Durable, gone': seq<Grant>, lost': seq<Fence>)
    requires Simulates(s, t, gone, lost) && RunsTo(s, events, cfg, end) && FreshIdentities(events, t.grants)
    ensures ReplaysTo(t, events, cfg, rep) && Simulates(end, rep, gone', lost')
    decreases |events|
  {
    hide Simulates, Apply, Append, Known, IdsFrom;
    if events == [] {
      rep, gone', lost' := t, gone, lost;
    } else {
      var e := events[0];
      var g, l := AppendInStep(s, t, e, cfg, gone, lost);
      var next := Apply(t, e.record, cfg).state;
      ApplyIds(t, e.record, cfg);
      FreshShrinks(events[1..], next.grants, if e.record.GrantIssued? then t.grants + [e.record.grant] else t.grants);
      var appended := Append(s, e.record, e.evidenceFull, cfg).state;
      rep, gone', lost' := RunSimulates(appended, next, events[1..], cfg, end, g, l);
    }
  }

  lemma {:induction false} FreshSimulates(s: Durable)
    requires Fresh(s)
    ensures Simulates(s, s, [], [])
  {
  }

  // Replaying the records of any successful live run succeeds and agrees with the live
  // state on everything but the history the live store pruned: replay's grants and
  // fences are the live ones plus exactly the pruned ones, all of them ended.
  lemma {:induction false} ReplayAgrees(s: Durable, events: seq<Event>, cfg: Config, end: Durable)
    returns (rep: Durable, gone: seq<Grant>, lost: seq<Fence>)
    requires Fresh(s) && RunsTo(s, events, cfg, end) && FreshIdentities(events, [])
    ensures ReplaysTo(s, events, cfg, rep) && Simulates(end, rep, gone, lost)
    ensures multiset(Filter(IsLive, rep.grants)) == multiset(Filter(IsLive, end.grants))
    ensures |rep.grants| == |end.grants| + end.counters.pruned
    ensures |rep.fences| == |end.fences| + end.counters.fencesPruned
  {
    hide RunsTo, ReplaysTo, FreshIdentities, SameHead, SameCounts, DistinctBy;
    assert s.grants == [];
    FreshSimulates(s);
    rep, gone, lost := RunSimulates(s, s, events, cfg, end, [], []);
    SameLive(end.grants, rep.grants, gone);
    SameElements(rep.fences, end.fences + lost);
    SameElements(rep.grants, end.grants + gone);
  }

  lemma {:induction false} SameLive(gs: seq<Grant>, rs: seq<Grant>, gone: seq<Grant>)
    requires multiset(rs) == multiset(gs + gone) && forall g | g in gone :: IsEnded(g)
    ensures multiset(Filter(IsLive, rs)) == multiset(Filter(IsLive, gs))
  {
    FilterPermutes(IsLive, rs, gs + gone);
    FilterAppend(IsLive, gs, gone);
    FilterNone(IsLive, gone);
    assert Filter(IsLive, gs) + [] == Filter(IsLive, gs);
  }
}
