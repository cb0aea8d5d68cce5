// What a reachable state says of the records that led to it (apply_record in
// src/store/state_store.cpp): every counter counts its records, every setting is the last
// one made, every high-water mark the highest identity seen.
module Histories {
  import opened Core
  import opened Contracts
  import opened Assessments
  import opened Grants
  import opened Store
  import opened Closure
  import opened Retention

  function Tally(p: Record -> bool, events: seq<Event>): nat {
    if events == [] then 0 else One(p(events[0].record)) + Tally(p, events[1..])
  }

  // --------------------------------------------------------------------------
  // One record
  // --------------------------------------------------------------------------

  // What a record adds to the counters: the one it is for, and fences for every end, terms
  // for every boot.
  ghost predicate CountedOnce(c: Counters, r: Record, d: Counters) {
    var decided := if r.DecisionRecorded? then Some(r.decision.outcome) else None;
    var ended := if r.GrantEnded? then Some(r.kind) else None;
    && d.decisionsTotal == c.decisionsTotal + One(decided.Some?)
    && d.decisionsFull == c.decisionsFull + One(decided == Some(Full))
    && d.decisionsDegraded == c.decisionsDegraded + One(decided == Some(DegradedService))
    && d.decisionsRefused == c.decisionsRefused + One(decided == Some(RefusedService))
    && d.decisionsEscalated == c.decisionsEscalated + One(decided == Some(EscalatedService))
    && d.decisionsUnsupported == c.decisionsUnsupported + One(decided == Some(UnsupportedService))
    && d.decisionsIndeterminate == c.decisionsIndeterminate + One(decided == Some(IndeterminateService))
    && d.decisionsInvalid == c.decisionsInvalid + One(decided == Some(InvalidInputs))
    && d.issued == c.issued + One(r.GrantIssued?)
    && d.acknowledged == c.acknowledged + One(r.GrantAcknowledged?)
    && d.applied == c.applied + One(r.GrantApplied?)
    && d.fenced == c.fenced + One(ended == Some(ByFence))
    && d.expired == c.expired + One(ended == Some(ByExpiry))
    && d.revoked == c.revoked + One(ended == Some(ByRevocation))
    && d.fencesTotal == c.fencesTotal + One(ended.Some?)
    && d.tornTails == c.tornTails + One(r.TornTailObserved?)
    && d.boots == c.boots + One(r.BootAdvanced?)
    && d.termAdvances == c.termAdvances + One(r.BootAdvanced? || r.TermAdvanced?)
  }

  lemma {:induction false} DecisionCounts(s: Durable, d: Decision, cfg: Config)
    requires Apply(s, DecisionRecorded(d), cfg).status.None?
    ensures CountedOnce(s.counters, DecisionRecorded(d), Apply(s, DecisionRecorded(d), cfg).state.counters)
  {
  }

  lemma {:induction false} EndCounts(s: Durable, k: EndKind, f: Fence, cfg: Config)
    requires Apply(s, GrantEnded(k, f), cfg).status.None?
    ensures CountedOnce(s.counters, GrantEnded(k, f), Apply(s, GrantEnded(k, f), cfg).state.counters)
  {
    hide GrantAt, Allowed;
  }

  lemma {:induction false} ReportCounts(s: Durable, r: Record, cfg: Config)
    requires (r.GrantAcknowledged? || r.GrantApplied?) && Apply(s, r, cfg).status.None?
    ensures CountedOnce(s.counters, r, Apply(s, r, cfg).state.counters)
  {
    hide GrantAt, Allowed;
  }

  lemma {:induction false} OtherCounts(s: Durable, r: Record, cfg: Config)
    requires !r.GrantAcknowledged? && !r.GrantApplied? && !r.GrantEnded? && !r.DecisionRecorded?
    requires Admissible(r, s) && Apply(s, r, cfg).status.None?
    ensures CountedOnce(s.counters, r, Apply(s, r, cfg).state.counters)
  {
    hide Count, GrantAt, ContractAt;
  }

  lemma {:induction false} ApplyCounts(s: Durable, r: Record, cfg: Config)
    requires Admissible(r, s) && Apply(s, r, cfg).status.None?
    ensures CountedOnce(s.counters, r, Apply(s, r, cfg).state.counters)
  {
    hide Apply, CountedOnce;
    match r
    case DecisionRecorded(d) => DecisionCounts(s, d, cfg);
    case GrantEnded(k, f) => EndCounts(s, k, f, cfg);
    case GrantAcknowledged(_, _, _, _) => ReportCounts(s, r, cfg);
    case GrantApplied(_, _, _, _) => ReportCounts(s, r, cfg);
    case _ => OtherCounts(s, r, cfg);
  }

  // The settings a pruning leaves alone.
  ghost predicate SameSettings(t: Durable, s: Durable) {
    && t.boot == s.boot && t.term == s.term && t.lastCommit == s.lastCommit && t.policy == s.policy
    && t.contracts == s.contracts && t.fabricGeneration == s.fabricGeneration
    && t.capacityGeneration == s.capacityGeneration && t.evidenceGeneration == s.evidenceGeneration
    && t.grantHigh == s.grantHigh && t.fenceHigh == s.fenceHigh && t.decisionHigh == s.decisionHigh
    && t.evidenceHigh == s.evidenceHigh
  }

  lemma {:induction false} PruneCountsNothing(s: Durable, cfg: Config)
    requires Prune(s, cfg).status.None?
    ensures var t := Prune(s, cfg).state;
      && t.counters == s.counters.(pruned := t.counters.pruned, fencesPruned := t.counters.fencesPruned)
      && SameSettings(t, s)
  {
    hide Prune, GrantsRetained, NewestStay;
    var a, b, c, d := PruningKeepsNewest(s, cfg);
  }

  lemma {:induction false} CountedStill(c: Counters, r: Record, d: Counters, e: Counters)
    requires CountedOnce(c, r, d) && e == d.(pruned := e.pruned, fencesPruned := e.fencesPruned)
    ensures CountedOnce(c, r, e)
  {
  }

  // An append is its record applied, but for the numbering before and the pruning after.
  lemma {:induction false} AppendIsApply(s: Durable, r: Record, full: bool, cfg: Config)
    requires Append(s, r, full, cfg).status.None?
    ensures var n := s.(journalSequence := s.journalSequence + 1, journalRecords := s.journalRecords + 1);
      var a, t := Apply(n, r, cfg), Append(s, r, full, cfg).state;
      && a.status.None? && SameSettings(t, a.state)
      && t.counters == a.state.counters.(pruned := t.counters.pruned, fencesPruned := t.counters.fencesPruned)
  {
    hide Apply, Prune, Overfull;
    var n := s.(journalSequence := s.journalSequence + 1, journalRecords := s.journalRecords + 1);
    var a := Apply(n, r, cfg).state;
    if Prune(a, cfg).status.None? { PruneCountsNothing(a, cfg); }
  }

  lemma {:induction false} AppendCounts(s: Durable, r: Record, full: bool, cfg: Config)
    requires Admissible(r, s) && Append(s, r, full, cfg).status.None?
    ensures CountedOnce(s.counters, r, Append(s, r, full, cfg).state.counters)
  {
    hide Apply, Append, CountedOnce, SameSettings;
    var n := s.(journalSequence := s.journalSequence + 1, journalRecords := s.journalRecords + 1);
    AppendIsApply(s, r, full, cfg);
    ApplyCounts(n, r, cfg);
    CountedStill(s.counters, r, Apply(n, r, cfg).state.counters, Append(s, r, full, cfg).state.counters);
  }

  // --------------------------------------------------------------------------
  // Whole runs
  // --------------------------------------------------------------------------

  function Decided(o: Outcome): Record -> bool {
    (r: Record) => r.DecisionRecorded? && r.decision.outcome == o
  }

  function Ended(k: EndKind): Record -> bool {
    (r: Record) => r.GrantEnded? && r.kind == k
  }

  predicate Grown(p: Record -> bool, events: seq<Event>, before: nat, after: nat) {
    after == before + Tally(p, events)
  }

  // From any state, every counter grows by the number of its records.
  lemma {:induction false} DecisionsAreCounted(s: Durable, events: seq<Event>, cfg: Config, t: Durable)
    requires RunsTo(s, events, cfg, t)
    ensures var c, d := s.counters, t.counters;
      && Grown((r: Record) => r.DecisionRecorded?, events, c.decisionsTotal, d.decisionsTotal)
      && Grown(Decided(Full), events, c.decisionsFull, d.decisionsFull)
      && Grown(Decided(DegradedService), events, c.decisionsDegraded, d.decisionsDegraded)
      && Grown(Decided(RefusedService), events, c.decisionsRefused, d.decisionsRefused)
      && Grown(Decided(EscalatedService), events, c.decisionsEscalated, d.decisionsEscalated)
      && Grown(Decided(UnsupportedService), events, c.decisionsUnsupported, d.decisionsUnsupported)
      && Grown(Decided(IndeterminateService), events, c.decisionsIndeterminate, d.decisionsIndeterminate)
      && Grown(Decided(InvalidInputs), events, c.decisionsInvalid, d.decisionsInvalid)
    decreases |events|
  {
    hide Append;
    if events != [] {
      AppendCounts(s, events[0].record, events[0].evidenceFull, cfg);
      DecisionsAreCounted(Append(s, events[0].record, events[0].evidenceFull, cfg).state, events[1..], cfg, t);
    }
  }

  lemma {:induction false} GrantsAreCounted(s: Durable, events: seq<Event>, cfg: Config, t: Durable)
    requires RunsTo(s, events, cfg, t)
    ensures var c, d := s.counters, t.counters;
      && Grown((r: Record) => r.GrantIssued?, events, c.issued, d.issued)
      && Grown((r: Record) => r.GrantAcknowledged?, events, c.acknowledged, d.acknowledged)
      && Grown((r: Record) => r.GrantApplied?, events, c.applied, d.applied)
      && Grown(Ended(ByFence), events, c.fenced, d.fenced)
      && Grown(Ended(ByExpiry), events, c.expired, d.expired)
      && Grown(Ended(ByRevocation), events, c.revoked, d.revoked)
      && Grown((r: Record) => r.GrantEnded?, events, c.fencesTotal, d.fencesTotal)
      && Grown((r: Record) => r.TornTailObserved?, events, c.tornTails, d.tornTails)
      && Grown((r: Record) => r.BootAdvanced?, events, c.boots, d.boots)
      && Grown((r: Record) => r.BootAdvanced? || r.TermAdvanced?, events, c.termAdvances, d.termAdvances)
    decreases |events|
  {
    hide Append;
    if events != [] {
      AppendCounts(s, events[0].record, events[0].evidenceFull, cfg);
      GrantsAreCounted(Append(s, events[0].record, events[0].evidenceFull, cfg).state, events[1..], cfg, t);
    }
  }

  // --------------------------------------------------------------------------
  // Settings
  // --------------------------------------------------------------------------

  // What each record sets.
  function FabricSet(r: Record): Option<u64> { if r.FabricAdvanced? then Some(r.fabric) else None }
  function CapacitySet(r: Record): Option<u64> { if r.CapacityAdvanced? then Some(r.capacity) else None }
  function PolicySet(r: Record): Option<Policy> { if r.PolicyInstalled? then Some(r.policy) else None }
  function BootSet(r: Record): Option<u64> { if r.BootAdvanced? then Some(r.boot) else None }
  function CommitSet(r: Record): Option<u64> { if r.BootAdvanced? then Some(r.bootTick) else None }

  function TermSet(r: Record): Option<u64> {
    if r.BootAdvanced? || r.TermAdvanced? then Some(r.term) else None
  }

  ghost predicate SetTo<T>(before: T, told: Option<T>, after: T) {
    after == if told.Some? then told.value else before
  }

  lemma {:induction false} AppendSets(s: Durable, r: Record, full: bool, cfg: Config)
    requires Append(s, r, full, cfg).status.None?
    ensures var t := Append(s, r, full, cfg).state;
      && SetTo(s.fabricGeneration, FabricSet(r), t.fabricGeneration)
      && SetTo(s.capacityGeneration, CapacitySet(r), t.capacityGeneration)
      && (PolicySet(r).None? ==> t.policy == s.policy) && (PolicySet(r).Some? ==> t.policy == PolicySet(r))
      && SetTo(s.boot, BootSet(r), t.boot) && SetTo(s.term, TermSet(r), t.term)
      && SetTo(s.lastCommit, CommitSet(r), t.lastCommit)
  {
    hide Append, Count, GrantAt, ContractAt, Allowed, DecisionCount, SetDecisionCount, EndCount, SetEndCount;
    AppendIsApply(s, r, full, cfg);
  }

  // v is what the last event that sets says, or what was there if none does.
  ghost predicate LastSet<T>(told: Record -> Option<T>, events: seq<Event>, before: T, v: T) {
    || (v == before && forall i | 0 <= i < |events| :: told(events[i].record).None?)
    || (exists i | 0 <= i < |events| :: told(events[i].record) == Some(v)
          && forall j | i < j < |events| :: told(events[j].record).None?)
  }

  lemma {:induction false} LastSetNext<T>(told: Record -> Option<T>, events: seq<Event>, before: T, next: T, v: T)
    requires events != [] && SetTo(before, told(events[0].record), next) && LastSet(told, events[1..], next, v)
    ensures LastSet(told, events, before, v)
  {
    var rest := events[1..];
    assert forall j | 0 < j < |events| :: events[j] == rest[j - 1];
    if i :|
      0 <= i < |rest| && told(rest[i].record) == Some(v) && forall j | i < j < |rest| :: told(rest[j].record).None? {
      assert told(events[i + 1].record) == Some(v);
    }
  }

  // Generations, boot, term and clock are those of the last record that sets them.
  lemma {:induction false} LastSettingHolds(s: Durable, events: seq<Event>, cfg: Config, t: Durable)
    requires RunsTo(s, events, cfg, t)
    ensures LastSet(FabricSet, events, s.fabricGeneration, t.fabricGeneration)
    ensures LastSet(CapacitySet, events, s.capacityGeneration, t.capacityGeneration)
    ensures LastSet(BootSet, events, s.boot, t.boot) && LastSet(TermSet, events, s.term, t.term)
    ensures LastSet(CommitSet, events, s.lastCommit, t.lastCommit)
    decreases |events|
  {
    hide Append, SetTo;
    if events != [] {
      var e := Append(s, events[0].record, events[0].evidenceFull, cfg).state;
      AppendSets(s, events[0].record, events[0].evidenceFull, cfg);
      LastSettingHolds(e, events[1..], cfg, t);
      hide LastSet;
      LastSetNext(FabricSet, events, s.fabricGeneration, e.fabricGeneration, t.fabricGeneration);
      LastSetNext(CapacitySet, events, s.capacityGeneration, e.capacityGeneration, t.capacityGeneration);
      LastSetNext(BootSet, events, s.boot, e.boot, t.boot);
      LastSetNext(TermSet, events, s.term, e.term, t.term);
      LastSetNext(CommitSet, events, s.lastCommit, e.lastCommit, t.lastCommit);
    }
  }

  // So is the policy.
  lemma {:induction false} LastPolicyHolds(s: Durable, events: seq<Event>, cfg: Config, t: Durable, i: nat)
    requires RunsTo(s, events, cfg, t) && i < |events| && PolicySet(events[i].record).Some?
    requires forall j | i < j < |events| :: PolicySet(events[j].record).None?
    ensures t.policy == PolicySet(events[i].record)
    decreases |events|
  {
    hide Append, SetTo;
    var e, rest := Append(s, events[0].record, events[0].evidenceFull, cfg).state, events[1..];
    AppendSets(s, events[0].record, events[0].evidenceFull, cfg);
    assert forall j | 0 < j < |events| :: events[j] == rest[j - 1];
    if i > 0 { LastPolicyHolds(e, rest, cfg, t, i - 1); } else { PolicyStays(e, rest, cfg, t); }
  }

  lemma {:induction false} PolicyStays(s: Durable, events: seq<Event>, cfg: Config, t: Durable)
    requires RunsTo(s, events, cfg, t) && forall j | 0 <= j < |events| :: PolicySet(events[j].record).None?
    ensures t.policy == s.policy
    decreases |events|
  {
    hide Append, SetTo;
    if events != [] {
      AppendSets(s, events[0].record, events[0].evidenceFull, cfg);
      PolicyStays(Append(s, events[0].record, events[0].evidenceFull, cfg).state, events[1..], cfg, t);
    }
  }

  // --------------------------------------------------------------------------
  // High-water marks
  // --------------------------------------------------------------------------

  function GrantNamed(r: Record): nat { if r.GrantIssued? then r.grant.id else 0 }
  function FenceNamed(r: Record): nat { if r.GrantEnded? then r.fence.id else 0 }
  function DecisionNamed(r: Record): nat { if r.DecisionRecorded? then r.decision.id else 0 }
  function EvidenceNamed(r: Record): nat { if r.EvidencePublished? then r.evidenceId else 0 }

  lemma {:induction false} AppendRaises(s: Durable, r: Record, full: bool, cfg: Config)
    requires Append(s, r, full, cfg).status.None?
    ensures var t := Append(s, r, full, cfg).state;
      && t.grantHigh == Max(s.grantHigh, GrantNamed(r)) && t.fenceHigh == Max(s.fenceHigh, FenceNamed(r))
      && t.decisionHigh == Max(s.decisionHigh, DecisionNamed(r))
      && t.evidenceHigh == Max(s.evidenceHigh, EvidenceNamed(r))
  {
    hide Append, Count, GrantAt, ContractAt, Allowed, DecisionCount, SetDecisionCount, EndCount, SetEndCount;
    AppendIsApply(s, r, full, cfg);
  }

  // h is the highest of what was there and what the events name.
  ghost predicate Highest(named: Record -> nat, events: seq<Event>, before: nat, h: nat) {
    && before <= h && (forall i | 0 <= i < |events| :: named(events[i].record) <= h)
    && (h == before || exists i | 0 <= i < |events| :: named(events[i].record) == h)
  }

  lemma {:induction false} HighestNext(named: Record -> nat, events: seq<Event>, before: nat, next: nat, h: nat)
    requires events != [] && next == Max(before, named(events[0].record)) && Highest(named, events[1..], next, h)
    ensures Highest(named, events, before, h)
  {
    var rest := events[1..];
    assert forall j | 0 < j < |events| :: events[j] == rest[j - 1];
    if i :| 0 <= i < |rest| && named(rest[i].record) == h { assert named(events[i + 1].record) == h; }
  }

  // The high-water marks are the highest identities the records name.
  lemma {:induction false} MarksAreHighest(s: Durable, events: seq<Event>, cfg: Config, t: Durable)
    requires RunsTo(s, events, cfg, t)
    ensures Highest(GrantNamed, events, s.grantHigh, t.grantHigh)
    ensures Highest(FenceNamed, events, s.fenceHigh, t.fenceHigh)
    ensures Highest(DecisionNamed, events, s.decisionHigh, t.decisionHigh)
    ensures Highest(EvidenceNamed, events, s.evidenceHigh, t.evidenceHigh)
    decreases |events|
  {
    hide Append;
    if events != [] {
      var e := Append(s, events[0].record, events[0].evidenceFull, cfg).state;
      AppendRaises(s, events[0].record, events[0].evidenceFull, cfg);
      MarksAreHighest(e, events[1..], cfg, t);
      hide Highest;
      HighestNext(GrantNamed, events, s.grantHigh, e.grantHigh, t.grantHigh);
      HighestNext(FenceNamed, events, s.fenceHigh, e.fenceHigh, t.fenceHigh);
      HighestNext(DecisionNamed, events, s.decisionHigh, e.decisionHigh, t.decisionHigh);
      HighestNext(EvidenceNamed, events, s.evidenceHigh, e.evidenceHigh, t.evidenceHigh);
    }
  }

  // --------------------------------------------------------------------------
  // Contracts
  // --------------------------------------------------------------------------

  function ContractOf(s: Durable, id: u64): Option<ServiceContract> {
    var i := ContractAt(s.contracts, id);
    if i < |s.contracts| then Some(s.contracts[i]) else None
  }

  predicate About(r: Record, id: u64) {
    (r.ContractRegistered? && r.contract.id == id) || (r.ContractRetired? && r.contractId == id)
  }

  lemma {:induction false} ContractUpdated(cs: seq<ServiceContract>, i: nat, c: ServiceContract, id: u64)
    requires i < |cs| && c.id == cs[i].id
    ensures ContractAt(cs[i := c], id) == ContractAt(cs, id)
  {
    hide ContractAt;
    var a, b := ContractAt(cs, id), ContractAt(cs[i := c], id);
    assert forall j | 0 <= j < |cs| :: cs[i := c][j].id == cs[j].id;
    assert a < |cs| ==> cs[i := c][a].id == id;
    assert b < |cs| ==> cs[b].id == id;
  }

  lemma {:induction false} ContractPushed(cs: seq<ServiceContract>, c: ServiceContract, id: u64)
    requires ContractAt(cs, c.id) == |cs|
    ensures ContractAt(cs + [c], id) ==
      if id == c.id then |cs| else if ContractAt(cs, id) < |cs| then ContractAt(cs, id) else |cs| + 1
  {
    hide ContractAt;
    var a, b := ContractAt(cs, id), ContractAt(cs + [c], id);
    assert forall j | 0 <= j < |cs| :: (cs + [c])[j] == cs[j];
    assert (cs + [c])[|cs|] == c;
    assert b < |cs| ==> (cs + [c])[b].id == cs[b].id;
    assert a < |cs| ==> (cs + [c])[a].id == id;
  }

  lemma {:induction false} AppendContract(s: Durable, r: Record, full: bool, cfg: Config, id: u64)
    requires Append(s, r, full, cfg).status.None?
    ensures var t := Append(s, r, full, cfg).state;
      && (!About(r, id) ==> ContractOf(t, id) == ContractOf(s, id))
      && (About(r, id) && r.ContractRegistered? ==> ContractOf(t, id) == Some(r.contract))
      && (About(r, id) && r.ContractRetired? ==>
            ContractOf(s, id).Some? && ContractOf(t, id) == Some(ContractOf(s, id).value.(active := false)))
  {
    hide Append, Count, GrantAt, Allowed, DecisionCount, SetDecisionCount, EndCount, SetEndCount, ContractAt;
    AppendIsApply(s, r, full, cfg);
    if r.ContractRegistered? {
      var i := ContractAt(s.contracts, r.contract.id);
      if i < |s.contracts| {
        ContractUpdated(s.contracts, i, r.contract, id);
      } else {
        ContractPushed(s.contracts, r.contract, id);
      }
    } else if r.ContractRetired? {
      var i := ContractAt(s.contracts, r.contractId);
      if i < |s.contracts| { ContractUpdated(s.contracts, i, s.contracts[i].(active := false), id); }
    }
  }

  lemma {:induction false} ContractStays(s: Durable, events: seq<Event>, cfg: Config, t: Durable, id: u64)
    requires RunsTo(s, events, cfg, t) && forall j | 0 <= j < |events| :: !About(events[j].record, id)
    ensures ContractOf(t, id) == ContractOf(s, id)
    decreases |events|
  {
    hide Append, ContractOf, About;
    if events != [] {
      AppendContract(s, events[0].record, events[0].evidenceFull, cfg, id);
      ContractStays(Append(s, events[0].record, events[0].evidenceFull, cfg).state, events[1..], cfg, t, id);
    }
  }

  // A contract is as it was last registered, and inactive if it was retired since.
  lemma {:induction false} LastRegistrationHolds(s: Durable, events: seq<Event>, cfg: Config, t: Durable, i: nat,
                                                 id: u64)
    requires RunsTo(s, events, cfg, t) && i < |events| && About(events[i].record, id)
    requires forall j | i < j < |events| :: !About(events[j].record, id)
    ensures ContractOf(t, id).Some?
    ensures events[i].record.ContractRegistered? ==> ContractOf(t, id) == Some(events[i].record.contract)
    ensures events[i].record.ContractRetired? ==> !ContractOf(t, id).value.active
    decreases |events|
  {
    hide Append, ContractOf;
    var e, rest := Append(s, events[0].record, events[0].evidenceFull, cfg).state, events[1..];
    AppendContract(s, events[0].record, events[0].evidenceFull, cfg, id);
    assert forall j | 0 < j < |events| :: events[j] == rest[j - 1];
    if i > 0 { LastRegistrationHolds(e, rest, cfg, t, i - 1, id); } else { ContractStays(e, rest, cfg, t, id); }
  }

  // --------------------------------------------------------------------------
  // Which records are taken
  // --------------------------------------------------------------------------

  // Some grant of the identity is in one of the states.
  predicate Has(gs: seq<Grant>, id: u64, states: set<GrantState>) {
    exists g | g in gs :: g.id == id && g.state in states
  }

  // A record is taken where what it is about is there, or is not there yet, is in a state
  // to be moved on from, and where there is room; a boot or a term only if it is later.
  ghost predicate Takes(s: Durable, r: Record, cfg: Config) {
    match r
    case ContractRegistered(c) => (exists d | d in s.contracts :: d.id == c.id) || |s.contracts| < cfg.maxContracts
    case ContractRetired(id) => exists d | d in s.contracts :: d.id == id
    case GrantIssued(g) => (forall h | h in s.grants :: h.id != g.id) && Count(IsLive, s.grants) < cfg.maxGrants
    case GrantAcknowledged(id, _, _, _) => Has(s.grants, id, {Issued})
    case GrantApplied(id, _, _, _) => Has(s.grants, id, {Issued, Acknowledged})
    case GrantEnded(_, f) => Has(s.grants, f.grant, {Issued, Acknowledged, Applied})
    case GrantRebound(id, b) =>
      && Has(s.grants, id, {Issued, Acknowledged, Applied})
      && forall g | g in s.grants && g.id == id :: g.binding.(vector := b.vector) == b
    case BootAdvanced(boot, term, _) => boot > s.boot && term >= s.term && term > 0
    case TermAdvanced(term) => term > s.term
    case _ => true
  }

  lemma {:induction false} OneGrant(gs: seq<Grant>, id: u64)
    requires forall i, j | 0 <= i < j < |gs| :: gs[i].id != gs[j].id
    ensures var i := GrantAt(gs, id);
      && (i == |gs| <==> forall g | g in gs :: g.id != id)
      && (i < |gs| ==> gs[i] in gs && forall g | g in gs && g.id == id :: g == gs[i])
  {
    hide GrantAt;
  }

  lemma {:induction false} OneContract(cs: seq<ServiceContract>, id: u64)
    ensures ContractAt(cs, id) < |cs| <==> exists c | c in cs :: c.id == id
  {
    hide ContractAt;
    var i := ContractAt(cs, id);
    if i < |cs| { assert cs[i] in cs; }
  }

  lemma {:induction false} MovedIff(s: Durable, r: Record, cfg: Config)
    requires Roomy(s) && (r.GrantAcknowledged? || r.GrantApplied? || r.GrantEnded? || r.GrantRebound?)
    requires forall i, j | 0 <= i < j < |s.grants| :: s.grants[i].id != s.grants[j].id
    ensures Apply(s, r, cfg).status.None? <==> Takes(s, r, cfg)
  {
    hide GrantAt, Roomy;
    ApplyKeeps(s, r, cfg);
    OneGrant(s.grants, if r.GrantEnded? then r.fence.grant else r.grantId);
  }

  // A record is taken exactly then.
  lemma {:induction false} TakenIff(s: Durable, r: Record, cfg: Config)
    requires Roomy(s) && Admissible(r, s)
    requires forall i, j | 0 <= i < j < |s.grants| :: s.grants[i].id != s.grants[j].id
    ensures Apply(s, r, cfg).status.None? <==> Takes(s, r, cfg)
  {
    hide GrantAt, ContractAt, Count, Roomy, Has, Admissible;
    if r.GrantAcknowledged? || r.GrantApplied? || r.GrantEnded? || r.GrantRebound? {
      MovedIff(s, r, cfg);
    } else {
      ApplyKeeps(s, r, cfg);
      match r
      case ContractRegistered(c) => OneContract(s.contracts, c.id);
      case ContractRetired(id) => OneContract(s.contracts, id);
      case GrantIssued(g) => OneGrant(s.grants, g.id);
      case _ =>
    }
  }

  // r names a later boot and no earlier term, or a later term.
  predicate Later(boot: u64, term: u64, r: Record) {
    && (r.BootAdvanced? ==> r.boot > boot && r.term >= term)
    && (r.TermAdvanced? ==> r.term > term)
  }

  lemma {:induction false} AppendedIsLater(s: Durable, r: Record, full: bool, cfg: Config)
    requires Append(s, r, full, cfg).status.None?
    ensures Later(s.boot, s.term, r)
  {
    hide Append, Count, GrantAt, ContractAt, Allowed, DecisionCount, SetDecisionCount, EndCount, SetEndCount;
    AppendIsApply(s, r, full, cfg);
  }

  // Over every run boots climb and terms never go back, from the state it starts in and
  // from record to record.
  lemma {:induction false} EpochsClimb(s: Durable, events: seq<Event>, cfg: Config, t: Durable)
    requires RunsTo(s, events, cfg, t)
    ensures s.boot <= t.boot && s.term <= t.term
    ensures forall i | 0 <= i < |events| :: Later(s.boot, s.term, events[i].record)
    ensures forall i, j | 0 <= i < j < |events| && events[i].record.BootAdvanced? ::
      Later(events[i].record.boot, events[i].record.term, events[j].record)
    ensures forall i, j | 0 <= i < j < |events| && events[i].record.TermAdvanced? ::
      Later(0, events[i].record.term, events[j].record)
    decreases |events|
  {
    hide Append;
    if events != [] {
      var r, rest := events[0].record, events[1..];
      var e := Append(s, r, events[0].evidenceFull, cfg).state;
      AppendedIsLater(s, r, events[0].evidenceFull, cfg);
      AppendSets(s, r, events[0].evidenceFull, cfg);
      EpochsClimb(e, rest, cfg, t);
      assert forall j | 0 < j < |events| :: events[j] == rest[j - 1];
    }
  }
}
