// The state store in its own form (src/store/state_store.cpp): records applied by
// updating the durable state in place, pruning, appending, and recovery from the
// bytes of a segment.
module StateStores {
  import opened Core
  import opened Contracts
  import opened Grants
  import opened Store
  import opened Closure
  import opened Replay
  import opened Sorting
  import opened Sums
  import opened Subsets
  import J = Journal

  // Decoding and applying raw records one after the other.
  ghost function ReplayRaw(s: Durable, raws: seq<J.Raw>, decode: J.Raw -> Result<Record>, cfg: Config): Option<Durable>
    decreases |raws|
  {
    if raws == [] then Some(s)
    else
      match decode(raws[0])
      case Err(_) => None
      case Ok(r) =>
        var e := Apply(s, r, cfg);
        if e.status.Some? then None else ReplayRaw(e.state, raws[1..], decode, cfg)
  }

  lemma {:induction false} CountNext(gs: seq<Grant>, i: nat)
    requires i < |gs|
    ensures Count(IsLive, gs[..i + 1]) == Count(IsLive, gs[..i]) + One(gs[i].Live())
  {
    hide Count;
    CountPush(IsLive, gs[..i], gs[i]);
    assert gs[..i + 1] == gs[..i] + [gs[i]];
  }

  lemma {:induction false} CountStart(gs: seq<Grant>)
    ensures Count(IsLive, gs[..0]) == 0
  {
  }

  class StateStore {
    const cfg: Config
    var state: Durable

    constructor (cfg: Config)
      ensures this.cfg == cfg && Fresh(state)
    {
      this.cfg := cfg;
      state := Durable(0, 0, 0, None, [], [], [], [], [], 0, 0, 0,
        Counters(0, 0, 0, 0, 0, 0, 0, 0, 0, 0, 0, 0, 0, 0, 0, 0, 0, 0, 0, 0), 0, 0, 0, 0, 0, 0, 0);
    }

    method LiveGrants() returns (n: nat)
      ensures n == Count(IsLive, state.grants)
    {
      hide Count;
      n := 0;
      CountStart(state.grants);
      for i := 0 to |state.grants|
        invariant n == Count(IsLive, state.grants[..i])
      {
        CountNext(state.grants, i);
        if state.grants[i].Live() { n := n + 1; }
      }
      assert state.grants[..|state.grants|] == state.grants;
    }

    method FindGrant(id: u64) returns (i: nat)
      ensures i == GrantAt(state.grants, id)
    {
      hide GrantAt;
      i := 0;
      while i < |state.grants|
        invariant i <= |state.grants| && forall j | 0 <= j < i :: state.grants[j].id != id
      {
        if state.grants[i].id == id { return; }
        i := i + 1;
      }
    }

    method MoveGrant(id: u64, next: GrantState, tick: u64, attempt: u64, sequence: u64)
    returns (status: Option<ErrorCode>)
      modifies this
      ensures Effect(state, status) == Transition(old(state), id, next, tick, attempt, sequence)
    {
      hide GrantAt, Allowed;
      var i := FindGrant(id);
      if i == |state.grants| { return Some(NotFound); }
      if !Allowed(state.grants[i].state, next) { return Some(InvalidState); }
      var g := state.grants[i].(state := next, lastTransition := tick);
      if attempt != 0 { g := g.(lastAttempt := attempt); }
      if sequence != 0 { g := g.(sequence := sequence); }
      state := state.(grants := state.grants[i := g]);
      status := None;
    }

    method Register(c: ServiceContract) returns (status: Option<ErrorCode>)
      modifies this
      ensures Effect(state, status) == ApplyRegistered(old(state), c, cfg)
    {
      hide ContractAt;
      var i := FindContract(c.id);
      if i < |state.contracts| {
        state := state.(contracts := state.contracts[i := c]);
        return None;
      }
      if |state.contracts| >= cfg.maxContracts { return Some(CapacityExceeded); }
      state := state.(contracts := state.contracts + [c]);
      status := None;
    }

    method FindContract(id: u64) returns (i: nat)
      ensures i == ContractAt(state.contracts, id)
    {
      hide ContractAt;
      i := 0;
      while i < |state.contracts|
        invariant i <= |state.contracts| && forall j | 0 <= j < i :: state.contracts[j].id != id
      {
        if state.contracts[i].id == id { return; }
        i := i + 1;
      }
    }

    method Retire(id: u64) returns (status: Option<ErrorCode>)
      modifies this
      ensures Effect(state, status) == ApplyRetired(old(state), id)
    {
      hide ContractAt;
      var i := FindContract(id);
      if i == |state.contracts| { return Some(NotFound); }
      state := state.(contracts := state.contracts[i := state.contracts[i].(active := false)]);
      status := None;
    }

    method Issue(g: Grant) returns (status: Option<ErrorCode>)
      modifies this
      ensures Effect(state, status) == ApplyIssued(old(state), g, cfg)
    {
      hide Count, GrantAt;
      var i := FindGrant(g.id);
      if i < |state.grants| { return Some(AlreadyExists); }
      var live := LiveGrants();
      if live >= cfg.maxGrants { return Some(CapacityExceeded); }
      state := state.(grants := state.grants + [g]);
      if g.id > state.grantHigh { state := state.(grantHigh := g.id); }
      var n := CheckedAdd(state.counters.issued, 1);
      if n.None? { return Some(Overflow); }
      state := state.(counters := state.counters.(issued := n.value));
      status := None;
    }

    method Report(id: u64, next: GrantState, tick: u64, attempt: u64, sequence: u64) returns (status: Option<ErrorCode>)
      modifies this
      ensures Effect(state, status) == ApplyMoved(old(state), id, next, tick, attempt, sequence)
    {
      hide Transition;
      status := MoveGrant(id, next, tick, attempt, sequence);
      if status.Some? { return; }
      if next.Acknowledged? {
        var n := CheckedAdd(state.counters.acknowledged, 1);
        if n.None? { return Some(Overflow); }
        state := state.(counters := state.counters.(acknowledged := n.value));
      } else {
        var n := CheckedAdd(state.counters.applied, 1);
        if n.None? { return Some(Overflow); }
        state := state.(counters := state.counters.(applied := n.value));
      }
    }

    method End(k: EndKind, f: Fence) returns (status: Option<ErrorCode>)
      modifies this
      ensures Effect(state, status) == ApplyEnded(old(state), k, f)
    {
      hide Transition;
      TransitionKeepsFences(state, f.grant, EndState(k), f.tick, 0, 0);
      status := MoveGrant(f.grant, EndState(k), f.tick, 0, 0);
      if status.Some? { return; }
      state := state.(fences := state.fences + [f]);
      if f.id > state.fenceHigh { state := state.(fenceHigh := f.id); }
      var n := CheckedAdd(state.counters.fencesTotal, 1);
      if n.None? { return Some(Overflow); }
      state := state.(counters := state.counters.(fencesTotal := n.value));
      var m := CheckedAdd(EndCount(state.counters, k), 1);
      if m.None? { return Some(Overflow); }
      state := state.(counters := SetEndCount(state.counters, k, m.value));
    }

    method Rebind(id: u64, b: Binding) returns (status: Option<ErrorCode>)
      modifies this
      ensures Effect(state, status) == ApplyRebound(old(state), id, b)
    {
      hide GrantAt, SameSubject;
      var i := FindGrant(id);
      if i == |state.grants| { return Some(NotFound); }
      if !state.grants[i].Live() { return Some(InvalidState); }
      if !SameSubject(state.grants[i].binding, b) { return Some(Invalid); }
      state := state.(grants := state.grants[i := state.grants[i].(binding := b)]);
      status := None;
    }

    method Decide(d: Decision) returns (status: Option<ErrorCode>)
      modifies this
      ensures Effect(state, status) == Apply(old(state), DecisionRecorded(d), cfg)
    {
      state := state.(decisions := state.decisions + [d]);
      if d.id > state.decisionHigh { state := state.(decisionHigh := d.id); }
      var n := CheckedAdd(state.counters.decisionsTotal, 1);
      if n.None? { return Some(Overflow); }
      state := state.(counters := state.counters.(decisionsTotal := n.value));
      var m := CheckedAdd(DecisionCount(state.counters, d.outcome), 1);
      if m.None? { return Some(Overflow); }
      state := state.(counters := SetDecisionCount(state.counters, d.outcome, m.value));
      status := None;
    }

    method AdvanceTerm(term: u64) returns (status: Option<ErrorCode>)
      modifies this
      ensures Effect(state, status) == ApplyTerm(old(state), term)
    {
      if term == 0 { return Some(Invalid); }
      if state.term != 0 && term <= state.term { return Some(SequenceRegression); }
      state := state.(term := term);
      var n := CheckedAdd(state.counters.termAdvances, 1);
      if n.None? { return Some(Overflow); }
      state := state.(counters := state.counters.(termAdvances := n.value));
      status := None;
    }

    method AdvanceBoot(boot: u64, term: u64, tick: u64) returns (status: Option<ErrorCode>)
      modifies this
      ensures Effect(state, status) == ApplyBoot(old(state), boot, term, tick)
    {
      if boot == 0 || term == 0 { return Some(Invalid); }
      if state.boot != 0 && boot <= state.boot { return Some(SequenceRegression); }
      if state.term != 0 && term < state.term { return Some(SequenceRegression); }
      state := state.(boot := boot, term := term, lastCommit := tick);
      var n := CheckedAdd(state.bootCount, 1);
      if n.None? { return Some(Overflow); }
      state := state.(bootCount := n.value);
      var m := CheckedAdd(state.counters.boots, 1);
      if m.None? { return Some(Overflow); }
      state := state.(counters := state.counters.(boots := m.value));
      var k := CheckedAdd(state.counters.termAdvances, 1);
      if k.None? { return Some(Overflow); }
      state := state.(counters := state.counters.(termAdvances := k.value));
      status := None;
    }

    // apply_record.
    method ApplyRecord(r: Record) returns (status: Option<ErrorCode>)
      modifies this
      ensures Effect(state, status) == Apply(old(state), r, cfg)
    {
      hide ApplyIssued, ApplyMoved, ApplyEnded, ApplyRebound, CountDecision, ApplyBoot, ApplyTerm, ApplyRegistered,
           ApplyRetired;
      match r
      case ContractRegistered(c) => status := Register(c);
      case ContractRetired(id) => status := Retire(id);
      case PolicyInstalled(p) => state := state.(policy := Some(p)); status := None;
      case FabricAdvanced(g) => state := state.(fabricGeneration := g); status := None;
      case CapacityAdvanced(g) => state := state.(capacityGeneration := g); status := None;
      case EvidenceAdvanced(g) => state := state.(evidenceGeneration := g); status := None;
      case EvidencePublished(g, id) =>
        if g > state.evidenceGeneration { state := state.(evidenceGeneration := g); }
        if id > state.evidenceHigh { state := state.(evidenceHigh := id); }
        status := None;
      case GrantIssued(g) => status := Issue(g);
      case GrantAcknowledged(id, tick, attempt, sequence) =>
        status := Report(id, Acknowledged, tick, attempt, sequence);
      case GrantApplied(id, tick, attempt, sequence) => status := Report(id, Applied, tick, attempt, sequence);
      case GrantEnded(k, f) => status := End(k, f);
      case GrantRebound(id, b) => status := Rebind(id, b);
      case DecisionRecorded(d) => status := Decide(d);
      case BootAdvanced(boot, term, tick) => status := AdvanceBoot(boot, term, tick);
      case TermAdvanced(term) => status := AdvanceTerm(term);
      case TornTailObserved =>
        var n := CheckedAdd(state.counters.tornTails, 1);
        if n.None? { return Some(Overflow); }
        state := state.(counters := state.counters.(tornTails := n.value));
        status := None;
      case RestorationRecorded(x) => state := state.(restorations := state.restorations + [x]); status := None;
      case AccountingCheckpoint(c) => state := state.(counters := c); status := None;
    }

    // Separates the live grants from the ended ones.
    method SplitGrants() returns (live: seq<Grant>, ended: seq<Grant>)
      ensures live == Filter(IsLive, state.grants) && ended == Filter(IsEnded, state.grants)
    {
      hide Filter;
      live, ended := [], [];
      NothingFiltered(state.grants);
      for i := 0 to |state.grants|
        invariant live == Filter(IsLive, state.grants[..i]) && ended == Filter(IsEnded, state.grants[..i])
      {
        var g := state.grants[i];
        FilterPush(IsLive, state.grants[..i], g);
        FilterPush(IsEnded, state.grants[..i], g);
        assert state.grants[..i + 1] == state.grants[..i] + [g];
        if g.Live() { live := live + [g]; } else { ended := ended + [g]; }
      }
      assert state.grants[..|state.grants|] == state.grants;
    }

    // Live grants all stay; ended ones stay while the budget lasts, newest first.
    method RetainGrants() returns (status: Option<ErrorCode>)
      modifies this
      ensures Effect(state, status) == PruneGrants(old(state), cfg)
    {
      hide Count, SortBy, Filter;
      var count := LiveGrants();
      var budget := if cfg.maxGrants > count then cfg.maxGrants - count else 0;
      var live, ended := SplitGrants();
      ended := SortBy(NewerGrant, ended);
      assert ended[..|ended|] == ended;
      if |ended| > budget {
        var dropped := |ended| - budget;
        ended := ended[..budget];
        var n := CheckedAdd(state.counters.pruned, dropped);
        if n.None? { return Some(Overflow); }
        state := state.(counters := state.counters.(pruned := n.value));
      }
      state := state.(grants := SortBy(GrantBefore, live + ended));
      status := None;
    }

    method RetainFences() returns (status: Option<ErrorCode>)
      modifies this
      ensures Effect(state, status) == PruneFences(old(state), cfg)
    {
      hide SortBy;
      if |state.fences| > cfg.maxFences {
        var dropped := |state.fences| - cfg.maxFences;
        var byAge := SortBy(NewerFence, state.fences);
        state := state.(fences := SortBy(FenceBefore, byAge[..cfg.maxFences]));
        var n := CheckedAdd(state.counters.fencesPruned, dropped);
        if n.None? { return Some(Overflow); }
        state := state.(counters := state.counters.(fencesPruned := n.value));
      }
      status := None;
    }

    // prune.
    method PruneState() returns (status: Option<ErrorCode>)
      modifies this
      ensures Effect(state, status) == Prune(old(state), cfg)
    {
      hide SortBy, PruneGrants, PruneFences;
      status := RetainGrants();
      if status.Some? { return; }
      status := RetainFences();
      if status.Some? { return; }
      if |state.decisions| > cfg.maxDecisions {
        state := state.(decisions := SortBy(DecisionBefore,
          SortBy(NewerDecision, state.decisions)[..cfg.maxDecisions]));
      }
      if |state.restorations| > cfg.maxDecisions {
        state := state.(restorations := SortBy(NewerRestoration, state.restorations)[..cfg.maxDecisions]);
      }
    }

    // append_batched, past the write.
    method AppendRecord(r: Record, evidenceFull: bool) returns (status: Option<ErrorCode>)
      modifies this
      ensures Effect(state, status) == Append(old(state), r, evidenceFull, cfg)
    {
      hide Apply, Prune;
      if state.journalSequence >= U64_MAX || state.journalRecords >= U64_MAX { return Some(Overflow); }
      state := state.(journalSequence := state.journalSequence + 1);
      state := state.(journalRecords := state.journalRecords + 1);
      status := ApplyRecord(r);
      if status.Some? { return; }
      if Overfull(state, cfg) || evidenceFull { status := PruneState(); }
    }

    // The segment replay loop, decoding and applying each record as it is read.
    method RecoverSegment(file: seq<byte>, first: nat, haveSnapshot: bool, decode: J.Raw -> Result<Record>)
      returns (end: J.End, failed: Option<ErrorCode>, count: nat)
      modifies this
      ensures var scanned := J.Scan(file, first, 0, haveSnapshot);
        && (failed.None? ==> end == scanned.end && count == |scanned.records|
                             && ReplayRaw(old(state), scanned.records, decode, cfg) == Some(state))
        && (failed.Some? ==> ReplayRaw(old(state), scanned.records, decode, cfg).None?)
    {
      hide J.ScanStep, Apply;
      var consumed, expected := 0, first;
      count := 0;
      ghost var scanned := J.Scan(file, first, 0, haveSnapshot);
      assert file[0..] == file;
      while true
        invariant consumed <= |file| && expected == first + count
        invariant var rest := J.Scan(file[consumed..], expected, count, haveSnapshot);
          && scanned.end == rest.end && |scanned.records| == count + |rest.records|
          && ReplayRaw(old(state), scanned.records, decode, cfg) == ReplayRaw(state, rest.records, decode, cfg)
        decreases |file| - consumed
      {
        var step := J.ReadRecord(file, consumed, expected, count, haveSnapshot);
        if step.Stop? { return step.end, None, count; }
        ghost var rest := J.Scan(file[consumed + step.size..], expected + 1, count + 1, haveSnapshot);
        assert file[consumed..][step.size..] == file[consumed + step.size..];
        assert ([step.raw] + rest.records)[1..] == rest.records;
        var record := decode(step.raw);
        if record.Err? { return J.Clean, Some(record.error), count; }
        var status := ApplyRecord(record.value);
        if status.Some? { return J.Clean, status, count; }
        consumed, expected, count := consumed + step.size, expected + 1, count + 1;
      }
    }
  }

  lemma {:induction false} NothingFiltered(gs: seq<Grant>)
    ensures Filter(IsLive, gs[..0]) == [] && Filter(IsEnded, gs[..0]) == []
  {
  }

  // --------------------------------------------------------------------------
  // Crash recovery
  // --------------------------------------------------------------------------

  // The raw records carry the records of the events.
  ghost predicate Carries(raws: seq<J.Raw>, events: seq<Event>, decode: J.Raw -> Result<Record>) {
    && |raws| == |events|
    && forall i | 0 <= i < |raws| :: J.ValidRaw(raws[i]) && decode(raws[i]) == Ok(events[i].record)
  }

  lemma {:induction false} ReplayRawIs(s: Durable, raws: seq<J.Raw>, events: seq<Event>,
                                       decode: J.Raw -> Result<Record>, cfg: Config, t: Durable)
    requires Carries(raws, events, decode) && ReplaysTo(s, events, cfg, t)
    ensures ReplayRaw(s, raws, decode, cfg) == Some(t)
    decreases |raws|
  {
    hide Apply;
    if raws != [] {
      ReplayRawIs(Apply(s, events[0].record, cfg).state, raws[1..], events[1..], decode, cfg, t);
    }
  }

  lemma {:induction false} RunPrefix(s: Durable, events: seq<Event>, cfg: Config, end: Durable, m: nat)
    returns (mid: Durable)
    requires RunsTo(s, events, cfg, end) && m <= |events|
    ensures RunsTo(s, events[..m], cfg, mid)
    decreases |events|
  {
    hide Append, Admissible;
    if m == 0 {
      mid := s;
    } else {
      mid := RunPrefix(Append(s, events[0].record, events[0].evidenceFull, cfg).state, events[1..], cfg, end, m - 1);
      assert events[..m][1..] == events[1..][..m - 1];
    }
  }

  lemma {:induction false} FreshPrefix(events: seq<Event>, gs: seq<Grant>, m: nat)
    requires FreshIdentities(events, gs) && m <= |events|
    ensures FreshIdentities(events[..m], gs)
    decreases |events|
  {
    hide Known;
    if m > 0 {
      var r := events[0].record;
      assert events[..m][1..] == events[1..][..m - 1];
      FreshPrefix(events[1..], if r.GrantIssued? then gs + [r.grant] else gs, m - 1);
    }
  }

  // A journal written by any live run and cut at any byte: recovery applies exactly the
  // records wholly present and ends in a state that simulates the live state right
  // after the last of them.
  lemma {:induction false} CrashRecovery(s: Durable, events: seq<Event>, cfg: Config, end: Durable, raws: seq<J.Raw>,
                                         decode: J.Raw -> Result<Record>, next: nat, k: nat)
    returns (mid: Durable, rep: Durable, gone: seq<Grant>, lost: seq<Fence>)
    requires Fresh(s) && RunsTo(s, events, cfg, end) && FreshIdentities(events, []) && Carries(raws, events, decode)
    requires next + |raws| <= U64_MAX && k <= |J.EncodeSegment(raws, next)|
    ensures var scanned := J.Scan(J.EncodeSegment(raws, next)[..k], next, 0, false);
      && scanned.records == raws[..J.Whole(raws, k)] && !scanned.end.Rejected?
      && ReplayRaw(s, scanned.records, decode, cfg) == Some(rep)
    ensures RunsTo(s, events[..J.Whole(raws, k)], cfg, mid) && Simulates(mid, rep, gone, lost)
  {
    hide RunsTo, FreshIdentities, Simulates, ReplaysTo, ReplayRaw, J.Scan, J.EncodeSegment, J.Whole, Fresh,
         J.OnBoundary;
    var m := J.Whole(raws, k);
    J.CutSegmentRecovers(raws, next, k, 0);
    mid := RunPrefix(s, events, cfg, end, m);
    FreshPrefix(events, [], m);
    rep, gone, lost := ReplayAgrees(s, events[..m], cfg, mid);
    ReplayRawIs(s, raws[..m], events[..m], decode, cfg, rep);
  }
}
