// The durable state machine (src/store/state_store.cpp, src/runtime/accounting.cpp):
// typed records applied to one state, bounded retention and the counters that must
// close over both.
module Store {
  import opened Core
  import opened Contracts
  import opened Assessments
  import opened Grants
  import opened Sorting
  import opened Sums

  datatype Decision = Decision(id: u64, outcome: Outcome, tick: u64)
  datatype Restoration = Restoration(grant: u64, proven: bool, tick: u64)

  datatype Counters = Counters(
    decisionsTotal: nat, decisionsFull: nat, decisionsDegraded: nat, decisionsRefused: nat, decisionsEscalated: nat,
    decisionsUnsupported: nat, decisionsIndeterminate: nat, decisionsInvalid: nat,
    issued: nat, acknowledged: nat, applied: nat, fenced: nat, expired: nat, revoked: nat, pruned: nat,
    fencesTotal: nat, fencesPruned: nat, tornTails: nat, boots: nat, termAdvances: nat)

  predicate AllZero(c: Counters) {
    && c.decisionsTotal == 0 && c.decisionsFull == 0 && c.decisionsDegraded == 0 && c.decisionsRefused == 0
    && c.decisionsEscalated == 0 && c.decisionsUnsupported == 0 && c.decisionsIndeterminate == 0
    && c.decisionsInvalid == 0
    && c.issued == 0 && c.acknowledged == 0 && c.applied == 0 && c.fenced == 0 && c.expired == 0 && c.revoked == 0
    && c.pruned == 0 && c.fencesTotal == 0 && c.fencesPruned == 0 && c.tornTails == 0 && c.boots == 0
    && c.termAdvances == 0
  }

  datatype Durable = Durable(
    boot: u64, term: u64, lastCommit: u64, policy: Option<Policy>, contracts: seq<ServiceContract>,
    grants: seq<Grant>, fences: seq<Fence>, decisions: seq<Decision>, restorations: seq<Restoration>,
    evidenceGeneration: u64, capacityGeneration: u64, fabricGeneration: u64,
    counters: Counters, journalSequence: nat, journalRecords: nat, bootCount: nat,
    grantHigh: u64, decisionHigh: u64, fenceHigh: u64, evidenceHigh: u64)

  // The state of a new store.
  predicate Fresh(s: Durable) {
    && s.boot == 0 && s.term == 0 && s.lastCommit == 0 && s.policy == None && s.contracts == []
    && s.grants == [] && s.fences == [] && s.decisions == [] && s.restorations == []
    && s.evidenceGeneration == 0 && s.capacityGeneration == 0 && s.fabricGeneration == 0
    && AllZero(s.counters) && s.journalSequence == 0 && s.journalRecords == 0 && s.bootCount == 0
    && s.grantHigh == 0 && s.decisionHigh == 0 && s.fenceHigh == 0 && s.evidenceHigh == 0
  }

  datatype Config = Config(maxGrants: nat, maxFences: nat, maxDecisions: nat, maxContracts: nat)

  datatype EndKind = ByFence | ByExpiry | ByRevocation

  datatype Record =
    | ContractRegistered(contract: ServiceContract)
    | ContractRetired(contractId: u64)
    | PolicyInstalled(policy: Policy)
    | FabricAdvanced(fabric: u64)
    | CapacityAdvanced(capacity: u64)
    | EvidenceAdvanced(evidence: u64)
    | EvidencePublished(evidenceGeneration: u64, evidenceId: u64)
    | GrantIssued(grant: Grant)
    | GrantAcknowledged(grantId: u64, tick: u64, attempt: u64, sequence: u64)
    | GrantApplied(grantId: u64, tick: u64, attempt: u64, sequence: u64)
    | GrantEnded(kind: EndKind, fence: Fence)
    | GrantRebound(grantId: u64, binding: Binding)
    | DecisionRecorded(decision: Decision)
    | BootAdvanced(boot: u64, term: u64, bootTick: u64)
    | TermAdvanced(term: u64)
    | TornTailObserved
    | RestorationRecorded(restoration: Restoration)
    | AccountingCheckpoint(counters: Counters)

  // --------------------------------------------------------------------------
  // Applying a record
  // --------------------------------------------------------------------------

  // The state a call leaves behind and the status it returns. A failing call may
  // already have changed the state.
  datatype Effect = Effect(state: Durable, status: Option<ErrorCode>)

  function Success(s: Durable): Effect { Effect(s, None) }
  function Failure(s: Durable, e: ErrorCode): Effect { Effect(s, Some(e)) }

  // The first position carrying the identity, or the length.
  function ContractAt(cs: seq<ServiceContract>, id: u64): (i: nat)
    ensures i <= |cs| && (i < |cs| ==> cs[i].id == id) && forall j | 0 <= j < i :: cs[j].id != id
  {
    if cs == [] || cs[0].id == id then 0 else 1 + ContractAt(cs[1..], id)
  }

  function GrantAt(gs: seq<Grant>, id: u64): (i: nat)
    ensures i <= |gs| && (i < |gs| ==> gs[i].id == id) && forall j | 0 <= j < i :: gs[j].id != id
  {
    if gs == [] || gs[0].id == id then 0 else 1 + GrantAt(gs[1..], id)
  }

  predicate IsLive(g: Grant) { g.Live() }
  predicate IsEnded(g: Grant) { !g.Live() }

  function Tally(p: Grant -> bool): Grant -> nat {
    (g: Grant) => if p(g) then 1 else 0
  }

  function Count(p: Grant -> bool, gs: seq<Grant>): nat {
    SumBy(Tally(p), gs)
  }

  function Transitioned(g: Grant, next: GrantState, tick: u64, attempt: u64, sequence: u64): Grant {
    g.(state := next, lastTransition := tick,
       lastAttempt := if attempt != 0 then attempt else g.lastAttempt,
       sequence := if sequence != 0 then sequence else g.sequence)
  }

  // transition_grant.
  function Transition(s: Durable, id: u64, next: GrantState, tick: u64, attempt: u64, sequence: u64): Effect {
    var i := GrantAt(s.grants, id);
    if i == |s.grants| then Failure(s, NotFound)
    else if !Allowed(s.grants[i].state, next) then Failure(s, InvalidState)
    else Success(s.(grants := s.grants[i := Transitioned(s.grants[i], next, tick, attempt, sequence)]))
  }

  function ApplyIssued(s: Durable, g: Grant, cfg: Config): Effect {
    if GrantAt(s.grants, g.id) < |s.grants| then Failure(s, AlreadyExists)
    else if Count(IsLive, s.grants) >= cfg.maxGrants then Failure(s, CapacityExceeded)
    else
      var t := s.(grants := s.grants + [g], grantHigh := Max(s.grantHigh, g.id));
      match CheckedAdd(t.counters.issued, 1)
      case None => Failure(t, Overflow)
      case Some(n) => Success(t.(counters := t.counters.(issued := n)))
  }

  function EndState(k: EndKind): GrantState {
    match k
    case ByFence => Fenced
    case ByExpiry => Expired
    case ByRevocation => Revoked
  }

  function EndCount(c: Counters, k: EndKind): nat {
    match k
    case ByFence => c.fenced
    case ByExpiry => c.expired
    case ByRevocation => c.revoked
  }

  function SetEndCount(c: Counters, k: EndKind, n: nat): Counters {
    match k
    case ByFence => c.(fenced := n)
    case ByExpiry => c.(expired := n)
    case ByRevocation => c.(revoked := n)
  }

  function CountEnd(s: Durable, k: EndKind): Effect {
    match CheckedAdd(s.counters.fencesTotal, 1)
    case None => Failure(s, Overflow)
    case Some(n) =>
      var t := s.(counters := s.counters.(fencesTotal := n));
      match CheckedAdd(EndCount(t.counters, k), 1)
      case None => Failure(t, Overflow)
      case Some(m) => Success(t.(counters := SetEndCount(t.counters, k, m)))
  }

  function ApplyEnded(s: Durable, k: EndKind, f: Fence): Effect {
    var moved := Transition(s, f.grant, EndState(k), f.tick, 0, 0);
    if moved.status.Some? then moved
    else CountEnd(moved.state.(fences := s.fences + [f], fenceHigh := Max(s.fenceHigh, f.id)), k)
  }

  predicate SameSubject(a: Binding, b: Binding) {
    && a.contract == b.contract && a.contractGeneration == b.contractGeneration
    && a.subject == b.subject && a.subjectGeneration == b.subjectGeneration && a.scope == b.scope
  }

  function ApplyRebound(s: Durable, id: u64, b: Binding): Effect {
    var i := GrantAt(s.grants, id);
    if i == |s.grants| then Failure(s, NotFound)
    else if !s.grants[i].Live() then Failure(s, InvalidState)
    else if !SameSubject(s.grants[i].binding, b) then Failure(s, Invalid)
    else Success(s.(grants := s.grants[i := s.grants[i].(binding := b)]))
  }

  function DecisionCount(c: Counters, o: Outcome): nat {
    match o
    case Full => c.decisionsFull
    case DegradedService => c.decisionsDegraded
    case RefusedService => c.decisionsRefused
    case EscalatedService => c.decisionsEscalated
    case UnsupportedService => c.decisionsUnsupported
    case IndeterminateService => c.decisionsIndeterminate
    case InvalidInputs => c.decisionsInvalid
  }

  function SetDecisionCount(c: Counters, o: Outcome, n: nat): Counters {
    match o
    case Full => c.(decisionsFull := n)
    case DegradedService => c.(decisionsDegraded := n)
    case RefusedService => c.(decisionsRefused := n)
    case EscalatedService => c.(decisionsEscalated := n)
    case UnsupportedService => c.(decisionsUnsupported := n)
    case IndeterminateService => c.(decisionsIndeterminate := n)
    case InvalidInputs => c.(decisionsInvalid := n)
  }

  function CountDecision(s: Durable, o: Outcome): Effect {
    match CheckedAdd(s.counters.decisionsTotal, 1)
    case None => Failure(s, Overflow)
    case Some(n) =>
      var t := s.(counters := s.counters.(decisionsTotal := n));
      match CheckedAdd(DecisionCount(t.counters, o), 1)
      case None => Failure(t, Overflow)
      case Some(m) => Success(t.(counters := SetDecisionCount(t.counters, o, m)))
  }

  function CountTerm(s: Durable): Effect {
    match CheckedAdd(s.counters.termAdvances, 1)
    case None => Failure(s, Overflow)
    case Some(n) => Success(s.(counters := s.counters.(termAdvances := n)))
  }

  function CountBoot(s: Durable): Effect {
    match CheckedAdd(s.bootCount, 1)
    case None => Failure(s, Overflow)
    case Some(n) =>
      var t := s.(bootCount := n);
      match CheckedAdd(t.counters.boots, 1)
      case None => Failure(t, Overflow)
      case Some(m) => CountTerm(t.(counters := t.counters.(boots := m)))
  }

  function ApplyBoot(s: Durable, boot: u64, term: u64, tick: u64): Effect {
    if boot == 0 || term == 0 then Failure(s, Invalid)
    else if s.boot != 0 && boot <= s.boot then Failure(s, SequenceRegression)
    else if s.term != 0 && term < s.term then Failure(s, SequenceRegression)
    else CountBoot(s.(boot := boot, term := term, lastCommit := tick))
  }

  function ApplyTerm(s: Durable, term: u64): Effect {
    if term == 0 then Failure(s, Invalid)
    else if s.term != 0 && term <= s.term then Failure(s, SequenceRegression)
    else CountTerm(s.(term := term))
  }

  function ApplyRegistered(s: Durable, c: ServiceContract, cfg: Config): Effect {
    var i := ContractAt(s.contracts, c.id);
    if i < |s.contracts| then Success(s.(contracts := s.contracts[i := c]))
    else if |s.contracts| >= cfg.maxContracts then Failure(s, CapacityExceeded)
    else Success(s.(contracts := s.contracts + [c]))
  }

  function ApplyRetired(s: Durable, id: u64): Effect {
    var i := ContractAt(s.contracts, id);
    if i == |s.contracts| then Failure(s, NotFound)
    else Success(s.(contracts := s.contracts[i := s.contracts[i].(active := false)]))
  }

  function ApplyMoved(s: Durable, id: u64, next: GrantState, tick: u64, attempt: u64, sequence: u64): Effect {
    var moved := Transition(s, id, next, tick, attempt, sequence);
    if moved.status.Some? then moved
    else
      var c := moved.state.counters;
      match CheckedAdd(if next.Acknowledged? then c.acknowledged else c.applied, 1)
      case None => Failure(moved.state, Overflow)
      case Some(n) =>
        Success(moved.state.(counters := if next.Acknowledged? then c.(acknowledged := n) else c.(applied := n)))
  }

  function ApplyTornTail(s: Durable): Effect {
    match CheckedAdd(s.counters.tornTails, 1)
    case None => Failure(s, Overflow)
    case Some(n) => Success(s.(counters := s.counters.(tornTails := n)))
  }

  // apply_record.
  function Apply(s: Durable, r: Record, cfg: Config): Effect {
    match r
    case ContractRegistered(c) => ApplyRegistered(s, c, cfg)
    case ContractRetired(id) => ApplyRetired(s, id)
    case PolicyInstalled(p) => Success(s.(policy := Some(p)))
    case FabricAdvanced(g) => Success(s.(fabricGeneration := g))
    case CapacityAdvanced(g) => Success(s.(capacityGeneration := g))
    case EvidenceAdvanced(g) => Success(s.(evidenceGeneration := g))
    case EvidencePublished(g, id) =>
      Success(s.(evidenceGeneration := Max(s.evidenceGeneration, g), evidenceHigh := Max(s.evidenceHigh, id)))
    case GrantIssued(g) => ApplyIssued(s, g, cfg)
    case GrantAcknowledged(id, tick, attempt, sequence) => ApplyMoved(s, id, Acknowledged, tick, attempt, sequence)
    case GrantApplied(id, tick, attempt, sequence) => ApplyMoved(s, id, Applied, tick, attempt, sequence)
    case GrantEnded(k, f) => ApplyEnded(s, k, f)
    case GrantRebound(id, b) => ApplyRebound(s, id, b)
    case DecisionRecorded(d) =>
      CountDecision(s.(decisions := s.decisions + [d], decisionHigh := Max(s.decisionHigh, d.id)), d.outcome)
    case BootAdvanced(boot, term, tick) => ApplyBoot(s, boot, term, tick)
    case TermAdvanced(term) => ApplyTerm(s, term)
    case TornTailObserved => ApplyTornTail(s)
    case RestorationRecorded(x) => Success(s.(restorations := s.restorations + [x]))
    case AccountingCheckpoint(c) => Success(s.(counters := c))
  }

  // --------------------------------------------------------------------------
  // Bounded retention
  // --------------------------------------------------------------------------

  predicate NewerGrant(a: Grant, b: Grant) {
    if a.lastTransition != b.lastTransition then a.lastTransition > b.lastTransition else a.id > b.id
  }

  predicate GrantBefore(a: Grant, b: Grant) { a.id < b.id }

  predicate NewerFence(a: Fence, b: Fence) {
    if a.tick != b.tick then a.tick > b.tick else a.id > b.id
  }

  predicate FenceBefore(a: Fence, b: Fence) { a.id < b.id }

  predicate NewerDecision(a: Decision, b: Decision) {
    if a.tick != b.tick then a.tick > b.tick else a.id > b.id
  }

  predicate DecisionBefore(a: Decision, b: Decision) { a.id < b.id }

  predicate NewerRestoration(a: Restoration, b: Restoration) {
    if a.tick != b.tick then a.tick > b.tick else a.grant > b.grant
  }

  // The ended grants in the order they are kept, newest first.
  function EndedByAge(gs: seq<Grant>): seq<Grant> {
    SortBy(NewerGrant, Filter(IsEnded, gs))
  }

  function Budget(gs: seq<Grant>, cfg: Config): nat {
    var live := Count(IsLive, gs);
    if cfg.maxGrants > live then cfg.maxGrants - live else 0
  }

  // How many ended grants go.
  function Dropped(gs: seq<Grant>, cfg: Config): nat {
    var ended := |EndedByAge(gs)|;
    if ended > Budget(gs, cfg) then ended - Budget(gs, cfg) else 0
  }

  function KeptGrants(gs: seq<Grant>, cfg: Config): seq<Grant> {
    SortBy(GrantBefore, Filter(IsLive, gs) + EndedByAge(gs)[..|EndedByAge(gs)| - Dropped(gs, cfg)])
  }

  function PruneGrants(s: Durable, cfg: Config): Effect {
    var dropped := Dropped(s.grants, cfg);
    if dropped == 0 then Success(s.(grants := KeptGrants(s.grants, cfg)))
    else
      match CheckedAdd(s.counters.pruned, dropped)
      case None => Failure(s, Overflow)
      case Some(n) => Success(s.(grants := KeptGrants(s.grants, cfg), counters := s.counters.(pruned := n)))
  }

  function FencesByAge(fs: seq<Fence>): seq<Fence> {
    SortBy(NewerFence, fs)
  }

  function PruneFences(s: Durable, cfg: Config): Effect {
    if |s.fences| <= cfg.maxFences then Success(s)
    else
      var dropped := |s.fences| - cfg.maxFences;
      var t := s.(fences := SortBy(FenceBefore, FencesByAge(s.fences)[..cfg.maxFences]));
      match CheckedAdd(s.counters.fencesPruned, dropped)
      case None => Failure(t, Overflow)
      case Some(n) => Success(t.(counters := t.counters.(fencesPruned := n)))
  }

  function PruneHistory(s: Durable, cfg: Config): Durable {
    s.(decisions := if |s.decisions| <= cfg.maxDecisions then s.decisions
                    else SortBy(DecisionBefore, SortBy(NewerDecision, s.decisions)[..cfg.maxDecisions]),
       restorations := if |s.restorations| <= cfg.maxDecisions then s.restorations
                       else SortBy(NewerRestoration, s.restorations)[..cfg.maxDecisions])
  }

  // prune.
  function Prune(s: Durable, cfg: Config): Effect {
    var g := PruneGrants(s, cfg);
    if g.status.Some? then g
    else
      var f := PruneFences(g.state, cfg);
      if f.status.Some? then f else Success(PruneHistory(f.state, cfg))
  }

  // --------------------------------------------------------------------------
  // Appending
  // --------------------------------------------------------------------------

  predicate Overfull(s: Durable, cfg: Config) {
    |s.grants| > cfg.maxGrants * 2 || |s.fences| > cfg.maxFences * 2 || |s.decisions| > cfg.maxDecisions * 2
  }

  // append_batched, past the write: number the record, apply it, prune when due.
  // `evidenceFull` is the retained-evidence bound, which the model does not track.
  function Append(s: Durable, r: Record, evidenceFull: bool, cfg: Config): Effect {
    if s.journalSequence >= U64_MAX || s.journalRecords >= U64_MAX then Failure(s, Overflow)
    else
      var numbered := s.(journalSequence := s.journalSequence + 1, journalRecords := s.journalRecords + 1);
      var applied := Apply(numbered, r, cfg);
      if applied.status.Some? then applied
      else if Overfull(applied.state, cfg) || evidenceFull then Prune(applied.state, cfg)
      else applied
  }
}
