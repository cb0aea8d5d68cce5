// The payloads of journal records (decode_record_payload in src/store/state_store.cpp and
// the writers in src/runtime/coordinator.cpp), and recovery from the bytes of a journal.
module RecordCodec {
  import opened Core
  import opened Contracts
  import opened Evidence
  import opened Grants
  import opened Store
  import opened Closure
  import opened Replay
  import opened StateStores
  import opened Codec
  import opened GrantCodec
  import opened DecisionCodec
  import J = Journal

  // --------------------------------------------------------------------------
  // Fences
  // --------------------------------------------------------------------------

  type FenceReasonNumber = n: nat | 1 <= n <= 12 witness 1

  // Every flag below 2^11 names a part of the authority.
  const DELTA_FLAGS: nat := 0x800

  datatype WireFence = WireFence(
    id: u64, grant: u64, reason: FenceReasonNumber, delta: u32, prior: Binding, current: Binding, tick: u64)

  function FenceReasonNamed(n: nat): Option<FenceReasonNumber> {
    if 1 <= n <= 12 then Some(n) else None
  }

  predicate ValidFence(f: WireFence) {
    f.delta < DELTA_FLAGS && f.id != 0 && f.grant != 0
  }

  function ReadFence(s: Input): Read<WireFence> {
    var (id, s1) :- ReadU64(s);
    var (grant, s2) :- ReadU64(s1);
    var (reason, s3) :- ReadEnum(FenceReasonNamed, s2);
    var (delta, s4) :- ReadU32(s3);
    if delta >= DELTA_FLAGS then Fault(Invalid)
    else
      var (prior, s5) :- ReadBinding(s4);
      var (current, s6) :- ReadBinding(s5);
      var (tick, s7) :- ReadU64(s6);
      if id == 0 || grant == 0 then Fault(InvalidArgument)
      else Parsed(WireFence(id, grant, reason, delta, prior, current, tick), s7)
  }

  function FenceCode(f: WireFence, tail: Input): (s: Input)
    ensures ValidFence(f) ==> ReadFence(s) == Parsed(f, tail)
    ensures |tail| <= |s|
  {
    hide ReadU64, ReadU32, ReadEnum, ReadBinding, U64Code, U32Code, EnumCode, BindingCode;
    U64Code(f.id, U64Code(f.grant, EnumCode(FenceReasonNamed, f.reason, U32Code(f.delta,
      BindingCode(f.prior, BindingCode(f.current, U64Code(f.tick, tail)))))))
  }

  lemma {:induction false} FenceSteady(s: Input, x: Input)
    ensures Extends(ReadFence(s), ReadFence(s + x), x)
  {
    hide ReadU64, ReadU32, ReadEnum, ReadBinding;
    WordsSteady(s, x);
    var s1 := Rest(ReadU64(s));
    WordsSteady(s1, x);
    var s2 := Rest(ReadU64(s1));
    EnumSteady(FenceReasonNamed, s2, x);
    var s3 := Rest(ReadEnum(FenceReasonNamed, s2));
    WordsSteady(s3, x);
    var s4 := Rest(ReadU32(s3));
    BindingSteady(s4, x);
    var s5 := Rest(ReadBinding(s4));
    BindingSteady(s5, x);
    WordsSteady(Rest(ReadBinding(s5)), x);
  }

  // A valid fence record is encoded without loss.
  lemma {:induction false} FenceLossless(f: WireFence)
    requires ValidFence(f)
    ensures Lossless(ReadFence, FenceCode(f, []), f)
  {
    hide ReadFence, FenceCode, ValidFence;
    forall s, x ensures Extends(ReadFence(s), ReadFence(s + x), x) { FenceSteady(s, x); }
    SteadyIsLossless(ReadFence, FenceCode(f, []), f);
  }

  // --------------------------------------------------------------------------
  // Payloads
  // --------------------------------------------------------------------------

  // What the store keeps of a grant record and of a fence record.
  function GrantOf(g: GrantRecord): Grant {
    Grant(g.head.id, g.head.binding, g.body.original, g.body.degraded, g.tail.sequence, g.tail.lastAttempt,
          g.tail.issued, g.tail.expires, g.tail.lastTransition, g.tail.state)
  }

  function FenceOf(f: WireFence): Fence {
    Fence(f.id, f.grant, f.prior, f.current, f.tick)
  }

  function EndKindOf(kind: nat): EndKind {
    if kind == 11 then ByExpiry else if kind == 12 then ByRevocation else ByFence
  }

  // What the store keeps of a decision and of a restoration evaluation.
  function DecisionOf(d: DecisionRecord): Decision {
    Decision(d.head.id, d.head.outcome, d.tail.decided)
  }

  function RestorationOf(r: RestorationRecord): Restoration {
    Restoration(r.head.grant, r.head.outcome == PROVEN, r.tail.tick)
  }

  // The counters of the model among all those written.
  function CountersOf(xs: CounterList): Counters {
    Counters(xs[0], xs[1], xs[2], xs[3], xs[4], xs[5], xs[6], xs[7], xs[8], xs[9], xs[10], xs[11], xs[12], xs[13],
             xs[14], xs[16], xs[17], xs[40], xs[41], xs[42])
  }

  // A record that carries one bare number.
  function NumberRecord(kind: nat, n: u64): Record {
    if kind == 2 then ContractRetired(n)
    else if kind == 4 then FabricAdvanced(n)
    else if kind == 5 then CapacityAdvanced(n)
    else if kind == 15 then TermAdvanced(n)
    else if kind == 16 then TornTailObserved
    else EvidenceAdvanced(n)
  }

  function ReadCounter(kind: nat, s: Input): Read<Record> {
    var (n, t) :- ReadU64(s);
    Parsed(NumberRecord(kind, n), t)
  }

  function ReadReport(kind: nat, s: Input): Read<Record> {
    var (v, s1) :- ReadThree(s);
    var (sequence, s2) :- ReadU64(s1);
    Parsed(if kind == 8 then GrantAcknowledged(v.a, v.b, v.c, sequence) else GrantApplied(v.a, v.b, v.c, sequence), s2)
  }

  function ReadRebound(s: Input): Read<Record> {
    var (id, s1) :- ReadU64(s);
    var (binding, s2) :- ReadBinding(s1);
    Parsed(GrantRebound(id, binding), s2)
  }

  function ReadBoot(s: Input): Read<Record> {
    var (v, t) :- ReadThree(s);
    Parsed(BootAdvanced(v.a, v.b, v.c), t)
  }

  function ReadEnded(kind: nat, s: Input): Read<Record> {
    var (f, t) :- ReadFence(s);
    Parsed(GrantEnded(EndKindOf(kind), FenceOf(f)), t)
  }

  ghost function ReadIssued(s: Input): Read<Record> {
    var (g, t) :- ReadGrant(s);
    Parsed(GrantIssued(GrantOf(g)), t)
  }

  function ReadRegistered(s: Input): Read<Record> {
    var (c, t) :- ReadContract(s);
    Parsed(ContractRegistered(c), t)
  }

  function ReadInstalled(s: Input): Read<Record> {
    var (p, t) :- ReadPolicy(s);
    Parsed(PolicyInstalled(p), t)
  }

  function ReadPublished(s: Input): Read<Record> {
    var (x, t) :- ReadItem(s);
    Parsed(EvidencePublished(x.item.generation, x.item.id), t)
  }

  ghost function ReadDecided(s: Input): Read<Record> {
    var (d, t) :- ReadDecision(s);
    Parsed(DecisionRecorded(DecisionOf(d)), t)
  }

  // A restoration-proven record must carry that outcome.
  ghost function ReadRestored(kind: nat, s: Input): Read<Record> {
    var (r, t) :- ReadRestoration(s);
    if kind == 17 && r.head.outcome != PROVEN then Fault(Invalid)
    else Parsed(RestorationRecorded(RestorationOf(r)), t)
  }

  function ReadCheckpoint(s: Input): Read<Record> {
    var (xs, t) :- ReadCounters(s);
    if |xs| != COUNTER_FIELDS then Fault(Invalid) else Parsed(AccountingCheckpoint(CountersOf(xs)), t)
  }

  // decode_record_payload.
  ghost function ReadPayload(kind: nat, s: Input): Read<Record> {
    if kind == 1 then ReadRegistered(s)
    else if kind in {2, 4, 5, 15, 16, 20} then ReadCounter(kind, s)
    else if kind == 3 then ReadInstalled(s)
    else if kind == 6 then ReadPublished(s)
    else if kind == 7 then ReadIssued(s)
    else if kind in {8, 9} then ReadReport(kind, s)
    else if kind in {10, 11, 12} then ReadEnded(kind, s)
    else if kind == 13 then ReadDecided(s)
    else if kind == 14 then ReadBoot(s)
    else if kind in {17, 18} then ReadRestored(kind, s)
    else if kind == 19 then ReadCheckpoint(s)
    else if kind == 21 then ReadRebound(s)
    else Fault(InvalidEnum)
  }

  // The payload of a record is one value and nothing after it.
  ghost function DecodeRaw(raw: J.Raw): Result<Record> {
    match ReadPayload(raw.kind, raw.payload)
    case Fault(e) => Err(e)
    case Parsed(r, rest) => if rest == [] then Ok(r) else Err(TrailingGarbage)
  }

  // --------------------------------------------------------------------------
  // What is written
  // --------------------------------------------------------------------------

  // The values the coordinator encodes.
  datatype Body =
    | Registered(contract: ServiceContract)
    | Installed(policy: Policy)
    | Counted(record: Record)
    | Published(item: WireItem)
    | IssuedGrant(grant: GrantRecord)
    | Reported(record: Record)
    | EndedGrant(kind: EndKind, fence: WireFence)
    | Booted(boot: u64, term: u64, tick: u64)
    | Rebound(id: u64, binding: Binding)
    | TornTail(size: u64)
    | Decided(decision: DecisionRecord)
    | Restored(restoration: RestorationRecord)
    | Checkpoint(counters: CounterList)

  // The record a body stands for.
  function Meaning(b: Body): Record {
    match b
    case Registered(c) => ContractRegistered(c)
    case Installed(p) => PolicyInstalled(p)
    case Counted(r) => r
    case Published(x) => EvidencePublished(x.item.generation, x.item.id)
    case IssuedGrant(g) => GrantIssued(GrantOf(g))
    case Reported(r) => r
    case EndedGrant(k, f) => GrantEnded(k, FenceOf(f))
    case Booted(boot, term, tick) => BootAdvanced(boot, term, tick)
    case Rebound(id, binding) => GrantRebound(id, binding)
    case TornTail(_) => TornTailObserved
    case Decided(d) => DecisionRecorded(DecisionOf(d))
    case Restored(r) => RestorationRecorded(RestorationOf(r))
    case Checkpoint(xs) => AccountingCheckpoint(CountersOf(xs))
  }

  // The counter of a record that carries one bare number.
  function Counter(r: Record): Option<(nat, u64)> {
    match r
    case ContractRetired(n) => Some((2, n))
    case FabricAdvanced(n) => Some((4, n))
    case CapacityAdvanced(n) => Some((5, n))
    case TermAdvanced(n) => Some((15, n))
    case EvidenceAdvanced(n) => Some((20, n))
    case _ => None
  }

  function NumberOf(b: Body): nat {
    match b
    case Registered(_) => 1
    case Installed(_) => 3
    case Counted(r) => if Counter(r).Some? then Counter(r).value.0 else 0
    case Published(_) => 6
    case IssuedGrant(_) => 7
    case Reported(r) => if r.GrantAcknowledged? then 8 else 9
    case EndedGrant(k, _) => if k.ByFence? then 10 else if k.ByExpiry? then 11 else 12
    case Booted(_, _, _) => 14
    case Rebound(_, _) => 21
    case TornTail(_) => 16
    case Decided(_) => 13
    case Restored(r) => if r.head.outcome == PROVEN then 17 else 18
    case Checkpoint(_) => 19
  }

  function ReportCode(r: Record): Input
    requires r.GrantAcknowledged? || r.GrantApplied?
  {
    ThreeCode(Three(r.grantId, r.tick, r.attempt), U64Code(r.sequence, []))
  }

  function BodyCode(b: Body): Input {
    match b
    case Registered(c) => ContractCode(c, [])
    case Installed(p) => PolicyCode(p, [])
    case Counted(r) => if Counter(r).Some? then U64Code(Counter(r).value.1, []) else []
    case Published(x) => ItemCode(x, [])
    case IssuedGrant(g) => GrantCode(g, [])
    case Reported(r) => if r.GrantAcknowledged? || r.GrantApplied? then ReportCode(r) else []
    case EndedGrant(_, f) => FenceCode(f, [])
    case Booted(boot, term, tick) => ThreeCode(Three(boot, term, tick), [])
    case Rebound(id, binding) => U64Code(id, BindingCode(binding, []))
    case TornTail(size) => U64Code(size, [])
    case Decided(d) => DecisionCode(d, [])
    case Restored(r) => RestorationCode(r, [])
    case Checkpoint(xs) => CountersCode(xs, [])
  }

  // What a body must be for the store to accept its payload.
  ghost predicate Writable(b: Body) {
    match b
    case Registered(c) => ValidContract(c)
    case Installed(p) => ValidPolicy(p) && |p.rules| <= MAX_RULES
    case Counted(r) => Counter(r).Some?
    case Published(x) => ItemFault(x.item).None?
    case IssuedGrant(g) => GrantFault(g).None? && ReadableBody(g.body)
    case Reported(r) => r.GrantAcknowledged? || r.GrantApplied?
    case EndedGrant(_, f) => ValidFence(f)
    case Booted(_, _, _) => true
    case Rebound(_, _) => true
    case TornTail(_) => true
    case Decided(d) => ReadableDecision(d)
    case Restored(r) => ReadableRestoration(r)
    case Checkpoint(_) => true
  }

  function RawOf(b: Body): J.Raw {
    J.Raw(NumberOf(b), BodyCode(b))
  }

  // Every writable body decodes to the record it stands for.
  lemma {:induction false} BodyDecodes(b: Body)
    requires Writable(b)
    ensures DecodeRaw(RawOf(b)) == Ok(Meaning(b)) && 1 <= NumberOf(b) <= 21
  {
    hide ReadContract, ReadPolicy, ReadItem, ReadGrant, ReadFence, ReadThree, ReadU64, ReadBinding, ContractCode,
         PolicyCode, ItemCode, GrantCode, FenceCode, ThreeCode, U64Code, BindingCode, ValidContract, ValidPolicy,
         GrantFault, ReadableBody, ItemFault, ValidFence, Normalized, ReadDecision, ReadRestoration, ReadCounters,
         DecisionCode, RestorationCode, CountersCode, ReadableDecision, ReadableRestoration;
    match b
    case Registered(c) => ContractReads(c);
    case Installed(p) => PolicyReads(p, []);
    case Checkpoint(xs) => CountersRead(xs, []);
    case _ =>
  }

  lemma {:induction false} ContractReads(c: ServiceContract)
    requires ValidContract(c)
    ensures ReadContract(ContractCode(c, [])) == Parsed(c, [])
  {
    hide ReadContract, ContractCode, ValidContract;
    ContractLossless(c);
    assert ContractCode(c, []) + [] == ContractCode(c, []);
  }

  // Every decision the store can hold has a body that is written for it.
  lemma {:induction false} DecisionsAreWritten(d: Decision) returns (b: Body)
    requires d.id != 0
    ensures Writable(b) && Meaning(b) == DecisionRecorded(d)
  {
    hide Normalized;
    var vector := AuthorityVector(1, 1, 1, 1, 1, 1);
    var head := DecisionHead(d.id, Binding(vector, 1, 1, 1, 1, 1), Standard, false, 0, d.outcome, RECOMMENDED);
    b := Decided(DecisionRecord(head, DecisionBody([], [], WireDelta([], []), 0, [], []),
                                DecisionTail([], Known, 1, false, 1, d.tick, 0)));
  }

  // --------------------------------------------------------------------------
  // Recovery
  // --------------------------------------------------------------------------

  function RawsOf(bodies: seq<Body>): seq<J.Raw> {
    seq(|bodies|, i requires 0 <= i < |bodies| => RawOf(bodies[i]))
  }

  // The events are those of the bodies, each written within the payload limit.
  ghost predicate Writes(bodies: seq<Body>, events: seq<Event>) {
    && |bodies| == |events|
    && forall i | 0 <= i < |bodies| ::
         Writable(bodies[i]) && |BodyCode(bodies[i])| <= J.MAX_RECORD_PAYLOAD && events[i].record == Meaning(bodies[i])
  }

  ghost function Decoder(): J.Raw -> Result<Record> {
    raw => DecodeRaw(raw)
  }

  lemma {:induction false} BodiesCarry(bodies: seq<Body>, events: seq<Event>)
    requires Writes(bodies, events)
    ensures Carries(RawsOf(bodies), events, Decoder())
  {
    hide BodyCode, Writable, DecodeRaw, Meaning, NumberOf;
    forall i | 0 <= i < |bodies|
      ensures J.ValidRaw(RawsOf(bodies)[i]) && DecodeRaw(RawsOf(bodies)[i]) == Ok(events[i].record) {
      BodyDecodes(bodies[i]);
    }
  }

  // From bytes to state. The store applies what it decodes, so a run's records are those of
  // the payloads it was given. Its journal, cut at any byte, decodes to the records wholly
  // present, and replaying them simulates the live state right after the last of them.
  lemma {:induction false} PayloadsRecover(s: Durable, events: seq<Event>, cfg: Config, end: Durable, raws: seq<J.Raw>,
                                           next: nat, k: nat)
    returns (mid: Durable, rep: Durable, gone: seq<Grant>, lost: seq<Fence>)
    requires Store.Fresh(s) && RunsTo(s, events, cfg, end) && FreshIdentities(events, [])
    requires Carries(raws, events, Decoder())
    requires next + |raws| <= U64_MAX && k <= |J.EncodeSegment(raws, next)|
    ensures var scanned := J.Scan(J.EncodeSegment(raws, next)[..k], next, 0, false);
      && scanned.records == raws[..J.Whole(raws, k)] && !scanned.end.Rejected?
      && ReplayRaw(s, scanned.records, Decoder(), cfg) == Some(rep)
    ensures RunsTo(s, events[..J.Whole(raws, k)], cfg, mid) && Simulates(mid, rep, gone, lost)
  {
    hide RunsTo, FreshIdentities, Simulates, ReplayRaw, J.Scan, J.EncodeSegment, J.Whole, Store.Fresh, Carries,
         Decoder;
    mid, rep, gone, lost := CrashRecovery(s, events, cfg, end, raws, Decoder(), next, k);
  }

  // And so does the journal of every run whose records the coordinator encoded.
  lemma {:induction false} JournalRecovers(s: Durable, events: seq<Event>, cfg: Config, end: Durable, bodies: seq<Body>,
                                           next: nat, k: nat)
    returns (mid: Durable, rep: Durable, gone: seq<Grant>, lost: seq<Fence>)
    requires Store.Fresh(s) && RunsTo(s, events, cfg, end) && FreshIdentities(events, []) && Writes(bodies, events)
    requires next + |bodies| <= U64_MAX && k <= |J.EncodeSegment(RawsOf(bodies), next)|
    ensures var scanned := J.Scan(J.EncodeSegment(RawsOf(bodies), next)[..k], next, 0, false);
      && scanned.records == RawsOf(bodies)[..J.Whole(RawsOf(bodies), k)] && !scanned.end.Rejected?
      && ReplayRaw(s, scanned.records, Decoder(), cfg) == Some(rep)
    ensures RunsTo(s, events[..J.Whole(RawsOf(bodies), k)], cfg, mid) && Simulates(mid, rep, gone, lost)
  {
    hide RunsTo, FreshIdentities, Simulates, ReplayRaw, J.Scan, J.EncodeSegment, J.Whole, Store.Fresh, Carries, Writes,
         RawOf, Decoder;
    BodiesCarry(bodies, events);
    mid, rep, gone, lost := PayloadsRecover(s, events, cfg, end, RawsOf(bodies), next, k);
  }
}
