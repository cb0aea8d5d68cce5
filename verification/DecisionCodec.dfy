// Decisions and restoration evaluations in the journal (src/codec/codec.cpp,
// src/domain/decision.cpp, src/domain/grant.cpp), and the counters of a checkpoint
// (src/runtime/accounting.cpp). Like a grant, a decision comes back with its evidence
// normalised.
module DecisionCodec {
  import opened Core
  import opened Guarantees
  import opened Evidence
  import opened Contracts
  import opened Assessments
  import opened Grants
  import opened Codec
  import opened GrantCodec

  const MAX_REASONS: nat := 32
  const MAX_SUPPORT: nat := 16
  const MAX_EVALUATIONS: nat := 32
  const COUNTER_FIELDS: nat := 45

  // --------------------------------------------------------------------------
  // Enumerations
  // --------------------------------------------------------------------------

  type AuthorityNumber = n: nat | n <= 6
  type PlanStatusNumber = n: nat | 1 <= n <= 6 witness 1
  type SupportNumber = n: nat | 1 <= n <= 5 witness 1
  type RestorationNumber = n: nat | 1 <= n <= 5 witness 1
  type ResultNumber = n: nat | 1 <= n <= 4 witness 1

  // AuthorityLevel::Recommended, PreconditionResult::Satisfied, RestorationOutcome::Proven.
  const RECOMMENDED: AuthorityNumber := 3
  const SATISFIED: ResultNumber := 1
  const PROVEN: RestorationNumber := 1

  function AuthorityNamed(n: nat): Option<AuthorityNumber> {
    if n <= 6 then Some(n) else None
  }

  function PlanStatusNamed(n: nat): Option<PlanStatusNumber> {
    if 1 <= n <= 6 then Some(n) else None
  }

  function SupportNamed(n: nat): Option<SupportNumber> {
    if 1 <= n <= 5 then Some(n) else None
  }

  function RestorationNamed(n: nat): Option<RestorationNumber> {
    if 1 <= n <= 5 then Some(n) else None
  }

  function ResultNamed(n: nat): Option<ResultNumber> {
    if 1 <= n <= 4 then Some(n) else None
  }

  function OutcomeNamed(n: nat): Option<Outcome> {
    if n == 1 then Some(Full) else if n == 2 then Some(DegradedService) else if n == 3 then Some(RefusedService)
    else if n == 4 then Some(EscalatedService) else if n == 5 then Some(UnsupportedService)
    else if n == 6 then Some(IndeterminateService) else if n == 7 then Some(InvalidInputs) else None
  }

  function OutcomeNumber(o: Outcome): u16 {
    match o
    case Full => 1
    case DegradedService => 2
    case RefusedService => 3
    case EscalatedService => 4
    case UnsupportedService => 5
    case IndeterminateService => 6
    case InvalidInputs => 7
  }

  // --------------------------------------------------------------------------
  // Lists inside a decision
  // --------------------------------------------------------------------------

  datatype Support = Support(kind: Kind, support: SupportNumber, reason: ReasonNumber)

  function ReadReason(s: Input): Read<ReasonNumber> { ReadEnum(ReasonNamed, s) }

  function ReasonCode(r: ReasonNumber, tail: Input): (s: Input)
    ensures ReadReason(s) == Parsed(r, tail)
    ensures |tail| <= |s|
  {
    EnumCode(ReasonNamed, r, tail)
  }

  function ReadSupport(s: Input): Read<Support> {
    var (kind, s1) :- ReadKind(s);
    var (support, s2) :- ReadEnum(SupportNamed, s1);
    var (reason, s3) :- ReadReason(s2);
    Parsed(Support(kind, support, reason), s3)
  }

  function SupportCode(x: Support, tail: Input): (s: Input)
    ensures ReadSupport(s) == Parsed(x, tail)
    ensures |tail| <= |s|
  {
    hide ReadEnum, EnumCode, KindCode, ReasonCode, ReadReason;
    KindCode(x.kind, EnumCode(SupportNamed, x.support, ReasonCode(x.reason, tail)))
  }

  function ReadReasons(s: Input): Read<seq<ReasonNumber>> { ReadList(ReadReason, Push, MAX_REASONS, s) }

  function ReadSupports(s: Input): Read<seq<Support>> { ReadList(ReadSupport, Push, MAX_SUPPORT, s) }

  lemma {:induction false} ReasonsRead(xs: seq<ReasonNumber>, tail: Input)
    requires |xs| <= MAX_REASONS
    ensures ReadReasons(ListCode(ReasonCode, xs, tail)) == Parsed(xs, tail)
  {
    hide ReadReason, ReasonCode, ListCode, ReadList, Rebuilds;
    PushRebuilds(xs);
    ListReads(ReadReason, Push, ReasonCode, xs, MAX_REASONS, tail);
  }

  lemma {:induction false} SupportsRead(xs: seq<Support>, tail: Input)
    requires |xs| <= MAX_SUPPORT
    ensures ReadSupports(ListCode(SupportCode, xs, tail)) == Parsed(xs, tail)
  {
    hide ReadSupport, SupportCode, ListCode, ReadList, Rebuilds;
    PushRebuilds(xs);
    ListReads(ReadSupport, Push, SupportCode, xs, MAX_SUPPORT, tail);
  }

  // --------------------------------------------------------------------------
  // Decisions
  // --------------------------------------------------------------------------

  datatype DecisionHead = DecisionHead(
    id: u64, binding: Binding, serviceClass: ServiceClass, protectedObligation: bool, priority: u32,
    outcome: Outcome, authority: AuthorityNumber)

  datatype DecisionBody = DecisionBody(
    original: GuaranteeSet, approved: GuaranteeSet, delta: WireDelta, reason: ReasonNumber,
    reasons: seq<ReasonNumber>, support: seq<Support>)

  datatype DecisionTail = DecisionTail(
    evidence: seq<WireItem>, evidenceState: EvidenceState, planStatus: PlanStatusNumber, escalation: bool,
    provenance: ProvenanceNumber, decided: u64, expires: u64)

  // A decision with everything its record carries.
  datatype DecisionRecord = DecisionRecord(head: DecisionHead, body: DecisionBody, tail: DecisionTail)

  // The first failing check of Decision::validate, if any.
  ghost function DecisionFault(d: DecisionRecord): Option<ErrorCode> {
    if d.head.id == 0 || !BindingSet(d.head.binding) then Some(InvalidArgument)
    else if !Weakens(d.body.original, d.body.approved) then Some(Invalid)
    else if Authorising(d.head.outcome) && d.head.authority < RECOMMENDED then Some(InvalidState)
    else if d.head.outcome.Full? && !d.tail.evidenceState.Known? then Some(InvalidState)
    else if !Authorising(d.head.outcome) && (d.body.delta.concessions != [] || d.body.delta.withdrawals != []) then
      Some(InvalidState)
    else None
  }

  function ReadDecisionHead(s: Input): Read<DecisionHead> {
    var (id, s1) :- ReadU64(s);
    var (binding, s2) :- ReadBinding(s1);
    var (serviceClass, s3) :- ReadClass(s2);
    var (protectedObligation, s4) :- ReadFlag(s3);
    var (priority, s5) :- ReadU32(s4);
    var (outcome, s6) :- ReadEnum(OutcomeNamed, s5);
    var (authority, s7) :- ReadEnum(AuthorityNamed, s6);
    Parsed(DecisionHead(id, binding, serviceClass, protectedObligation, priority, outcome, authority), s7)
  }

  function ReadDecisionBody(s: Input): Read<DecisionBody> {
    var (original, s1) :- ReadGuaranteeSet(s);
    var (approved, s2) :- ReadGuaranteeSet(s1);
    var (delta, s3) :- ReadDelta(s2);
    var (reason, s4) :- ReadReason(s3);
    var (reasons, s5) :- ReadReasons(s4);
    var (support, s6) :- ReadSupports(s5);
    Parsed(DecisionBody(original, approved, delta, reason, reasons, support), s6)
  }

  function ReadDecisionTail(s: Input): Read<DecisionTail> {
    var (evidence, s1) :- ReadEvidence(s);
    var (state, s2) :- ReadEnum(StateNamed, s1);
    var (planStatus, s3) :- ReadEnum(PlanStatusNamed, s2);
    var (escalation, s4) :- ReadFlag(s3);
    var (provenance, s5) :- ReadEnum(ProvenanceNamed, s4);
    var (decided, s6) :- ReadU64(s5);
    var (expires, s7) :- ReadU64(s6);
    Parsed(DecisionTail(evidence, state, planStatus, escalation, provenance, decided, expires), s7)
  }

  ghost function ReadDecision(s: Input): Read<DecisionRecord> {
    var (head, s1) :- ReadDecisionHead(s);
    var (body, s2) :- ReadDecisionBody(s1);
    var (tail, s3) :- ReadDecisionTail(s2);
    var d := DecisionRecord(head, body, tail);
    match DecisionFault(d)
    case Some(e) => Fault(e)
    case None => Parsed(d, s3)
  }

  function DecisionHeadCode(h: DecisionHead, tail: Input): (s: Input)
    ensures ReadDecisionHead(s) == Parsed(h, tail)
    ensures |tail| <= |s|
  {
    hide ReadU64, ReadU32, ReadBinding, ReadEnum, ReadFlag, U64Code, U32Code, BindingCode, ClassCode, FlagCode,
         EnumCode;
    U64Code(h.id, BindingCode(h.binding, ClassCode(h.serviceClass, FlagCode(h.protectedObligation, U32Code(h.priority,
      EnumCode(OutcomeNamed, OutcomeNumber(h.outcome), EnumCode(AuthorityNamed, h.authority, tail)))))))
  }

  // What the reader accepts as a body.
  predicate ReadableDecisionBody(b: DecisionBody) {
    && Canonical(b.original) && Canonical(b.approved) && StorableDelta(b.delta)
    && |b.reasons| <= MAX_REASONS && |b.support| <= MAX_SUPPORT
  }

  function DecisionBodyCode(b: DecisionBody, tail: Input): (s: Input)
    ensures ReadableDecisionBody(b) ==> ReadDecisionBody(s) == Parsed(b, tail)
    ensures |tail| <= |s|
  {
    hide ReadGuaranteeSet, ReadDelta, ReadReason, ReadReasons, ReadSupports, SetCode, DeltaCode, ReasonCode,
         SupportCode, ListCode, Canonical, StorableDelta;
    ListGrows(SupportCode, b.support, tail);
    var s5 := ListCode(SupportCode, b.support, tail);
    ListGrows(ReasonCode, b.reasons, s5);
    var s4 := ListCode(ReasonCode, b.reasons, s5);
    ListsRead(b, tail);
    SetCode(b.original, SetCode(b.approved, DeltaCode(b.delta, ReasonCode(b.reason, s4))))
  }

  lemma {:induction false} ListsRead(b: DecisionBody, tail: Input)
    ensures ReadableDecisionBody(b) ==>
      (var s5 := ListCode(SupportCode, b.support, tail);
       && ReadSupports(s5) == Parsed(b.support, tail)
       && ReadReasons(ListCode(ReasonCode, b.reasons, s5)) == Parsed(b.reasons, s5))
  {
    hide ReadReasons, ReadSupports, ReasonCode, SupportCode, ListCode, Canonical, StorableDelta;
    if ReadableDecisionBody(b) {
      SupportsRead(b.support, tail);
      ReasonsRead(b.reasons, ListCode(SupportCode, b.support, tail));
    }
  }

  function DecisionTailCode(t: DecisionTail, tail: Input): (s: Input)
    ensures ReadableEvidence(t.evidence) ==> ReadDecisionTail(s) == Parsed(t.(evidence := Normalized(t.evidence)), tail)
    ensures |tail| <= |s|
  {
    hide ReadEvidence, ReadEnum, ReadFlag, ReadU64, EvidenceCode, EnumCode, FlagCode, U64Code, ReadableEvidence,
         Normalized;
    var s1 := EnumCode(StateNamed, StateNumber(t.evidenceState), EnumCode(PlanStatusNamed, t.planStatus,
      FlagCode(t.escalation, EnumCode(ProvenanceNamed, t.provenance, U64Code(t.decided, U64Code(t.expires, tail))))));
    EvidenceReads(t.evidence, s1);
    EvidenceCode(t.evidence, s1)
  }

  ghost predicate ReadableDecision(d: DecisionRecord) {
    DecisionFault(d).None? && ReadableDecisionBody(d.body) && ReadableEvidence(d.tail.evidence)
  }

  // The decision with its evidence normalised.
  function TidiedDecision(d: DecisionRecord): DecisionRecord {
    d.(tail := d.tail.(evidence := Normalized(d.tail.evidence)))
  }

  // A valid decision the reader accepts comes back with its evidence normalised.
  function DecisionCode(d: DecisionRecord, tail: Input): (s: Input)
    ensures ReadableDecision(d) ==> ReadDecision(s) == Parsed(TidiedDecision(d), tail)
    ensures |tail| <= |s|
  {
    hide ReadDecisionHead, ReadDecisionBody, ReadDecisionTail, DecisionHeadCode, DecisionBodyCode, DecisionTailCode,
         ReadableDecisionBody, ReadableEvidence, Normalized, Weakens, BindingSet;
    DecisionHeadCode(d.head, DecisionBodyCode(d.body, DecisionTailCode(d.tail, tail)))
  }

  // --------------------------------------------------------------------------
  // Restoration evaluations
  // --------------------------------------------------------------------------

  datatype Evaluation = Evaluation(precondition: Precondition, result: ResultNumber, reason: ReasonNumber)

  datatype RestorationHead = RestorationHead(
    outcome: RestorationNumber, grant: u64, decision: u64, binding: Binding, original: GuaranteeSet,
    degraded: GuaranteeSet)

  datatype RestorationTail = RestorationTail(
    evaluations: seq<Evaluation>, reason: ReasonNumber, evidenceState: EvidenceState, provenance: ProvenanceNumber,
    tick: u64)

  datatype RestorationRecord = RestorationRecord(head: RestorationHead, tail: RestorationTail)

  function ReadEvaluation(s: Input): Read<Evaluation> {
    var (precondition, s1) :- ReadPrecondition(s);
    var (result, s2) :- ReadEnum(ResultNamed, s1);
    var (reason, s3) :- ReadReason(s2);
    Parsed(Evaluation(precondition, result, reason), s3)
  }

  function EvaluationCode(x: Evaluation, tail: Input): (s: Input)
    ensures ValidPrecondition(x.precondition) ==> ReadEvaluation(s) == Parsed(x, tail)
    ensures |tail| <= |s|
  {
    hide ReadPrecondition, ReadEnum, ReadReason, PreconditionCode, EnumCode, ReasonCode, ValidPrecondition;
    PreconditionCode(x.precondition, EnumCode(ResultNamed, x.result, ReasonCode(x.reason, tail)))
  }

  function ReadEvaluations(s: Input): Read<seq<Evaluation>> { ReadList(ReadEvaluation, Push, MAX_EVALUATIONS, s) }

  predicate StorableEvaluations(xs: seq<Evaluation>) {
    |xs| <= MAX_EVALUATIONS && forall i | 0 <= i < |xs| :: ValidPrecondition(xs[i].precondition)
  }

  lemma {:induction false} EvaluationsRead(xs: seq<Evaluation>, tail: Input)
    ensures StorableEvaluations(xs) ==> ReadEvaluations(ListCode(EvaluationCode, xs, tail)) == Parsed(xs, tail)
  {
    hide ReadEvaluation, EvaluationCode, ListCode, ReadList, Rebuilds, ValidPrecondition;
    if StorableEvaluations(xs) {
      PushRebuilds(xs);
      ListReads(ReadEvaluation, Push, EvaluationCode, xs, MAX_EVALUATIONS, tail);
    }
  }

  // The first failing check of RestorationEvaluation::validate, if any.
  ghost function RestorationFault(r: RestorationRecord): Option<ErrorCode> {
    if r.head.grant == 0 || !BindingSet(r.head.binding) then Some(InvalidArgument)
    else if !Canonical(r.head.original) || !Canonical(r.head.degraded) then Some(Invalid)
    else if !Weakens(r.head.original, r.head.degraded) then Some(InvalidState)
    else if r.head.outcome == PROVEN && !r.tail.evidenceState.Known? then Some(InvalidState)
    else if r.head.outcome == PROVEN && exists x | x in r.tail.evaluations :: x.result != SATISFIED then
      Some(InvalidState)
    else None
  }

  function ReadRestorationHead(s: Input): Read<RestorationHead> {
    var (outcome, s1) :- ReadEnum(RestorationNamed, s);
    var (grant, s2) :- ReadU64(s1);
    var (decision, s3) :- ReadU64(s2);
    var (binding, s4) :- ReadBinding(s3);
    var (original, s5) :- ReadGuaranteeSet(s4);
    var (degraded, s6) :- ReadGuaranteeSet(s5);
    Parsed(RestorationHead(outcome, grant, decision, binding, original, degraded), s6)
  }

  function ReadRestorationTail(s: Input): Read<RestorationTail> {
    var (evaluations, s1) :- ReadEvaluations(s);
    var (reason, s2) :- ReadReason(s1);
    var (state, s3) :- ReadEnum(StateNamed, s2);
    var (provenance, s4) :- ReadEnum(ProvenanceNamed, s3);
    var (tick, s5) :- ReadU64(s4);
    Parsed(RestorationTail(evaluations, reason, state, provenance, tick), s5)
  }

  ghost function ReadRestoration(s: Input): Read<RestorationRecord> {
    var (head, s1) :- ReadRestorationHead(s);
    var (tail, s2) :- ReadRestorationTail(s1);
    var r := RestorationRecord(head, tail);
    match RestorationFault(r)
    case Some(e) => Fault(e)
    case None => Parsed(r, s2)
  }

  function RestorationHeadCode(h: RestorationHead, tail: Input): (s: Input)
    ensures Canonical(h.original) && Canonical(h.degraded) ==> ReadRestorationHead(s) == Parsed(h, tail)
    ensures |tail| <= |s|
  {
    hide ReadEnum, ReadU64, ReadBinding, ReadGuaranteeSet, EnumCode, U64Code, BindingCode, SetCode, Canonical;
    EnumCode(RestorationNamed, h.outcome, U64Code(h.grant, U64Code(h.decision, BindingCode(h.binding,
      SetCode(h.original, SetCode(h.degraded, tail))))))
  }

  function RestorationTailCode(t: RestorationTail, tail: Input): (s: Input)
    ensures StorableEvaluations(t.evaluations) ==> ReadRestorationTail(s) == Parsed(t, tail)
    ensures |tail| <= |s|
  {
    hide ReadEvaluations, ReadReason, ReadEnum, ReadU64, EvaluationCode, ListCode, ReasonCode, EnumCode, U64Code,
         StorableEvaluations;
    var s1 := ReasonCode(t.reason, EnumCode(StateNamed, StateNumber(t.evidenceState),
      EnumCode(ProvenanceNamed, t.provenance, U64Code(t.tick, tail))));
    EvaluationsRead(t.evaluations, s1);
    ListGrows(EvaluationCode, t.evaluations, s1);
    ListCode(EvaluationCode, t.evaluations, s1)
  }

  ghost predicate ReadableRestoration(r: RestorationRecord) {
    RestorationFault(r).None? && StorableEvaluations(r.tail.evaluations)
  }

  // A valid restoration the reader accepts comes back as it was.
  function RestorationCode(r: RestorationRecord, tail: Input): (s: Input)
    ensures ReadableRestoration(r) ==> ReadRestoration(s) == Parsed(r, tail)
    ensures |tail| <= |s|
  {
    hide ReadRestorationHead, ReadRestorationTail, RestorationHeadCode, RestorationTailCode, Canonical, Weakens,
         BindingSet, StorableEvaluations;
    RestorationHeadCode(r.head, RestorationTailCode(r.tail, tail))
  }

  // --------------------------------------------------------------------------
  // Counters
  // --------------------------------------------------------------------------

  // All forty-five counters in the order they are written.
  type CounterList = xs: seq<u64> | |xs| == COUNTER_FIELDS witness seq(COUNTER_FIELDS, _ => 0)

  function ReadCounters(s: Input): Read<seq<u64>> {
    ReadMany(ReadU64, Push, COUNTER_FIELDS, [], s)
  }

  function CountersCode(xs: CounterList, tail: Input): Input {
    ManyCode(U64Code, xs, tail)
  }

  lemma {:induction false} CountersRead(xs: CounterList, tail: Input)
    ensures ReadCounters(CountersCode(xs, tail)) == Parsed(xs, tail)
  {
    hide ReadU64, U64Code, ReadMany, ManyCode, Rebuilds;
    PushRebuilds(xs);
    ManyReads(ReadU64, Push, U64Code, xs, 0, tail);
    assert xs[..0] == [] && xs[0..] == xs;
  }

  // --------------------------------------------------------------------------
  // What is decoded
  // --------------------------------------------------------------------------

  // A decision is decoded only if it is identified, approves no more than was asked, carries
  // authority if it grants service, rests on proven evidence if it grants it in full, and
  // concedes nothing if it grants none.
  lemma {:induction false} DecodedDecisionIsSound(s: Input)
    requires ReadDecision(s).Parsed?
    ensures var d := ReadDecision(s).value;
      && d.head.id > 0 && BindingSet(d.head.binding) && Weakens(d.body.original, d.body.approved)
      && (d.head.outcome == Full || d.head.outcome == DegradedService ==> d.head.authority >= RECOMMENDED)
      && (d.head.outcome == Full ==> d.tail.evidenceState == Known)
      && (d.head.outcome != Full && d.head.outcome != DegradedService ==> d.body.delta == WireDelta([], []))
  {
    hide ReadDecisionHead, ReadDecisionBody, ReadDecisionTail, Weakens, BindingSet;
  }

  // A restoration is decoded only if it is of an identified grant that promises no more than
  // was asked, and, where it says proven, if evidence is known and every precondition is met.
  lemma {:induction false} DecodedRestorationIsSound(s: Input)
    requires ReadRestoration(s).Parsed?
    ensures var r := ReadRestoration(s).value;
      && r.head.grant > 0 && BindingSet(r.head.binding) && Weakens(r.head.original, r.head.degraded)
      && (r.head.outcome == PROVEN ==> r.tail.evidenceState == Known)
      && (r.head.outcome == PROVEN ==> forall x | x in r.tail.evaluations :: x.result == SATISFIED)
  {
    hide ReadRestorationHead, ReadRestorationTail, Weakens, BindingSet, Canonical;
  }
}
