// The grant record on the wire and in the journal, with the evidence and the restoration
// preconditions it carries (src/codec/codec.cpp, src/domain/evidence.cpp,
// src/domain/grant.cpp).
//
// Grant::validate checks neither the evidence nor the list lengths the reader bounds, so
// a valid grant is not always readable. What reads back is exactly what is storable.
module GrantCodec {
  import opened Core
  import opened Guarantees
  import opened Evidence
  import opened Contracts
  import opened Grants
  import opened Sorting
  import opened Codec

  // --------------------------------------------------------------------------
  // Evidence
  // --------------------------------------------------------------------------

  // An evidence item and the wire number of its origin.
  type OriginNumber = n: nat | n <= 3
  datatype WireItem = WireItem(item: EvidenceItem, origin: OriginNumber)

  const MAX_EVIDENCE: nat := 0x1_0000
  const MAX_PRECONDITIONS: nat := 32

  function EvidenceNamed(n: nat): (r: Option<EvidenceKind>)
    ensures r.Some? ==> EvidenceNumber(r.value) == n
  {
    if n == 1 then Some(FabricTopology) else if n == 2 then Some(AggregateBandwidth)
    else if n == 3 then Some(RoundTripLatency)
    else if n == 4 then Some(PathDiversityObserved) else if n == 5 then Some(ReachabilityObserved)
    else if n == 6 then Some(NodeCoverage) else if n == 7 then Some(SynchronousDurability) else None
  }

  function EvidenceNumber(k: EvidenceKind): u16 {
    match k
    case FabricTopology => 1
    case AggregateBandwidth => 2
    case RoundTripLatency => 3
    case PathDiversityObserved => 4
    case ReachabilityObserved => 5
    case NodeCoverage => 6
    case SynchronousDurability => 7
  }

  function StateNamed(n: nat): Option<EvidenceState> {
    if n == 1 then Some(Known) else if n == 2 then Some(Unknown) else if n == 3 then Some(EvidenceState.Stale)
    else if n == 4 then Some(Conflict) else if n == 5 then Some(InvalidEvidence)
    else if n == 6 then Some(UnsupportedEvidence) else None
  }

  function StateNumber(s: EvidenceState): u16 {
    match s
    case Known => 1
    case Unknown => 2
    case Stale => 3
    case Conflict => 4
    case InvalidEvidence => 5
    case UnsupportedEvidence => 6
  }

  function OriginNamed(n: nat): Option<OriginNumber> {
    if n <= 3 then Some(n) else None
  }

  // EvidenceItem::validate.
  function ItemFault(i: EvidenceItem): Option<ErrorCode> {
    if i.publisher == 0 || i.publisherBoot == 0 || i.generation == 0 || i.scope == 0 then Some(InvalidArgument)
    else if i.value > MaxEvidence(i.kind) then Some(OutOfRange)
    else None
  }

  datatype ItemKey = ItemKey(ids: Three, generation: u64, kind: EvidenceKind, scope: u64)

  function ReadItemKey(s: Input): Read<ItemKey> {
    var (ids, s1) :- ReadThree(s);
    var (generation, s2) :- ReadU64(s1);
    var (kind, s3) :- ReadEnum(EvidenceNamed, s2);
    var (scope, s4) :- ReadU64(s3);
    Parsed(ItemKey(ids, generation, kind, scope), s4)
  }

  function ItemKeyCode(k: ItemKey, tail: Input): (s: Input)
    ensures ReadItemKey(s) == Parsed(k, tail)
    ensures |tail| <= |s|
  {
    hide ReadThree, ReadU64, ReadEnum, ThreeCode, U64Code, EnumCode;
    ThreeCode(k.ids, U64Code(k.generation, EnumCode(EvidenceNamed, EvidenceNumber(k.kind), U64Code(k.scope, tail))))
  }

  lemma {:induction false} ItemKeySteady(s: Input, x: Input)
    ensures Extends(ReadItemKey(s), ReadItemKey(s + x), x)
  {
    hide ReadThree, ReadU64, ReadEnum;
    ThreeSteady(s, x);
    var s1 := Rest(ReadThree(s));
    WordsSteady(s1, x);
    var s2 := Rest(ReadU64(s1));
    EnumSteady(EvidenceNamed, s2, x);
    WordsSteady(Rest(ReadEnum(EvidenceNamed, s2)), x);
  }

  function ReadItem(s: Input): Read<WireItem> {
    var (k, s1) :- ReadItemKey(s);
    var (state, s2) :- ReadEnum(StateNamed, s1);
    var (value, s3) :- ReadU64(s2);
    var (tick, s4) :- ReadU64(s3);
    var (origin, s5) :- ReadEnum(OriginNamed, s4);
    var i := EvidenceItem(k.ids.a, k.ids.b, k.ids.c, k.generation, k.kind, k.scope, state, value, tick);
    match ItemFault(i)
    case Some(e) => Fault(e)
    case None => Parsed(WireItem(i, origin), s5)
  }

  function KeyOf(i: EvidenceItem): ItemKey {
    ItemKey(Three(i.id, i.publisher, i.publisherBoot), i.generation, i.kind, i.scope)
  }

  function ItemCode(x: WireItem, tail: Input): (s: Input)
    ensures ItemFault(x.item).None? ==> ReadItem(s) == Parsed(x, tail)
    ensures |tail| <= |s|
  {
    hide ReadItemKey, ReadU64, ReadEnum, ItemKeyCode, U64Code, EnumCode, ItemFault;
    var i := x.item;
    ItemKeyCode(KeyOf(i), EnumCode(StateNamed, StateNumber(i.state), U64Code(i.value, U64Code(i.observedTick,
      EnumCode(OriginNamed, x.origin, tail)))))
  }

  lemma {:induction false} ItemSteady(s: Input, x: Input)
    ensures Extends(ReadItem(s), ReadItem(s + x), x)
  {
    hide ReadItemKey, ReadU64, ReadEnum, ItemFault;
    ItemKeySteady(s, x);
    var s1 := Rest(ReadItemKey(s));
    EnumSteady(StateNamed, s1, x);
    var s2 := Rest(ReadEnum(StateNamed, s1));
    WordsSteady(s2, x);
    var s3 := Rest(ReadU64(s2));
    WordsSteady(s3, x);
    EnumSteady(OriginNamed, Rest(ReadU64(s3)), x);
  }

  // EvidenceVector::push, on an item that has just been validated.
  function PushItem(xs: seq<WireItem>, x: WireItem): Result<seq<WireItem>> {
    if x.item.id == 0 || ItemFault(x.item).Some? then Err(InvalidArgument) else Ok(xs + [x])
  }

  // evidence_item_less.
  predicate ItemBefore(a: WireItem, b: WireItem) {
    var (x, y) := (a.item, b.item);
    if x.scope != y.scope then x.scope < y.scope
    else if x.kind != y.kind then EvidenceNumber(x.kind) < EvidenceNumber(y.kind)
    else if x.publisher != y.publisher then x.publisher < y.publisher
    else if x.generation != y.generation then y.generation < x.generation
    else if x.publisherBoot != y.publisherBoot then y.publisherBoot < x.publisherBoot
    else x.id < y.id
  }

  predicate SameGroup(a: WireItem, b: WireItem) {
    a.item.scope == b.item.scope && a.item.kind == b.item.kind && a.item.publisher == b.item.publisher
  }

  // Items of one group are adjacent after the sort; only the newest of each is kept.
  function Supersede(kept: seq<WireItem>, rest: seq<WireItem>): seq<WireItem>
    decreases |rest|
  {
    if rest == [] then kept
    else if kept != [] && SameGroup(kept[|kept| - 1], rest[0]) then Supersede(kept, rest[1..])
    else Supersede(kept + [rest[0]], rest[1..])
  }

  function Normalized(xs: seq<WireItem>): seq<WireItem> {
    Supersede([], SortBy(ItemBefore, xs))
  }

  function ReadItems(s: Input): Read<seq<WireItem>> {
    ReadList(ReadItem, PushItem, MAX_EVIDENCE, s)
  }

  function ReadEvidence(s: Input): Read<seq<WireItem>> {
    var (items, t) :- ReadItems(s);
    Parsed(Normalized(items), t)
  }

  // Strictly earlier in (scope, kind, publisher).
  predicate GroupBefore(a: WireItem, b: WireItem) {
    ItemBefore(a, b) && !SameGroup(a, b)
  }

  predicate Retained(x: WireItem) {
    x.item.id != 0 && ItemFault(x.item).None?
  }

  // Canonical evidence: one retained item per group, groups ascending.
  ghost predicate Settled(xs: seq<WireItem>) {
    && (forall i | 0 <= i < |xs| :: Retained(xs[i]))
    && (forall i, j | 0 <= i < j < |xs| :: GroupBefore(xs[i], xs[j]))
  }

  lemma {:induction false} ItemsWeak(m: multiset<WireItem>)
    ensures StrictWeak(ItemBefore, m)
  {
  }

  lemma {:induction false} GroupsCompose(a: WireItem, b: WireItem, c: WireItem)
    ensures GroupBefore(a, b) && !ItemBefore(c, b) ==> GroupBefore(a, c)
    ensures GroupBefore(a, b) && GroupBefore(b, c) ==> GroupBefore(a, c)
    ensures !ItemBefore(b, a) && !SameGroup(a, b) ==> GroupBefore(a, b)
    ensures GroupBefore(a, b) ==> !ItemBefore(b, a)
  {
  }

  // Sorting settled evidence moves nothing.
  lemma {:induction false} SettledSorts(xs: seq<WireItem>)
    requires Settled(xs)
    ensures SortBy(ItemBefore, xs) == xs
  {
    hide ItemBefore, SameGroup, Retained;
    if xs != [] {
      SettledSorts(xs[1..]);
      if |xs| > 1 {
        assert GroupBefore(xs[0], xs[1]);
        GroupsCompose(xs[0], xs[1], xs[1]);
      }
      assert xs == [xs[0]] + xs[1..];
    }
  }

  lemma {:induction false} SettledKept(kept: seq<WireItem>, rest: seq<WireItem>)
    requires Settled(kept + rest)
    ensures Supersede(kept, rest) == kept + rest
    decreases |rest|
  {
    hide ItemBefore, SameGroup, Retained;
    if rest == [] {
      assert kept + rest == kept;
    } else {
      var all := kept + rest;
      assert kept + [rest[0]] + rest[1..] == all;
      assert kept != [] ==> GroupBefore(all[|kept| - 1], all[|kept|]);
      SettledKept(kept + [rest[0]], rest[1..]);
    }
  }

  lemma {:induction false} SettledIsNormal(xs: seq<WireItem>)
    requires Settled(xs)
    ensures Normalized(xs) == xs
  {
    hide Settled, Supersede, SortBy;
    SettledSorts(xs);
    assert [] + xs == xs;
    SettledKept([], xs);
  }

  // Superseding sorted retained items leaves settled evidence.
  lemma {:induction false} SupersedeSettles(kept: seq<WireItem>, rest: seq<WireItem>)
    requires Settled(kept) && Sorted(ItemBefore, rest) && forall i | 0 <= i < |rest| :: Retained(rest[i])
    requires kept != [] ==> forall i | 0 <= i < |rest| :: !ItemBefore(rest[i], kept[|kept| - 1])
    ensures Settled(Supersede(kept, rest)) && |Supersede(kept, rest)| <= |kept| + |rest|
    decreases |rest|
  {
    hide ItemBefore, SameGroup, Retained;
    if rest != [] {
      var x := rest[0];
      if kept != [] && SameGroup(kept[|kept| - 1], x) {
        SupersedeSettles(kept, rest[1..]);
      } else {
        KeepsSettled(kept, x);
        SupersedeSettles(kept + [x], rest[1..]);
      }
    }
  }

  lemma {:induction false} KeepsSettled(kept: seq<WireItem>, x: WireItem)
    requires Settled(kept) && Retained(x)
    requires kept != [] ==> !ItemBefore(x, kept[|kept| - 1]) && !SameGroup(kept[|kept| - 1], x)
    ensures Settled(kept + [x])
  {
    hide ItemBefore, SameGroup, Retained, GroupBefore;
    var all := kept + [x];
    forall i, j | 0 <= i < j < |all| ensures GroupBefore(all[i], all[j]) {
      if j == |kept| {
        var last := kept[|kept| - 1];
        GroupsCompose(last, x, x);
        GroupsCompose(kept[i], last, x);
      }
    }
  }

  lemma {:induction false} NormalIsSettled(xs: seq<WireItem>)
    requires forall i | 0 <= i < |xs| :: Retained(xs[i])
    ensures Settled(Normalized(xs)) && |Normalized(xs)| <= |xs|
  {
    hide ItemBefore, SameGroup, Retained, StrictWeak, Sorted, SortBy, Supersede;
    var sorted := SortBy(ItemBefore, xs);
    ItemsWeak(multiset(xs));
    SortByWeak(ItemBefore, xs);
    SameElements(sorted, xs);
    assert forall i | 0 <= i < |sorted| :: sorted[i] in xs;
    SupersedeSettles([], sorted);
  }

  function EvidenceCode(xs: seq<WireItem>, tail: Input): (s: Input)
    ensures |tail| <= |s|
  {
    ListGrows(ItemCode, xs, tail);
    ListCode(ItemCode, xs, tail)
  }

  // What the reader accepts as evidence, in any order.
  predicate ReadableEvidence(xs: seq<WireItem>) {
    |xs| <= MAX_EVIDENCE && forall i | 0 <= i < |xs| :: Retained(xs[i])
  }

  ghost predicate StorableEvidence(xs: seq<WireItem>) {
    |xs| <= MAX_EVIDENCE && Settled(xs)
  }

  // Evidence comes back normalised.
  lemma {:induction false} EvidenceReads(xs: seq<WireItem>, tail: Input)
    ensures ReadableEvidence(xs) ==> ReadEvidence(EvidenceCode(xs, tail)) == Parsed(Normalized(xs), tail)
  {
    hide ReadItem, ItemCode, ListCode, ReadList, ItemFault, Normalized;
    if ReadableEvidence(xs) {
      assert Rebuilds(PushItem, xs);
      ListReads(ReadItem, PushItem, ItemCode, xs, MAX_EVIDENCE, tail);
    }
  }

  lemma {:induction false} StorableIsReadable(xs: seq<WireItem>)
    ensures StorableEvidence(xs) ==> ReadableEvidence(xs) && Normalized(xs) == xs
  {
    hide Normalized, GroupBefore, Retained;
    if StorableEvidence(xs) { SettledIsNormal(xs); }
  }

  lemma {:induction false} EvidenceSteady(s: Input, x: Input)
    ensures Extends(ReadEvidence(s), ReadEvidence(s + x), x)
  {
    hide ReadItem, ReadList, Normalized;
    forall a, b ensures Extends(ReadItem(a), ReadItem(a + b), b) { ItemSteady(a, b); }
    ListSteady(ReadItem, PushItem, MAX_EVIDENCE, s, x);
  }

  lemma {:induction false} ItemsRetained(n: nat, acc: seq<WireItem>, s: Input)
    requires forall i | 0 <= i < |acc| :: Retained(acc[i])
    ensures var r := ReadMany(ReadItem, PushItem, n, acc, s);
      r.Parsed? ==> |r.value| == |acc| + n && forall i | 0 <= i < |r.value| :: Retained(r.value[i])
    decreases n
  {
    hide ReadItem, ItemFault;
    if n > 0 {
      var r := ReadItem(s);
      if r.Parsed? && PushItem(acc, r.value).Ok? { ItemsRetained(n - 1, acc + [r.value], r.rest); }
    }
  }

  lemma {:induction false} EvidenceIsStorable(s: Input)
    ensures var r := ReadEvidence(s); r.Parsed? ==> StorableEvidence(r.value)
  {
    hide ReadMany, ReadU32, Normalized, Settled, Retained;
    var n := ReadCount(MAX_EVIDENCE, s);
    var r := ReadItems(s);
    if r.Parsed? {
      ItemsRetained(n.value, [], n.rest);
      NormalIsSettled(r.value);
    }
  }

  // --------------------------------------------------------------------------
  // Restoration preconditions
  // --------------------------------------------------------------------------

  type PreconditionNumber = n: nat | 1 <= n <= 9 witness 1
  datatype Precondition = Precondition(kind: PreconditionNumber, guarantee: Kind, scope: u64, required: u64, dwell: u64)

  function PreconditionNamed(n: nat): Option<PreconditionNumber> {
    if 1 <= n <= 9 then Some(n) else None
  }

  predicate ValidPrecondition(p: Precondition) {
    p.required <= MaxValue(p.guarantee)
  }

  function ReadPrecondition(s: Input): Read<Precondition> {
    var (kind, s1) :- ReadEnum(PreconditionNamed, s);
    var (guarantee, s2) :- ReadKind(s1);
    var (v, s3) :- ReadThree(s2);
    var p := Precondition(kind, guarantee, v.a, v.b, v.c);
    if ValidPrecondition(p) then Parsed(p, s3) else Fault(Invalid)
  }

  function PreconditionCode(p: Precondition, tail: Input): (s: Input)
    ensures ValidPrecondition(p) ==> ReadPrecondition(s) == Parsed(p, tail)
    ensures |tail| <= |s|
  {
    hide ReadEnum, ReadThree, EnumCode, KindCode, ThreeCode, ValidPrecondition;
    EnumCode(PreconditionNamed, p.kind, KindCode(p.guarantee, ThreeCode(Three(p.scope, p.required, p.dwell), tail)))
  }

  lemma {:induction false} PreconditionSteady(s: Input, x: Input)
    ensures Extends(ReadPrecondition(s), ReadPrecondition(s + x), x)
  {
    hide ReadEnum, ReadThree, ValidPrecondition;
    EnumSteady(PreconditionNamed, s, x);
    var s1 := Rest(ReadEnum(PreconditionNamed, s));
    EnumSteady(KindNamed, s1, x);
    ThreeSteady(Rest(ReadKind(s1)), x);
  }

  function ReadPreconditions(s: Input): Read<seq<Precondition>> {
    ReadList(ReadPrecondition, Push, MAX_PRECONDITIONS, s)
  }

  predicate StorablePreconditions(ps: seq<Precondition>) {
    |ps| <= MAX_PRECONDITIONS && forall i | 0 <= i < |ps| :: ValidPrecondition(ps[i])
  }

  function PreconditionsCode(ps: seq<Precondition>, tail: Input): (s: Input)
    ensures StorablePreconditions(ps) ==> ReadPreconditions(s) == Parsed(ps, tail)
    ensures |tail| <= |s|
  {
    ListGrows(PreconditionCode, ps, tail);
    PreconditionsRead(ps, tail);
    ListCode(PreconditionCode, ps, tail)
  }

  lemma {:induction false} PreconditionsRead(ps: seq<Precondition>, tail: Input)
    ensures StorablePreconditions(ps) ==> ReadPreconditions(ListCode(PreconditionCode, ps, tail)) == Parsed(ps, tail)
  {
    hide ReadPrecondition, PreconditionCode, ListCode, ReadList, Rebuilds, ValidPrecondition;
    if StorablePreconditions(ps) {
      PushRebuilds(ps);
      ListReads(ReadPrecondition, Push, PreconditionCode, ps, MAX_PRECONDITIONS, tail);
    }
  }

  lemma {:induction false} PreconditionsSteady(s: Input, x: Input)
    ensures Extends(ReadPreconditions(s), ReadPreconditions(s + x), x)
  {
    hide ReadPrecondition, ReadList;
    forall a, b ensures Extends(ReadPrecondition(a), ReadPrecondition(a + b), b) { PreconditionSteady(a, b); }
    ListSteady(ReadPrecondition, Push, MAX_PRECONDITIONS, s, x);
  }

  // --------------------------------------------------------------------------
  // The grant
  // --------------------------------------------------------------------------

  type ProvenanceNumber = n: nat | 1 <= n <= 3 witness 1

  datatype GrantHead = GrantHead(id: u64, decision: u64, binding: Binding, serviceClass: ServiceClass,
    protectedObligation: bool)

  datatype GrantBody = GrantBody(
    original: GuaranteeSet, degraded: GuaranteeSet, delta: WireDelta, reason: ReasonNumber, evidence: seq<WireItem>,
    evidenceState: EvidenceState, preconditions: seq<Precondition>)

  datatype GrantTail = GrantTail(
    sequence: u64, lastAttempt: u64, issued: u64, expires: u64, lastTransition: u64, state: GrantState,
      provenance: ProvenanceNumber)

  // A grant with everything its record carries.
  datatype GrantRecord = GrantRecord(head: GrantHead, body: GrantBody, tail: GrantTail)

  function GrantStateNamed(n: nat): Option<GrantState> {
    if n == 1 then Some(Issued) else if n == 2 then Some(Acknowledged) else if n == 3 then Some(Applied)
    else if n == 4 then Some(Fenced) else if n == 5 then Some(Expired) else if n == 6 then Some(Revoked) else None
  }

  function GrantStateNumber(s: GrantState): u16 {
    match s
    case Issued => 1
    case Acknowledged => 2
    case Applied => 3
    case Fenced => 4
    case Expired => 5
    case Revoked => 6
  }

  function ProvenanceNamed(n: nat): Option<ProvenanceNumber> {
    if 1 <= n <= 3 then Some(n) else None
  }

  predicate BindingSet(b: Binding) {
    && b.vector.term != 0 && b.vector.boot != 0 && b.vector.fabric != 0 && b.vector.capacity != 0
    && b.vector.policy != 0 && b.vector.evidence != 0
    && b.contract != 0 && b.contractGeneration != 0 && b.subject != 0 && b.subjectGeneration != 0 && b.scope != 0
  }

  // The first failing check of Grant::validate, if any.
  ghost function GrantFault(g: GrantRecord): Option<ErrorCode> {
    if g.head.id == 0 || g.head.decision == 0 || !BindingSet(g.head.binding)
      || g.tail.sequence == 0 then Some(InvalidArgument)
    else if g.tail.expires < g.tail.issued then Some(Invalid)
    else if !Canonical(g.body.original) || !Canonical(g.body.degraded) then Some(Invalid)
    else if !Weakens(g.body.original, g.body.degraded) then Some(Invalid)
    else if g.head.protectedObligation
      && (g.body.delta.concessions != [] || g.body.delta.withdrawals != []) then Some(InvalidState)
    else None
  }

  function ReadGrantHead(s: Input): Read<GrantHead> {
    var (id, s1) :- ReadU64(s);
    var (decision, s2) :- ReadU64(s1);
    var (binding, s3) :- ReadBinding(s2);
    var (serviceClass, s4) :- ReadClass(s3);
    var (protectedObligation, s5) :- ReadFlag(s4);
    Parsed(GrantHead(id, decision, binding, serviceClass, protectedObligation), s5)
  }

  function ReadGrantBody(s: Input): Read<GrantBody> {
    var (original, s1) :- ReadGuaranteeSet(s);
    var (degraded, s2) :- ReadGuaranteeSet(s1);
    var (delta, s3) :- ReadDelta(s2);
    var (reason, s4) :- ReadEnum(ReasonNamed, s3);
    var (evidence, s5) :- ReadEvidence(s4);
    var (state, s6) :- ReadEnum(StateNamed, s5);
    var (preconditions, s7) :- ReadPreconditions(s6);
    Parsed(GrantBody(original, degraded, delta, reason, evidence, state, preconditions), s7)
  }

  function ReadGrantTail(s: Input): Read<GrantTail> {
    var (v, s1) :- ReadThree(s);
    var (expires, s2) :- ReadU64(s1);
    var (lastTransition, s3) :- ReadU64(s2);
    var (state, s4) :- ReadEnum(GrantStateNamed, s3);
    var (provenance, s5) :- ReadEnum(ProvenanceNamed, s4);
    Parsed(GrantTail(v.a, v.b, v.c, expires, lastTransition, state, provenance), s5)
  }

  ghost function ReadGrant(s: Input): Read<GrantRecord> {
    var (head, s1) :- ReadGrantHead(s);
    var (body, s2) :- ReadGrantBody(s1);
    var (tail, s3) :- ReadGrantTail(s2);
    var g := GrantRecord(head, body, tail);
    match GrantFault(g)
    case Some(e) => Fault(e)
    case None => Parsed(g, s3)
  }

  function GrantHeadCode(h: GrantHead, tail: Input): (s: Input)
    ensures ReadGrantHead(s) == Parsed(h, tail)
    ensures |tail| <= |s|
  {
    hide ReadU64, ReadBinding, ReadEnum, ReadFlag, U64Code, BindingCode, ClassCode, FlagCode;
    U64Code(h.id,
      U64Code(h.decision, BindingCode(h.binding, ClassCode(h.serviceClass, FlagCode(h.protectedObligation, tail)))))
  }

  // What the reader accepts as a body.
  predicate ReadableBody(b: GrantBody) {
    && Canonical(b.original) && Canonical(b.degraded) && StorableDelta(b.delta)
    && ReadableEvidence(b.evidence) && StorablePreconditions(b.preconditions)
  }

  // And what it also leaves as it is.
  ghost predicate StorableBody(b: GrantBody) {
    ReadableBody(b) && StorableEvidence(b.evidence)
  }

  function GrantBodyCode(b: GrantBody, tail: Input): (s: Input)
    ensures ReadableBody(b) ==> ReadGrantBody(s) == Parsed(b.(evidence := Normalized(b.evidence)), tail)
    ensures |tail| <= |s|
  {
    hide ReadGuaranteeSet, ReadDelta, ReadEnum, ReadEvidence, ReadPreconditions, SetCode, DeltaCode, EnumCode,
         EvidenceCode, PreconditionsCode, Canonical, StorableDelta, ReadableEvidence, StorablePreconditions, Normalized;
    var s6 := PreconditionsCode(b.preconditions, tail);
    var s5 := EnumCode(StateNamed, StateNumber(b.evidenceState), s6);
    EvidenceReads(b.evidence, s5);
    SetCode(b.original,
      SetCode(b.degraded, DeltaCode(b.delta, EnumCode(ReasonNamed, b.reason, EvidenceCode(b.evidence, s5)))))
  }

  function GrantTailCode(t: GrantTail, tail: Input): (s: Input)
    ensures ReadGrantTail(s) == Parsed(t, tail)
    ensures |tail| <= |s|
  {
    hide ReadThree, ReadU64, ReadEnum, ThreeCode, U64Code, EnumCode;
    ThreeCode(Three(t.sequence, t.lastAttempt, t.issued), U64Code(t.expires, U64Code(t.lastTransition,
      EnumCode(GrantStateNamed, GrantStateNumber(t.state), EnumCode(ProvenanceNamed, t.provenance, tail)))))
  }

  // The grant with its evidence normalised.
  function Tidied(g: GrantRecord): GrantRecord {
    g.(body := g.body.(evidence := Normalized(g.body.evidence)))
  }

  // A valid grant the reader accepts comes back with its evidence normalised.
  function GrantCode(g: GrantRecord, tail: Input): (s: Input)
    ensures GrantFault(g).None? && ReadableBody(g.body) ==> ReadGrant(s) == Parsed(Tidied(g), tail)
    ensures |tail| <= |s|
  {
    hide ReadGrantHead, ReadGrantBody, ReadGrantTail, GrantHeadCode, GrantBodyCode, GrantTailCode, ReadableBody,
         Normalized, Canonical, Weakens, BindingSet;
    GrantHeadCode(g.head, GrantBodyCode(g.body, GrantTailCode(g.tail, tail)))
  }

  lemma {:induction false} GrantHeadSteady(s: Input, x: Input)
    ensures Extends(ReadGrantHead(s), ReadGrantHead(s + x), x)
  {
    hide ReadU64, ReadBinding, ReadEnum, ReadFlag;
    WordsSteady(s, x);
    var s1 := Rest(ReadU64(s));
    WordsSteady(s1, x);
    var s2 := Rest(ReadU64(s1));
    BindingSteady(s2, x);
    var s3 := Rest(ReadBinding(s2));
    EnumSteady(ClassNamed, s3, x);
    FlagSteady(Rest(ReadClass(s3)), x);
  }

  lemma {:induction false} GrantBodySteady(s: Input, x: Input)
    ensures Extends(ReadGrantBody(s), ReadGrantBody(s + x), x)
  {
    hide ReadGuaranteeSet, ReadDelta, ReadEnum, ReadEvidence, ReadPreconditions;
    SetSteady(s, x);
    var s1 := Rest(ReadGuaranteeSet(s));
    SetSteady(s1, x);
    var s2 := Rest(ReadGuaranteeSet(s1));
    DeltaSteady(s2, x);
    var s3 := Rest(ReadDelta(s2));
    EnumSteady(ReasonNamed, s3, x);
    var s4 := Rest(ReadEnum(ReasonNamed, s3));
    EvidenceSteady(s4, x);
    var s5 := Rest(ReadEvidence(s4));
    EnumSteady(StateNamed, s5, x);
    PreconditionsSteady(Rest(ReadEnum(StateNamed, s5)), x);
  }

  lemma {:induction false} GrantTailSteady(s: Input, x: Input)
    ensures Extends(ReadGrantTail(s), ReadGrantTail(s + x), x)
  {
    hide ReadThree, ReadU64, ReadEnum;
    ThreeSteady(s, x);
    var s1 := Rest(ReadThree(s));
    WordsSteady(s1, x);
    var s2 := Rest(ReadU64(s1));
    WordsSteady(s2, x);
    var s3 := Rest(ReadU64(s2));
    EnumSteady(GrantStateNamed, s3, x);
    EnumSteady(ProvenanceNamed, Rest(ReadEnum(GrantStateNamed, s3)), x);
  }

  lemma {:induction false} GrantSteady(s: Input, x: Input)
    ensures Extends(ReadGrant(s), ReadGrant(s + x), x)
  {
    hide ReadGrantHead, ReadGrantBody, ReadGrantTail, GrantFault;
    GrantHeadSteady(s, x);
    var s1 := Rest(ReadGrantHead(s));
    GrantBodySteady(s1, x);
    GrantTailSteady(Rest(ReadGrantBody(s1)), x);
  }

  // --------------------------------------------------------------------------
  // Exactly the storable grants read back
  // --------------------------------------------------------------------------

  lemma {:induction false} SetIsCanonical(s: Input)
    ensures var r := ReadGuaranteeSet(s); r.Parsed? ==> Canonical(r.value)
  {
    hide SetCode, Lossless, ReadGuaranteeSet, Canonical;
    DecodedSetIsStable(s);
  }

  lemma {:induction false} ConcessionsValid(n: nat, acc: seq<Concession>, s: Input)
    requires forall i | 0 <= i < |acc| :: ValidConcession(acc[i])
    ensures var r := ReadMany(ReadConcession, Push, n, acc, s);
      r.Parsed? ==> |r.value| == |acc| + n && forall i | 0 <= i < |r.value| :: ValidConcession(r.value[i])
    decreases n
  {
    hide ReadEnum, ReadU64, ValidConcession;
    if n > 0 {
      var r := ReadConcession(s);
      if r.Parsed? { ConcessionsValid(n - 1, acc + [r.value], r.rest); }
    }
  }

  lemma {:induction false} WithdrawalsValid(n: nat, acc: seq<WireWithdrawal>, s: Input)
    requires forall i | 0 <= i < |acc| :: ValidWithdrawal(acc[i])
    ensures var r := ReadMany(ReadWithdrawal, Push, n, acc, s);
      r.Parsed? ==> |r.value| == |acc| + n && forall i | 0 <= i < |r.value| :: ValidWithdrawal(r.value[i])
    decreases n
  {
    hide ReadEnum, ReadU64, ValidWithdrawal;
    if n > 0 {
      var r := ReadWithdrawal(s);
      if r.Parsed? { WithdrawalsValid(n - 1, acc + [r.value], r.rest); }
    }
  }

  lemma {:induction false} PreconditionsValid(n: nat, acc: seq<Precondition>, s: Input)
    requires forall i | 0 <= i < |acc| :: ValidPrecondition(acc[i])
    ensures var r := ReadMany(ReadPrecondition, Push, n, acc, s);
      r.Parsed? ==> |r.value| == |acc| + n && forall i | 0 <= i < |r.value| :: ValidPrecondition(r.value[i])
    decreases n
  {
    hide ReadEnum, ReadThree, ValidPrecondition;
    if n > 0 {
      var r := ReadPrecondition(s);
      if r.Parsed? { PreconditionsValid(n - 1, acc + [r.value], r.rest); }
    }
  }

  lemma {:induction false} DeltaIsStorable(s: Input)
    ensures var r := ReadDelta(s); r.Parsed? ==> StorableDelta(r.value)
  {
    hide ReadMany, ReadU32, ValidConcession, ValidWithdrawal;
    var n := ReadCount(MAX_DELTA_ENTRIES, s);
    if n.Parsed? {
      ConcessionsValid(n.value, [], n.rest);
      var t := Rest(ReadConcessions(s));
      var m := ReadCount(MAX_DELTA_ENTRIES, t);
      if m.Parsed? { WithdrawalsValid(m.value, [], m.rest); }
    }
  }

  lemma {:induction false} PreconditionsAreStorable(s: Input)
    ensures var r := ReadPreconditions(s); r.Parsed? ==> StorablePreconditions(r.value)
  {
    hide ReadMany, ReadU32, ValidPrecondition;
    var n := ReadCount(MAX_PRECONDITIONS, s);
    if n.Parsed? { PreconditionsValid(n.value, [], n.rest); }
  }

  lemma {:induction false} BodyIsStorable(s: Input)
    ensures var r := ReadGrantBody(s); r.Parsed? ==> StorableBody(r.value)
  {
    hide ReadGuaranteeSet, ReadDelta, ReadEnum, ReadEvidence, ReadPreconditions, Canonical, StorableDelta,
         StorableEvidence, StorablePreconditions, ReadableEvidence;
    SetIsCanonical(s);
    var s1 := Rest(ReadGuaranteeSet(s));
    SetIsCanonical(s1);
    var s2 := Rest(ReadGuaranteeSet(s1));
    DeltaIsStorable(s2);
    var s4 := Rest(ReadEnum(ReasonNamed, Rest(ReadDelta(s2))));
    EvidenceIsStorable(s4);
    if ReadEvidence(s4).Parsed? { StorableIsReadable(ReadEvidence(s4).value); }
    PreconditionsAreStorable(Rest(ReadEnum(StateNamed, Rest(ReadEvidence(s4)))));
  }

  // Whatever reads as a grant is a valid grant with a storable body.
  lemma {:induction false} GrantIsStorable(s: Input)
    ensures var r := ReadGrant(s); r.Parsed? ==> GrantFault(r.value).None? && StorableBody(r.value.body)
  {
    hide ReadGrantHead, ReadGrantBody, ReadGrantTail, GrantFault, StorableBody;
    BodyIsStorable(Rest(ReadGrantHead(s)));
  }

  // A grant is decoded only if it and its decision are identified, its binding is complete,
  // it does not end before it begins, and it promises no more than was asked, and all of it
  // where the obligation is protected.
  lemma {:induction false} DecodedGrantIsSound(s: Input)
    requires ReadGrant(s).Parsed?
    ensures var g := ReadGrant(s).value;
      && g.head.id > 0 && g.head.decision > 0 && g.tail.sequence > 0 && BindingSet(g.head.binding)
      && g.tail.issued <= g.tail.expires && Weakens(g.body.original, g.body.degraded)
      && (g.head.protectedObligation ==> g.body.delta == WireDelta([], []))
  {
    hide ReadGrantHead, ReadGrantBody, ReadGrantTail, Weakens, Canonical, BindingSet;
  }

  lemma {:induction false} DecodedItemIsSound(s: Input)
    requires ReadItem(s).Parsed?
    ensures var i := ReadItem(s).value.item;
      && i.publisher > 0 && i.publisherBoot > 0 && i.generation > 0 && i.scope > 0 && i.value <= MaxEvidence(i.kind)
  {
    hide ReadItemKey, ReadEnum, ReadU64;
  }

  // A valid grant is encoded without loss exactly when its body is storable: both sets
  // canonical, evidence settled, list lengths within what the reader admits.
  lemma {:induction false} GrantLosslessIff(g: GrantRecord)
    requires GrantFault(g).None?
    ensures Lossless(ReadGrant, GrantCode(g, []), g) <==> StorableBody(g.body)
  {
    hide ReadGrant, GrantCode, GrantFault, ReadableBody, StorableEvidence, Normalized;
    var code := GrantCode(g, []);
    if StorableBody(g.body) {
      StorableIsReadable(g.body.evidence);
      forall s, x ensures Extends(ReadGrant(s), ReadGrant(s + x), x) { GrantSteady(s, x); }
      SteadyIsLossless(ReadGrant, code, g);
    }
    if Lossless(ReadGrant, code, g) {
      assert ReadGrant(code + []) == Parsed(g, []);
      GrantIsStorable(code + []);
    }
  }

  // --------------------------------------------------------------------------
  // A valid grant that comes back different
  // --------------------------------------------------------------------------

  function SampleItem(): WireItem {
    WireItem(EvidenceItem(1, 1, 1, 1, AggregateBandwidth, 1, Known, 0, 0), 0)
  }

  // The same item listed twice; nothing in Grant::validate objects.
  function TwiceEvidenced(): GrantRecord {
    GrantRecord(
      GrantHead(1, 1, Binding(AuthorityVector(1, 1, 1, 1, 1, 1), 1, 1, 1, 1, 1), Standard, false),
      GrantBody([], [], WireDelta([], []), 0, [SampleItem(), SampleItem()], Known, []),
      GrantTail(1, 1, 0, 0, 0, Issued, 1))
  }

  lemma {:induction false} TwiceIsOnce(x: WireItem)
    ensures Normalized([x, x]) == [x]
  {
    hide ItemBefore;
    assert [x, x][1..] == [x] && [x][1..] == [];
    assert SortBy(ItemBefore, [x]) == [x];
    assert SortBy(ItemBefore, [x, x]) == InsertSorted(ItemBefore, x, [x]);
    assert InsertSorted(ItemBefore, x, []) == [x];
    assert SortBy(ItemBefore, [x, x]) == [x, x];
    assert Supersede([], [x, x]) == Supersede([] + [x], [x]);
    assert [] + [x] == [x];
    assert Supersede([x], [x]) == Supersede([x], []);
  }

  // Its record decodes without complaint to a grant with one item fewer.
  lemma {:induction false} TwiceEvidencedChanges()
    ensures var g := TwiceEvidenced();
      && GrantFault(g).None?
      && ReadGrant(GrantCode(g, [])) == Parsed(Tidied(g), []) && |Tidied(g).body.evidence| == 1 && Tidied(g) != g
  {
    hide ReadGrant, GrantCode, Normalized;
    TwiceIsOnce(SampleItem());
  }
}
