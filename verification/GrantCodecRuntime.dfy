// Encoding and decoding of grants in their own form (src/codec/codec.cpp,
// EvidenceVector::normalize in src/domain/evidence.cpp).
module GrantCodecRuntime {
  import opened Core
  import opened Guarantees
  import opened Evidence
  import opened Contracts
  import opened Grants
  import opened Sorting
  import opened Codec
  import opened ByteStreams
  import opened CodecRuntime
  import opened GrantCodec

  // --------------------------------------------------------------------------
  // Evidence
  // --------------------------------------------------------------------------

  method EncodeItemKey(w: ByteWriter, k: ItemKey, ghost tail: Input)
    modifies w
    ensures Wrote(old(w.Now()), w.Now(), w.maxTotal, ItemKeyCode(k, tail), tail)
  {
    hide ReadThree, ReadU64, ReadEnum, ThreeCode, U16Code, U64Code, ReadItemKey;
    ghost var s3 := U64Code(k.scope, tail);
    ghost var s2 := U16Code(EvidenceNumber(k.kind), s3);
    EncodeThree(w, k.ids, U64Code(k.generation, s2));
    w.U64(k.generation, s2);
    w.U16(EvidenceNumber(k.kind), s3);
    w.U64(k.scope, tail);
  }

  method DecodeItemKey(r: ByteReader) returns (k: ItemKey)
    requires r.Valid()
    modifies r
    ensures r.Valid() && Took(old(r.Now()), r.Now(), ReadItemKey(old(r.Now()).rest), k)
  {
    hide ReadThree, ReadU64, ReadEnum, EvidenceNamed;
    var ids := DecodeThree(r);
    var generation := r.U64();
    var kind := r.Enum(EvidenceNamed, FabricTopology);
    var scope := r.U64();
    k := ItemKey(ids, generation, kind, scope);
  }

  method EncodeItem(w: ByteWriter, x: WireItem, ghost tail: Input)
    modifies w
    ensures Wrote(old(w.Now()), w.Now(), w.maxTotal, ItemCode(x, tail), tail)
  {
    hide ReadItemKey, ReadU64, ReadEnum, ItemKeyCode, U16Code, U64Code, ReadItem;
    ghost var s4 := U16Code(x.origin, tail);
    ghost var s3 := U64Code(x.item.observedTick, s4);
    ghost var s2 := U64Code(x.item.value, s3);
    EncodeItemKey(w, KeyOf(x.item), U16Code(StateNumber(x.item.state), s2));
    w.U16(StateNumber(x.item.state), s2);
    w.U64(x.item.value, s3);
    w.U64(x.item.observedTick, s4);
    w.U16(x.origin, tail);
  }

  method DecodeItem(r: ByteReader) returns (got: Result<WireItem>)
    requires r.Valid()
    modifies r
    ensures r.Valid() && Answers(old(r.Now()), r.Now(), ReadItem(old(r.Now()).rest), got)
  {
    hide ReadItemKey, ReadU64, ReadEnum, ItemFault, StateNamed, OriginNamed;
    var k := DecodeItemKey(r);
    var state := r.Enum(StateNamed, Unknown);
    var value := r.U64();
    var tick := r.U64();
    var origin := r.Enum(OriginNamed, 0);
    if r.error.Some? { return Err(r.error.value); }
    var i := EvidenceItem(k.ids.a, k.ids.b, k.ids.c, k.generation, k.kind, k.scope, state, value, tick);
    var fault := ItemFault(i);
    if fault.Some? { return Err(fault.value); }
    got := Ok(WireItem(i, origin));
  }

  method EncodeEvidence(w: ByteWriter, xs: seq<WireItem>, ghost tail: Input)
    modifies w
    ensures Wrote(old(w.Now()), w.Now(), w.maxTotal, EvidenceCode(xs, tail), tail)
  {
    hide Wrote, U32Code, ItemCode, ManyCode;
    ghost var start, all := w.Now(), ListCode(ItemCode, xs, tail);
    w.U32(|xs| % (U32_MAX + 1), ManyCode(ItemCode, xs, tail));
    assert xs[0..] == xs;
    for i := 0 to |xs|
      invariant Wrote(start, w.Now(), w.maxTotal, all, ManyCode(ItemCode, xs[i..], tail))
    {
      ghost var now, left := w.Now(), ManyCode(ItemCode, xs[i + 1..], tail);
      ManyStep(ItemCode, xs, i, tail);
      EncodeItem(w, xs[i], left);
      WroteBoth(start, now, w.Now(), w.maxTotal, all, ManyCode(ItemCode, xs[i..], tail), left);
    }
    ManyEnds(ItemCode, xs, tail);
  }

  method DecodeItems(r: ByteReader) returns (got: Result<seq<WireItem>>)
    requires r.Valid()
    modifies r
    ensures r.Valid() && Answers(old(r.Now()), r.Now(), ReadItems(old(r.Now()).rest), got)
  {
    hide ReadCount, ReadItem, PushItem;
    var n := r.Count(MAX_EVIDENCE);
    if r.error.Some? { return Err(r.error.value); }
    var acc: seq<WireItem> := [];
    ghost var start := r.Now().rest;
    for i := 0 to n
      invariant r.Valid() && r.error.None?
      invariant ReadMany(ReadItem, PushItem, n, [], start) == ReadMany(ReadItem, PushItem, n - i, acc, r.Now().rest)
    {
      var x := DecodeItem(r);
      if x.Err? { return Err(x.error); }
      var more := PushItem(acc, x.value);
      if more.Err? { return Err(more.error); }
      acc := more.value;
    }
    got := Ok(acc);
  }

  // EvidenceVector::normalize on items that were all pushed.
  method Normalize(items: seq<WireItem>) returns (kept: seq<WireItem>)
    ensures kept == Normalized(items)
  {
    hide SortBy, SameGroup;
    var sorted := SortBy(ItemBefore, items);
    kept := [];
    assert sorted[0..] == sorted;
    for i := 0 to |sorted|
      invariant Supersede(kept, sorted[i..]) == Normalized(items)
    {
      assert sorted[i..][0] == sorted[i] && sorted[i..][1..] == sorted[i + 1..];
      if kept == [] || !SameGroup(kept[|kept| - 1], sorted[i]) { kept := kept + [sorted[i]]; }
    }
  }

  method DecodeEvidence(r: ByteReader) returns (got: Result<seq<WireItem>>)
    requires r.Valid()
    modifies r
    ensures r.Valid() && Answers(old(r.Now()), r.Now(), ReadEvidence(old(r.Now()).rest), got)
  {
    hide ReadItems, Normalized;
    var items := DecodeItems(r);
    if items.Err? { return Err(items.error); }
    var kept := Normalize(items.value);
    got := Ok(kept);
  }

  // --------------------------------------------------------------------------
  // Restoration preconditions
  // --------------------------------------------------------------------------

  method EncodePrecondition(w: ByteWriter, p: Precondition, ghost tail: Input)
    modifies w
    ensures Wrote(old(w.Now()), w.Now(), w.maxTotal, PreconditionCode(p, tail), tail)
  {
    hide ReadEnum, ReadThree, U16Code, ThreeCode, ReadPrecondition;
    ghost var s2 := ThreeCode(Three(p.scope, p.required, p.dwell), tail);
    w.U16(p.kind, KindCode(p.guarantee, s2));
    w.U16(Rank(p.guarantee), s2);
    EncodeThree(w, Three(p.scope, p.required, p.dwell), tail);
  }

  method DecodePrecondition(r: ByteReader) returns (got: Result<Precondition>)
    requires r.Valid()
    modifies r
    ensures r.Valid() && Answers(old(r.Now()), r.Now(), ReadPrecondition(old(r.Now()).rest), got)
  {
    hide ReadEnum, ReadThree, ValidPrecondition, PreconditionNamed, KindNamed;
    var kind := r.Enum(PreconditionNamed, 1);
    var guarantee := r.Enum(KindNamed, Availability);
    var v := DecodeThree(r);
    if r.error.Some? { return Err(r.error.value); }
    var p := Precondition(kind, guarantee, v.a, v.b, v.c);
    if !ValidPrecondition(p) { return Err(Invalid); }
    got := Ok(p);
  }

  method EncodePreconditions(w: ByteWriter, xs: seq<Precondition>, ghost tail: Input)
    modifies w
    ensures Wrote(old(w.Now()), w.Now(), w.maxTotal, PreconditionsCode(xs, tail), tail)
  {
    hide Wrote, U32Code, PreconditionCode, ManyCode;
    ghost var start, all := w.Now(), ListCode(PreconditionCode, xs, tail);
    w.U32(|xs| % (U32_MAX + 1), ManyCode(PreconditionCode, xs, tail));
    assert xs[0..] == xs;
    for i := 0 to |xs|
      invariant Wrote(start, w.Now(), w.maxTotal, all, ManyCode(PreconditionCode, xs[i..], tail))
    {
      ghost var now, left := w.Now(), ManyCode(PreconditionCode, xs[i + 1..], tail);
      ManyStep(PreconditionCode, xs, i, tail);
      EncodePrecondition(w, xs[i], left);
      WroteBoth(start, now, w.Now(), w.maxTotal, all, ManyCode(PreconditionCode, xs[i..], tail), left);
    }
    ManyEnds(PreconditionCode, xs, tail);
  }

  method DecodePreconditions(r: ByteReader) returns (got: Result<seq<Precondition>>)
    requires r.Valid()
    modifies r
    ensures r.Valid() && Answers(old(r.Now()), r.Now(), ReadPreconditions(old(r.Now()).rest), got)
  {
    hide ReadCount, ReadPrecondition;
    var n := r.Count(MAX_PRECONDITIONS);
    if r.error.Some? { return Err(r.error.value); }
    var acc: seq<Precondition> := [];
    ghost var start := r.Now().rest;
    for i := 0 to n
      invariant r.Valid() && r.error.None?
      invariant ReadMany(ReadPrecondition, Push, n, [], start) ==
        ReadMany(ReadPrecondition, Push, n - i, acc, r.Now().rest)
    {
      var x := DecodePrecondition(r);
      if x.Err? { return Err(x.error); }
      acc := acc + [x.value];
    }
    got := Ok(acc);
  }

  // --------------------------------------------------------------------------
  // The grant
  // --------------------------------------------------------------------------

  method EncodeGrantHead(w: ByteWriter, h: GrantHead, ghost tail: Input)
    modifies w
    ensures Wrote(old(w.Now()), w.Now(), w.maxTotal, GrantHeadCode(h, tail), tail)
  {
    hide ReadU64, ReadBinding, ReadEnum, ReadFlag, U64Code, BindingCode, U16Code, FlagCode, ReadGrantHead;
    ghost var s4 := FlagCode(h.protectedObligation, tail);
    ghost var s3 := ClassCode(h.serviceClass, s4);
    ghost var s2 := BindingCode(h.binding, s3);
    w.U64(h.id, U64Code(h.decision, s2));
    w.U64(h.decision, s2);
    EncodeBinding(w, h.binding, s3);
    w.U16(ClassRank(h.serviceClass) + 1, s4);
    w.Flag(h.protectedObligation, tail);
  }

  method DecodeGrantHead(r: ByteReader) returns (got: Result<GrantHead>)
    requires r.Valid()
    modifies r
    ensures r.Valid() && Answers(old(r.Now()), r.Now(), ReadGrantHead(old(r.Now()).rest), got)
  {
    hide ReadU64, ReadBinding, ReadEnum, ReadFlag, ClassNamed;
    var id := r.U64();
    var decision := r.U64();
    var binding := DecodeBinding(r);
    if binding.Err? { return Err(binding.error); }
    var serviceClass := r.Enum(ClassNamed, Standard);
    var protectedObligation := r.Flag();
    if r.error.Some? { return Err(r.error.value); }
    got := Ok(GrantHead(id, decision, binding.value, serviceClass, protectedObligation));
  }

  method EncodeGrantBody(w: ByteWriter, b: GrantBody, ghost tail: Input)
    modifies w
    ensures Wrote(old(w.Now()), w.Now(), w.maxTotal, GrantBodyCode(b, tail), tail)
  {
    hide ReadEnum, SetCode, DeltaCode, U16Code, EvidenceCode, PreconditionsCode, ReadGrantBody, ReadableBody;
    ghost var s6 := PreconditionsCode(b.preconditions, tail);
    ghost var s5 := U16Code(StateNumber(b.evidenceState), s6);
    ghost var s4 := EvidenceCode(b.evidence, s5);
    ghost var s3 := U16Code(b.reason, s4);
    ghost var s2 := DeltaCode(b.delta, s3);
    EncodeSet(w, b.original, SetCode(b.degraded, s2));
    EncodeSet(w, b.degraded, s2);
    EncodeDelta(w, b.delta, s3);
    w.U16(b.reason, s4);
    EncodeEvidence(w, b.evidence, s5);
    w.U16(StateNumber(b.evidenceState), s6);
    EncodePreconditions(w, b.preconditions, tail);
  }

  method DecodeGrantBody(r: ByteReader) returns (got: Result<GrantBody>)
    requires r.Valid()
    modifies r
    ensures r.Valid() && Answers(old(r.Now()), r.Now(), ReadGrantBody(old(r.Now()).rest), got)
  {
    hide ReadGuaranteeSet, ReadDelta, ReadEnum, ReadEvidence, ReadPreconditions, ReasonNamed, StateNamed;
    var original := DecodeSet(r);
    if original.Err? { return Err(original.error); }
    var degraded := DecodeSet(r);
    if degraded.Err? { return Err(degraded.error); }
    var delta := DecodeDelta(r);
    if delta.Err? { return Err(delta.error); }
    var reason := r.Enum(ReasonNamed, 0);
    var evidence := DecodeEvidence(r);
    if evidence.Err? { return Err(evidence.error); }
    var state := r.Enum(StateNamed, Unknown);
    var preconditions := DecodePreconditions(r);
    if preconditions.Err? { return Err(preconditions.error); }
    got := Ok(GrantBody(original.value, degraded.value, delta.value, reason, evidence.value, state,
      preconditions.value));
  }

  method EncodeGrantTail(w: ByteWriter, t: GrantTail, ghost tail: Input)
    modifies w
    ensures Wrote(old(w.Now()), w.Now(), w.maxTotal, GrantTailCode(t, tail), tail)
  {
    hide ReadThree, ReadU64, ReadEnum, ThreeCode, U64Code, U16Code, ReadGrantTail;
    ghost var s4 := U16Code(t.provenance, tail);
    ghost var s3 := U16Code(GrantStateNumber(t.state), s4);
    ghost var s2 := U64Code(t.lastTransition, s3);
    EncodeThree(w, Three(t.sequence, t.lastAttempt, t.issued), U64Code(t.expires, s2));
    w.U64(t.expires, s2);
    w.U64(t.lastTransition, s3);
    w.U16(GrantStateNumber(t.state), s4);
    w.U16(t.provenance, tail);
  }

  method DecodeGrantTail(r: ByteReader) returns (t: GrantTail)
    requires r.Valid()
    modifies r
    ensures r.Valid() && Took(old(r.Now()), r.Now(), ReadGrantTail(old(r.Now()).rest), t)
  {
    hide ReadThree, ReadU64, ReadEnum, GrantStateNamed, ProvenanceNamed;
    var v := DecodeThree(r);
    var expires := r.U64();
    var lastTransition := r.U64();
    var state := r.Enum(GrantStateNamed, Issued);
    var provenance := r.Enum(ProvenanceNamed, 2);
    t := GrantTail(v.a, v.b, v.c, expires, lastTransition, state, provenance);
  }

  method EncodeGrant(w: ByteWriter, g: GrantRecord, ghost tail: Input)
    modifies w
    ensures Wrote(old(w.Now()), w.Now(), w.maxTotal, GrantCode(g, tail), tail)
  {
    hide GrantHeadCode, GrantBodyCode, GrantTailCode, ReadGrant, GrantFault, ReadableBody;
    ghost var s2 := GrantTailCode(g.tail, tail);
    EncodeGrantHead(w, g.head, GrantBodyCode(g.body, s2));
    EncodeGrantBody(w, g.body, s2);
    EncodeGrantTail(w, g.tail, tail);
  }

  // Grant::validate.
  method ValidateGrant(g: GrantRecord) returns (fault: Option<ErrorCode>)
    ensures fault == GrantFault(g)
  {
    hide Canonical, BindingSet;
    if g.head.id == 0 || g.head.decision == 0 || !BindingSet(g.head.binding)
      || g.tail.sequence == 0 { return Some(InvalidArgument); }
    if g.tail.expires < g.tail.issued { return Some(Invalid); }
    if !Canonical(g.body.original) || !Canonical(g.body.degraded) { return Some(Invalid); }
    var relation := ClassifyWeakening(g.body.original, g.body.degraded);
    if relation != WeakensOrEquals { return Some(Invalid); }
    if g.head.protectedObligation
      && (g.body.delta.concessions != [] || g.body.delta.withdrawals != []) { return Some(InvalidState); }
    fault := None;
  }

  method DecodeGrant(r: ByteReader) returns (got: Result<GrantRecord>)
    requires r.Valid()
    modifies r
    ensures r.Valid() && Answers(old(r.Now()), r.Now(), ReadGrant(old(r.Now()).rest), got)
  {
    hide ReadGrantHead, ReadGrantBody, ReadGrantTail, GrantFault;
    var head := DecodeGrantHead(r);
    if head.Err? { return Err(head.error); }
    var body := DecodeGrantBody(r);
    if body.Err? { return Err(body.error); }
    var tail := DecodeGrantTail(r);
    if r.error.Some? { return Err(r.error.value); }
    var g := GrantRecord(head.value, body.value, tail);
    var fault := ValidateGrant(g);
    if fault.Some? { return Err(fault.value); }
    got := Ok(g);
  }
}
