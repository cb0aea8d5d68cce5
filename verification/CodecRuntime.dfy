// The encoders and decoders in their own form (src/codec/codec.cpp): encoders append to a
// writer, decoders advance a reader and fill a candidate. Each is proved to write exactly
// the canonical code, or to answer exactly what the reading function says.
module CodecRuntime {
  import opened Core
  import opened Guarantees
  import opened Envelopes
  import opened Contracts
  import opened Grants
  import opened Codec
  import opened ByteStreams

  // --------------------------------------------------------------------------
  // Guarantee sets and deltas
  // --------------------------------------------------------------------------

  method EncodeGuarantee(w: ByteWriter, g: Guarantee, ghost tail: Input)
    modifies w
    ensures Wrote(old(w.Now()), w.Now(), w.maxTotal, GuaranteeCode(g, tail), tail)
  {
    hide ReadEnum, ReadU64, ReadFlag, U16Code, U64Code, FlagCode, ReadGuarantee;
    ghost var s3 := FlagCode(g.hard, tail);
    ghost var s2 := U64Code(g.value, s3);
    w.U16(Rank(g.kind), ComparatorCode(g.comparator, s2));
    w.U16(if g.comparator.AtLeast? then 1 else 2, s2);
    w.U64(g.value, s3);
    w.Flag(g.hard, tail);
  }

  method DecodeGuarantee(r: ByteReader) returns (got: Result<Guarantee>)
    requires r.Valid()
    modifies r
    ensures r.Valid() && Answers(old(r.Now()), r.Now(), ReadGuarantee(old(r.Now()).rest), got)
  {
    hide ReadEnum, ReadU64, ReadFlag, ValidGuarantee, KindNamed, ComparatorNamed;
    var kind := r.Enum(KindNamed, Availability);
    var comparator := r.Enum(ComparatorNamed, AtLeast);
    var value := r.U64();
    var hard := r.Flag();
    if r.error.Some? { return Err(r.error.value); }
    var g := Guarantee(kind, comparator, value, hard);
    if !ValidGuarantee(g) { return Err(Invalid); }
    got := Ok(g);
  }

  method EncodeSet(w: ByteWriter, xs: seq<Guarantee>, ghost tail: Input)
    modifies w
    ensures Wrote(old(w.Now()), w.Now(), w.maxTotal, SetCode(xs, tail), tail)
  {
    hide Wrote, U32Code, GuaranteeCode, ManyCode;
    ghost var start, all := w.Now(), ListCode(GuaranteeCode, xs, tail);
    w.U32(|xs| % (U32_MAX + 1), ManyCode(GuaranteeCode, xs, tail));
    assert xs[0..] == xs;
    for i := 0 to |xs|
      invariant Wrote(start, w.Now(), w.maxTotal, all, ManyCode(GuaranteeCode, xs[i..], tail))
    {
      ghost var now, left := w.Now(), ManyCode(GuaranteeCode, xs[i + 1..], tail);
      ManyStep(GuaranteeCode, xs, i, tail);
      EncodeGuarantee(w, xs[i], left);
      WroteBoth(start, now, w.Now(), w.maxTotal, all, ManyCode(GuaranteeCode, xs[i..], tail), left);
    }
    ManyEnds(GuaranteeCode, xs, tail);
  }

  method DecodeSet(r: ByteReader) returns (got: Result<seq<Guarantee>>)
    requires r.Valid()
    modifies r
    ensures r.Valid() && Answers(old(r.Now()), r.Now(), ReadGuaranteeSet(old(r.Now()).rest), got)
  {
    hide ReadCount, ReadGuarantee, Insert;
    var n := r.Count(MAX_GUARANTEES);
    if r.error.Some? { return Err(r.error.value); }
    var acc: seq<Guarantee> := [];
    ghost var start := r.Now().rest;
    for i := 0 to n
      invariant r.Valid() && r.error.None?
      invariant ReadMany(ReadGuarantee, Insert, n, [], start) ==
        ReadMany(ReadGuarantee, Insert, n - i, acc, r.Now().rest)
    {
      var x := DecodeGuarantee(r);
      if x.Err? { return Err(x.error); }
      var more := Insert(acc, x.value);
      if more.Err? { return Err(more.error); }
      acc := more.value;
    }
    got := Ok(acc);
  }

  method EncodeConcession(w: ByteWriter, c: Concession, ghost tail: Input)
    modifies w
    ensures Wrote(old(w.Now()), w.Now(), w.maxTotal, ConcessionCode(c, tail), tail)
  {
    hide ReadEnum, ReadU64, U16Code, U64Code, ReadConcession;
    ghost var s2 := U64Code(c.approvedValue, tail);
    w.U16(Rank(c.kind), U64Code(c.originalValue, s2));
    w.U64(c.originalValue, s2);
    w.U64(c.approvedValue, tail);
  }

  method DecodeConcession(r: ByteReader) returns (got: Result<Concession>)
    requires r.Valid()
    modifies r
    ensures r.Valid() && Answers(old(r.Now()), r.Now(), ReadConcession(old(r.Now()).rest), got)
  {
    hide ReadEnum, ReadU64, ValidConcession, KindNamed;
    var kind := r.Enum(KindNamed, Availability);
    var original := r.U64();
    var approved := r.U64();
    if r.error.Some? { return Err(r.error.value); }
    var c := Concession(kind, original, approved);
    if !ValidConcession(c) { return Err(Invalid); }
    got := Ok(c);
  }

  method EncodeWithdrawal(w: ByteWriter, x: WireWithdrawal, ghost tail: Input)
    modifies w
    ensures Wrote(old(w.Now()), w.Now(), w.maxTotal, WithdrawalCode(x, tail), tail)
  {
    hide ReadEnum, ReadU64, U16Code, U64Code, ReadWithdrawal;
    ghost var s2 := U16Code(x.reason, tail);
    w.U16(Rank(x.kind), U64Code(x.originalValue, s2));
    w.U64(x.originalValue, s2);
    w.U16(x.reason, tail);
  }

  method DecodeWithdrawal(r: ByteReader) returns (got: Result<WireWithdrawal>)
    requires r.Valid()
    modifies r
    ensures r.Valid() && Answers(old(r.Now()), r.Now(), ReadWithdrawal(old(r.Now()).rest), got)
  {
    hide ReadEnum, ReadU64, ValidWithdrawal, KindNamed, ReasonNamed;
    var kind := r.Enum(KindNamed, Availability);
    var original := r.U64();
    var reason := r.Enum(ReasonNamed, 0);
    if r.error.Some? { return Err(r.error.value); }
    var x := WireWithdrawal(kind, original, reason);
    if !ValidWithdrawal(x) { return Err(Invalid); }
    got := Ok(x);
  }

  method EncodeConcessions(w: ByteWriter, xs: seq<Concession>, ghost tail: Input)
    modifies w
    ensures Wrote(old(w.Now()), w.Now(), w.maxTotal, ListCode(ConcessionCode, xs, tail), tail)
  {
    hide Wrote, U32Code, ConcessionCode, ManyCode;
    ghost var start, all := w.Now(), ListCode(ConcessionCode, xs, tail);
    w.U32(|xs| % (U32_MAX + 1), ManyCode(ConcessionCode, xs, tail));
    assert xs[0..] == xs;
    for i := 0 to |xs|
      invariant Wrote(start, w.Now(), w.maxTotal, all, ManyCode(ConcessionCode, xs[i..], tail))
    {
      ghost var now, left := w.Now(), ManyCode(ConcessionCode, xs[i + 1..], tail);
      ManyStep(ConcessionCode, xs, i, tail);
      EncodeConcession(w, xs[i], left);
      WroteBoth(start, now, w.Now(), w.maxTotal, all, ManyCode(ConcessionCode, xs[i..], tail), left);
    }
    ManyEnds(ConcessionCode, xs, tail);
  }

  method DecodeConcessions(r: ByteReader) returns (got: Result<seq<Concession>>)
    requires r.Valid()
    modifies r
    ensures r.Valid() && Answers(old(r.Now()), r.Now(), ReadConcessions(old(r.Now()).rest), got)
  {
    hide ReadCount, ReadConcession;
    var n := r.Count(MAX_DELTA_ENTRIES);
    if r.error.Some? { return Err(r.error.value); }
    var acc: seq<Concession> := [];
    ghost var start := r.Now().rest;
    for i := 0 to n
      invariant r.Valid() && r.error.None?
      invariant ReadMany(ReadConcession, Push, n, [], start) == ReadMany(ReadConcession, Push, n - i, acc, r.Now().rest)
    {
      var x := DecodeConcession(r);
      if x.Err? { return Err(x.error); }
      acc := acc + [x.value];
    }
    got := Ok(acc);
  }

  method EncodeWithdrawals(w: ByteWriter, xs: seq<WireWithdrawal>, ghost tail: Input)
    modifies w
    ensures Wrote(old(w.Now()), w.Now(), w.maxTotal, ListCode(WithdrawalCode, xs, tail), tail)
  {
    hide Wrote, U32Code, WithdrawalCode, ManyCode;
    ghost var start, all := w.Now(), ListCode(WithdrawalCode, xs, tail);
    w.U32(|xs| % (U32_MAX + 1), ManyCode(WithdrawalCode, xs, tail));
    assert xs[0..] == xs;
    for i := 0 to |xs|
      invariant Wrote(start, w.Now(), w.maxTotal, all, ManyCode(WithdrawalCode, xs[i..], tail))
    {
      ghost var now, left := w.Now(), ManyCode(WithdrawalCode, xs[i + 1..], tail);
      ManyStep(WithdrawalCode, xs, i, tail);
      EncodeWithdrawal(w, xs[i], left);
      WroteBoth(start, now, w.Now(), w.maxTotal, all, ManyCode(WithdrawalCode, xs[i..], tail), left);
    }
    ManyEnds(WithdrawalCode, xs, tail);
  }

  method DecodeWithdrawals(r: ByteReader) returns (got: Result<seq<WireWithdrawal>>)
    requires r.Valid()
    modifies r
    ensures r.Valid() && Answers(old(r.Now()), r.Now(), ReadWithdrawals(old(r.Now()).rest), got)
  {
    hide ReadCount, ReadWithdrawal;
    var n := r.Count(MAX_DELTA_ENTRIES);
    if r.error.Some? { return Err(r.error.value); }
    var acc: seq<WireWithdrawal> := [];
    ghost var start := r.Now().rest;
    for i := 0 to n
      invariant r.Valid() && r.error.None?
      invariant ReadMany(ReadWithdrawal, Push, n, [], start) == ReadMany(ReadWithdrawal, Push, n - i, acc, r.Now().rest)
    {
      var x := DecodeWithdrawal(r);
      if x.Err? { return Err(x.error); }
      acc := acc + [x.value];
    }
    got := Ok(acc);
  }

  method EncodeDelta(w: ByteWriter, d: WireDelta, ghost tail: Input)
    modifies w
    ensures Wrote(old(w.Now()), w.Now(), w.maxTotal, DeltaCode(d, tail), tail)
  {
    hide ListCode, ReadDelta;
    ghost var s1 := ListCode(WithdrawalCode, d.withdrawals, tail);
    ListGrows(WithdrawalCode, d.withdrawals, tail);
    EncodeConcessions(w, d.concessions, s1);
    EncodeWithdrawals(w, d.withdrawals, tail);
  }

  method DecodeDelta(r: ByteReader) returns (got: Result<WireDelta>)
    requires r.Valid()
    modifies r
    ensures r.Valid() && Answers(old(r.Now()), r.Now(), ReadDelta(old(r.Now()).rest), got)
  {
    hide ReadConcessions, ReadWithdrawals;
    var concessions := DecodeConcessions(r);
    if concessions.Err? { return Err(concessions.error); }
    var withdrawals := DecodeWithdrawals(r);
    if withdrawals.Err? { return Err(withdrawals.error); }
    got := Ok(WireDelta(concessions.value, withdrawals.value));
  }

  // --------------------------------------------------------------------------
  // Envelopes and contracts
  // --------------------------------------------------------------------------

  method EncodeBound(w: ByteWriter, b: Bound, ghost tail: Input)
    modifies w
    ensures Wrote(old(w.Now()), w.Now(), w.maxTotal, BoundCode(b, tail), tail)
  {
    hide ReadEnum, ReadU64, U16Code, U64Code, ReadBound;
    w.U16(Rank(b.kind), U64Code(b.weakest, tail));
    w.U64(b.weakest, tail);
  }

  method DecodeBound(r: ByteReader) returns (got: Result<Bound>)
    requires r.Valid()
    modifies r
    ensures r.Valid() && Answers(old(r.Now()), r.Now(), ReadBound(old(r.Now()).rest), got)
  {
    hide ReadEnum, ReadU64, ValidBound, KindNamed;
    var kind := r.Enum(KindNamed, Availability);
    var weakest := r.U64();
    if r.error.Some? { return Err(r.error.value); }
    var b := Bound(kind, weakest);
    if !ValidBound(b) { return Err(Invalid); }
    got := Ok(b);
  }

  method EncodeBounds(w: ByteWriter, xs: seq<Bound>, ghost tail: Input)
    modifies w
    ensures Wrote(old(w.Now()), w.Now(), w.maxTotal, ListCode(BoundCode, xs, tail), tail)
  {
    hide Wrote, U32Code, BoundCode, ManyCode;
    ghost var start, all := w.Now(), ListCode(BoundCode, xs, tail);
    w.U32(|xs| % (U32_MAX + 1), ManyCode(BoundCode, xs, tail));
    assert xs[0..] == xs;
    for i := 0 to |xs|
      invariant Wrote(start, w.Now(), w.maxTotal, all, ManyCode(BoundCode, xs[i..], tail))
    {
      ghost var now, left := w.Now(), ManyCode(BoundCode, xs[i + 1..], tail);
      ManyStep(BoundCode, xs, i, tail);
      EncodeBound(w, xs[i], left);
      WroteBoth(start, now, w.Now(), w.maxTotal, all, ManyCode(BoundCode, xs[i..], tail), left);
    }
    ManyEnds(BoundCode, xs, tail);
  }

  method DecodeBounds(r: ByteReader) returns (got: Result<seq<Bound>>)
    requires r.Valid()
    modifies r
    ensures r.Valid() && Answers(old(r.Now()), r.Now(), ReadBounds(old(r.Now()).rest), got)
  {
    hide ReadCount, ReadBound, InsertBound;
    var n := r.Count(MAX_BOUNDS);
    if r.error.Some? { return Err(r.error.value); }
    var acc: seq<Bound> := [];
    ghost var start := r.Now().rest;
    for i := 0 to n
      invariant r.Valid() && r.error.None?
      invariant ReadMany(ReadBound, InsertBound, n, [], start) ==
        ReadMany(ReadBound, InsertBound, n - i, acc, r.Now().rest)
    {
      var x := DecodeBound(r);
      if x.Err? { return Err(x.error); }
      var more := InsertBound(acc, x.value);
      if more.Err? { return Err(more.error); }
      acc := more.value;
    }
    got := Ok(acc);
  }

  method EncodeEnvelope(w: ByteWriter, e: Envelope, ghost tail: Input)
    modifies w
    ensures Wrote(old(w.Now()), w.Now(), w.maxTotal, EnvelopeCode(e, tail), tail)
  {
    hide ListCode, ReadEnvelope, U32Code, ReadU32;
    EncodeBounds(w, e.bounds, U32Code(e.maxConcessions, tail));
    w.U32(e.maxConcessions, tail);
  }

  method DecodeEnvelope(r: ByteReader) returns (got: Result<Envelope>)
    requires r.Valid()
    modifies r
    ensures r.Valid() && Answers(old(r.Now()), r.Now(), ReadEnvelope(old(r.Now()).rest), got)
  {
    hide ReadBounds, ReadU32, CanonicalBounds;
    var bounds := DecodeBounds(r);
    if bounds.Err? { return Err(bounds.error); }
    var most := r.U32();
    if r.error.Some? { return Err(r.error.value); }
    if !CanonicalBounds(bounds.value) { return Err(Invalid); }
    got := Ok(Envelope(bounds.value, most));
  }

  method EncodeThree(w: ByteWriter, v: Three, ghost tail: Input)
    modifies w
    ensures Wrote(old(w.Now()), w.Now(), w.maxTotal, ThreeCode(v, tail), tail)
  {
    hide ReadU64, U64Code, ReadThree;
    ghost var s2 := U64Code(v.c, tail);
    w.U64(v.a, U64Code(v.b, s2));
    w.U64(v.b, s2);
    w.U64(v.c, tail);
  }

  // Three numbers in a row; the caller sees a failure in the reader.
  method DecodeThree(r: ByteReader) returns (v: Three)
    requires r.Valid()
    modifies r
    ensures r.Valid() && Took(old(r.Now()), r.Now(), ReadThree(old(r.Now()).rest), v)
  {
    hide ReadU64;
    var a := r.U64();
    var b := r.U64();
    var c := r.U64();
    v := Three(a, b, c);
  }

  method EncodeContractHead(w: ByteWriter, h: ContractHead, ghost tail: Input)
    modifies w
    ensures Wrote(old(w.Now()), w.Now(), w.maxTotal, ContractHeadCode(h, tail), tail)
  {
    hide ReadEnum, ReadThree, ReadU64, ReadU32, ReadFlag, U16Code, ThreeCode, U64Code, U32Code, FlagCode,
         ReadContractHead;
    ghost var s5 := U32Code(h.priority, tail);
    ghost var s4 := FlagCode(h.nonDegradable, s5);
    ghost var s3 := ClassCode(h.serviceClass, s4);
    ghost var s2 := U64Code(h.subjectGeneration, s3);
    EncodeThree(w, Three(h.id, h.generation, h.scope), U64Code(h.subject, s2));
    w.U64(h.subject, s2);
    w.U64(h.subjectGeneration, s3);
    w.U16(ClassRank(h.serviceClass) + 1, s4);
    w.Flag(h.nonDegradable, s5);
    w.U32(h.priority, tail);
  }

  method DecodeContractHead(r: ByteReader) returns (h: ContractHead)
    requires r.Valid()
    modifies r
    ensures r.Valid() && Took(old(r.Now()), r.Now(), ReadContractHead(old(r.Now()).rest), h)
  {
    hide ReadEnum, ReadThree, ReadU64, ReadU32, ReadFlag, ClassNamed;
    var ids := DecodeThree(r);
    var subject := r.U64();
    var subjectGeneration := r.U64();
    var serviceClass := r.Enum(ClassNamed, Standard);
    var nonDegradable := r.Flag();
    var priority := r.U32();
    h := ContractHead(ids.a, ids.b, ids.c, subject, subjectGeneration, serviceClass, nonDegradable, priority);
  }

  method EncodeContract(w: ByteWriter, c: ServiceContract, ghost tail: Input)
    modifies w
    ensures Wrote(old(w.Now()), w.Now(), w.maxTotal, ContractCode(c, tail), tail)
  {
    hide ContractHeadCode, SetCode, EnvelopeCode, ReadU64, ReadFlag, U64Code, FlagCode, ReadContract;
    ghost var s4 := FlagCode(c.active, tail);
    ghost var s3 := U64Code(c.registeredTick, s4);
    ghost var s2 := EnvelopeCode(c.envelope, s3);
    EncodeContractHead(w, HeadOf(c), SetCode(c.original, s2));
    EncodeSet(w, c.original, s2);
    EncodeEnvelope(w, c.envelope, s3);
    w.U64(c.registeredTick, s4);
    w.Flag(c.active, tail);
  }

  method DecodeContract(r: ByteReader) returns (got: Result<ServiceContract>)
    requires r.Valid()
    modifies r
    ensures r.Valid() && Answers(old(r.Now()), r.Now(), ReadContract(old(r.Now()).rest), got)
  {
    hide ReadContractHead, ReadGuaranteeSet, ReadEnvelope, ReadU64, ReadFlag, ContractFault;
    var h := DecodeContractHead(r);
    var original := DecodeSet(r);
    if original.Err? { return Err(original.error); }
    var envelope := DecodeEnvelope(r);
    if envelope.Err? { return Err(envelope.error); }
    var tick := r.U64();
    var active := r.Flag();
    if r.error.Some? { return Err(r.error.value); }
    var c := ServiceContract(h.id, h.generation, h.scope, h.subject, h.subjectGeneration, h.serviceClass,
                             h.nonDegradable, h.priority, original.value, envelope.value, tick, active);
    var fault := ContractFault(c);
    if fault.Some? { return Err(fault.value); }
    got := Ok(c);
  }

  // --------------------------------------------------------------------------
  // Policy
  // --------------------------------------------------------------------------

  method EncodeMaybeClass(w: ByteWriter, x: Option<ServiceClass>, ghost tail: Input)
    modifies w
    ensures Wrote(old(w.Now()), w.Now(), w.maxTotal, MaybeCode(ClassCode, x, tail), tail)
  {
    hide ReadEnum, ReadU64, ReadFlag, U16Code, U64Code, FlagCode;
    w.Flag(x.Some?, if x.Some? then ClassCode(x.value, tail) else tail);
    if x.Some? { w.U16(ClassRank(x.value) + 1, tail); }
  }

  method EncodeMaybeScope(w: ByteWriter, x: Option<u64>, ghost tail: Input)
    modifies w
    ensures Wrote(old(w.Now()), w.Now(), w.maxTotal, MaybeCode(U64Code, x, tail), tail)
  {
    hide ReadEnum, ReadU64, ReadFlag, U16Code, U64Code, FlagCode;
    w.Flag(x.Some?, if x.Some? then U64Code(x.value, tail) else tail);
    if x.Some? { w.U64(x.value, tail); }
  }

  method EncodeMaybeKind(w: ByteWriter, x: Option<Kind>, ghost tail: Input)
    modifies w
    ensures Wrote(old(w.Now()), w.Now(), w.maxTotal, MaybeCode(KindCode, x, tail), tail)
  {
    hide ReadEnum, ReadU64, ReadFlag, U16Code, U64Code, FlagCode;
    w.Flag(x.Some?, if x.Some? then KindCode(x.value, tail) else tail);
    if x.Some? { w.U16(Rank(x.value), tail); }
  }

  // An optional field; the caller sees a failure in the reader.
  method DecodeMaybeClass(r: ByteReader) returns (x: Option<ServiceClass>)
    requires r.Valid()
    modifies r
    ensures r.Valid() && Took(old(r.Now()), r.Now(), ReadMaybe(ReadClass, old(r.Now()).rest), x)
  {
    hide ReadEnum, ReadU64, ReadFlag;
    x := None;
    var present := r.Flag();
    if present {
      var v := r.Enum(ClassNamed, Standard);
      x := Some(v);
    }
  }

  // An optional field; the caller sees a failure in the reader.
  method DecodeMaybeScope(r: ByteReader) returns (x: Option<u64>)
    requires r.Valid()
    modifies r
    ensures r.Valid() && Took(old(r.Now()), r.Now(), ReadMaybe(ReadU64, old(r.Now()).rest), x)
  {
    hide ReadEnum, ReadU64, ReadFlag;
    x := None;
    var present := r.Flag();
    if present {
      var v := r.U64();
      x := Some(v);
    }
  }

  // An optional field; the caller sees a failure in the reader.
  method DecodeMaybeKind(r: ByteReader) returns (x: Option<Kind>)
    requires r.Valid()
    modifies r
    ensures r.Valid() && Took(old(r.Now()), r.Now(), ReadMaybe(ReadKind, old(r.Now()).rest), x)
  {
    hide ReadEnum, ReadU64, ReadFlag;
    x := None;
    var present := r.Flag();
    if present {
      var v := r.Enum(KindNamed, Availability);
      x := Some(v);
    }
  }

  method EncodeRule(w: ByteWriter, x: PolicyRule, ghost tail: Input)
    modifies w
    ensures Wrote(old(w.Now()), w.Now(), w.maxTotal, RuleCode(x, tail), tail)
  {
    hide ReadEnum, ReadU64, ReadU32, U16Code, U64Code, U32Code, MaybeCode, ReadRule, KindCode, ClassCode, ReadMaybe;
    ghost var s5 := ActionCode(x.action, tail);
    ghost var s4 := MaybeCode(KindCode, x.trigger, s5);
    ghost var s3 := MaybeCode(U64Code, x.scope, s4);
    ghost var s2 := MaybeCode(ClassCode, x.serviceClass, s3);
    OptionsGrow(x, s3, s4, s5);
    w.U64(x.id, U32Code(x.precedence, s2));
    w.U32(x.precedence, s2);
    EncodeMaybeClass(w, x.serviceClass, s3);
    EncodeMaybeScope(w, x.scope, s4);
    EncodeMaybeKind(w, x.trigger, s5);
    w.U16(ActionRank(x.action), tail);
  }

  method DecodeRule(r: ByteReader) returns (got: Result<PolicyRule>)
    requires r.Valid()
    modifies r
    ensures r.Valid() && Answers(old(r.Now()), r.Now(), ReadRule(old(r.Now()).rest), got)
  {
    hide ReadEnum, ReadU64, ReadU32, ReadMaybe, RuleFault, ActionNamed;
    var id := r.U64();
    var precedence := r.U32();
    var serviceClass := DecodeMaybeClass(r);
    if r.error.Some? { return Err(r.error.value); }
    var scope := DecodeMaybeScope(r);
    if r.error.Some? { return Err(r.error.value); }
    var trigger := DecodeMaybeKind(r);
    var action := r.Enum(ActionNamed, Refuse);
    if r.error.Some? { return Err(r.error.value); }
    var x := PolicyRule(id, precedence, serviceClass, scope, trigger, action);
    var fault := RuleFault(x);
    if fault.Some? { return Err(fault.value); }
    got := Ok(x);
  }

  method EncodeProfile(w: ByteWriter, p: ClassProfile, ghost tail: Input)
    modifies w
    ensures Wrote(old(w.Now()), w.Now(), w.maxTotal, ProfileCode(p, tail), tail)
  {
    hide ReadEnum, ReadFlag, U16Code, FlagCode, EnvelopeCode, ReadProfile;
    ghost var s2 := FlagCode(p.mayBeDegraded, tail);
    w.U16(ClassRank(p.serviceClass) + 1, EnvelopeCode(p.ceiling, s2));
    EncodeEnvelope(w, p.ceiling, s2);
    w.Flag(p.mayBeDegraded, tail);
  }

  method DecodeProfile(r: ByteReader) returns (got: Result<ClassProfile>)
    requires r.Valid()
    modifies r
    ensures r.Valid() && Answers(old(r.Now()), r.Now(), ReadProfile(old(r.Now()).rest), got)
  {
    hide ReadEnum, ReadEnvelope, ReadFlag, ValidProfile, ClassNamed;
    var serviceClass := r.Enum(ClassNamed, Standard);
    var ceiling := DecodeEnvelope(r);
    if ceiling.Err? { return Err(ceiling.error); }
    var mayBeDegraded := r.Flag();
    if r.error.Some? { return Err(r.error.value); }
    var p := ClassProfile(serviceClass, ceiling.value, mayBeDegraded);
    if !ValidProfile(p) { return Err(Invalid); }
    got := Ok(p);
  }

  method EncodeRules(w: ByteWriter, xs: seq<PolicyRule>, ghost tail: Input)
    modifies w
    ensures Wrote(old(w.Now()), w.Now(), w.maxTotal, ListCode(RuleCode, xs, tail), tail)
  {
    hide Wrote, U32Code, RuleCode, ManyCode;
    ghost var start, all := w.Now(), ListCode(RuleCode, xs, tail);
    w.U32(|xs| % (U32_MAX + 1), ManyCode(RuleCode, xs, tail));
    assert xs[0..] == xs;
    for i := 0 to |xs|
      invariant Wrote(start, w.Now(), w.maxTotal, all, ManyCode(RuleCode, xs[i..], tail))
    {
      ghost var now, left := w.Now(), ManyCode(RuleCode, xs[i + 1..], tail);
      ManyStep(RuleCode, xs, i, tail);
      EncodeRule(w, xs[i], left);
      WroteBoth(start, now, w.Now(), w.maxTotal, all, ManyCode(RuleCode, xs[i..], tail), left);
    }
    ManyEnds(RuleCode, xs, tail);
  }

  method DecodeRules(r: ByteReader) returns (got: Result<seq<PolicyRule>>)
    requires r.Valid()
    modifies r
    ensures r.Valid() && Answers(old(r.Now()), r.Now(), ReadRules(old(r.Now()).rest), got)
  {
    hide ReadCount, ReadRule;
    var n := r.Count(MAX_RULES);
    if r.error.Some? { return Err(r.error.value); }
    var acc: seq<PolicyRule> := [];
    ghost var start := r.Now().rest;
    for i := 0 to n
      invariant r.Valid() && r.error.None?
      invariant ReadMany(ReadRule, Push, n, [], start) == ReadMany(ReadRule, Push, n - i, acc, r.Now().rest)
    {
      var x := DecodeRule(r);
      if x.Err? { return Err(x.error); }
      acc := acc + [x.value];
    }
    got := Ok(acc);
  }

  method EncodeProfiles(w: ByteWriter, xs: seq<ClassProfile>, ghost tail: Input)
    modifies w
    ensures Wrote(old(w.Now()), w.Now(), w.maxTotal, ListCode(ProfileCode, xs, tail), tail)
  {
    hide Wrote, U32Code, ProfileCode, ManyCode;
    ghost var start, all := w.Now(), ListCode(ProfileCode, xs, tail);
    w.U32(|xs| % (U32_MAX + 1), ManyCode(ProfileCode, xs, tail));
    assert xs[0..] == xs;
    for i := 0 to |xs|
      invariant Wrote(start, w.Now(), w.maxTotal, all, ManyCode(ProfileCode, xs[i..], tail))
    {
      ghost var now, left := w.Now(), ManyCode(ProfileCode, xs[i + 1..], tail);
      ManyStep(ProfileCode, xs, i, tail);
      EncodeProfile(w, xs[i], left);
      WroteBoth(start, now, w.Now(), w.maxTotal, all, ManyCode(ProfileCode, xs[i..], tail), left);
    }
    ManyEnds(ProfileCode, xs, tail);
  }

  method DecodeProfiles(r: ByteReader) returns (got: Result<seq<ClassProfile>>)
    requires r.Valid()
    modifies r
    ensures r.Valid() && Answers(old(r.Now()), r.Now(), ReadProfiles(old(r.Now()).rest), got)
  {
    hide ReadCount, ReadProfile;
    var n := r.Count(MAX_PROFILES);
    if r.error.Some? { return Err(r.error.value); }
    var acc: seq<ClassProfile> := [];
    ghost var start := r.Now().rest;
    for i := 0 to n
      invariant r.Valid() && r.error.None?
      invariant ReadMany(ReadProfile, Push, n, [], start) == ReadMany(ReadProfile, Push, n - i, acc, r.Now().rest)
    {
      var x := DecodeProfile(r);
      if x.Err? { return Err(x.error); }
      acc := acc + [x.value];
    }
    got := Ok(acc);
  }

  method EncodeActions(w: ByteWriter, a: PolicyActions, ghost tail: Input)
    modifies w
    ensures Wrote(old(w.Now()), w.Now(), w.maxTotal, ActionsCode(a, tail), tail)
  {
    hide ReadEnum, U16Code, ReadActions, ActionRank;
    ghost var s4 := ActionCode(a.unsupported, tail);
    ghost var s3 := ActionCode(a.invalid, s4);
    ghost var s2 := ActionCode(a.conflict, s3);
    w.U16(ActionRank(a.unknown), ActionCode(a.stale, s2));
    w.U16(ActionRank(a.stale), s2);
    w.U16(ActionRank(a.conflict), s3);
    w.U16(ActionRank(a.invalid), s4);
    w.U16(ActionRank(a.unsupported), tail);
  }

  method DecodeActions(r: ByteReader) returns (a: PolicyActions)
    requires r.Valid()
    modifies r
    ensures r.Valid() && Took(old(r.Now()), r.Now(), ReadActions(old(r.Now()).rest), a)
  {
    hide ReadEnum, ActionNamed;
    var unknown := r.Enum(ActionNamed, Refuse);
    var stale := r.Enum(ActionNamed, Refuse);
    var conflict := r.Enum(ActionNamed, Refuse);
    var invalid := r.Enum(ActionNamed, Refuse);
    var unsupported := r.Enum(ActionNamed, Refuse);
    a := PolicyActions(unknown, stale, conflict, invalid, unsupported);
  }

  method EncodeCaps(w: ByteWriter, c: PolicyCaps, ghost tail: Input)
    modifies w
    ensures Wrote(old(w.Now()), w.Now(), w.maxTotal, CapsCode(c, tail), tail)
  {
    hide ReadU32, U32Code, ReadCaps;
    ghost var s2 := U32Code(c.minimumServed, tail);
    w.U32(c.maxConcessions, U32Code(c.minimumDwell, s2));
    w.U32(c.minimumDwell, s2);
    w.U32(c.minimumServed, tail);
  }

  method DecodeCaps(r: ByteReader) returns (c: PolicyCaps)
    requires r.Valid()
    modifies r
    ensures r.Valid() && Took(old(r.Now()), r.Now(), ReadCaps(old(r.Now()).rest), c)
  {
    hide ReadU32;
    var maxConcessions := r.U32();
    var minimumDwell := r.U32();
    var minimumServed := r.U32();
    c := PolicyCaps(maxConcessions, minimumDwell, minimumServed);
  }

  method EncodeLimits(w: ByteWriter, l: PolicyLimits, ghost tail: Input)
    modifies w
    ensures Wrote(old(w.Now()), w.Now(), w.maxTotal, LimitsCode(l, tail), tail)
  {
    hide ReadU64, ReadCaps, ReadFlag, U64Code, CapsCode, FlagCode, ReadLimits;
    ghost var s5 := U64Code(l.freshness, tail);
    ghost var s4 := U64Code(l.nodeBudget, s5);
    ghost var s3 := CapsCode(l.caps, s4);
    ghost var s2 := U64Code(l.minimumTtl, s3);
    w.Flag(l.protectFirst, U64Code(l.defaultTtl, s2));
    w.U64(l.defaultTtl, s2);
    w.U64(l.minimumTtl, s3);
    EncodeCaps(w, l.caps, s4);
    w.U64(l.nodeBudget, s5);
    w.U64(l.freshness, tail);
  }

  method DecodeLimits(r: ByteReader) returns (l: PolicyLimits)
    requires r.Valid()
    modifies r
    ensures r.Valid() && Took(old(r.Now()), r.Now(), ReadLimits(old(r.Now()).rest), l)
  {
    hide ReadU64, ReadCaps, ReadFlag;
    var protectFirst := r.Flag();
    var defaultTtl := r.U64();
    var minimumTtl := r.U64();
    var caps := DecodeCaps(r);
    var nodeBudget := r.U64();
    var freshness := r.U64();
    l := PolicyLimits(protectFirst, defaultTtl, minimumTtl, caps, nodeBudget, freshness);
  }

  method EncodePolicy(w: ByteWriter, p: Policy, ghost tail: Input)
    modifies w
    ensures Wrote(old(w.Now()), w.Now(), w.maxTotal, PolicyCode(p, tail), tail)
  {
    hide ReadU64, U64Code, ListCode, ActionsCode, LimitsCode;
    ghost var s5 := LimitsCode(LimitsOf(p), tail);
    ghost var s4 := ActionsCode(ActionsOf(p), s5);
    ghost var s3 := ListCode(ProfileCode, p.profiles, s4);
    ghost var s2 := ListCode(RuleCode, p.rules, s3);
    ListGrows(ProfileCode, p.profiles, s4);
    ListGrows(RuleCode, p.rules, s3);
    w.U64(p.id, U64Code(p.generation, s2));
    w.U64(p.generation, s2);
    EncodeRules(w, p.rules, s3);
    EncodeProfiles(w, p.profiles, s4);
    EncodeActions(w, ActionsOf(p), s5);
    EncodeLimits(w, LimitsOf(p), tail);
  }

  method DecodePolicy(r: ByteReader) returns (got: Result<Policy>)
    requires r.Valid()
    modifies r
    ensures r.Valid() && Answers(old(r.Now()), r.Now(), ReadPolicy(old(r.Now()).rest), got)
  {
    hide ReadU64, ReadRules, ReadProfiles, ReadActions, ReadLimits, PolicyFault;
    var id := r.U64();
    var generation := r.U64();
    var rules := DecodeRules(r);
    if rules.Err? { return Err(rules.error); }
    var profiles := DecodeProfiles(r);
    if profiles.Err? { return Err(profiles.error); }
    var actions := DecodeActions(r);
    var limits := DecodeLimits(r);
    if r.error.Some? { return Err(r.error.value); }
    var p := Assembled(id, generation, rules.value, profiles.value, actions, limits);
    if p.Installed() {
      var fault := PolicyFault(p);
      if fault.Some? { return Err(fault.value); }
    }
    got := Ok(p);
  }

  // --------------------------------------------------------------------------
  // Authority
  // --------------------------------------------------------------------------

  method EncodeVector(w: ByteWriter, v: AuthorityVector, ghost tail: Input)
    modifies w
    ensures Wrote(old(w.Now()), w.Now(), w.maxTotal, VectorCode(v, tail), tail)
  {
    hide ReadThree, ThreeCode, ReadVector;
    EncodeThree(w, Three(v.term, v.boot, v.fabric), ThreeCode(Three(v.capacity, v.policy, v.evidence), tail));
    EncodeThree(w, Three(v.capacity, v.policy, v.evidence), tail);
  }

  method DecodeVector(r: ByteReader) returns (got: Result<AuthorityVector>)
    requires r.Valid()
    modifies r
    ensures r.Valid() && Answers(old(r.Now()), r.Now(), ReadVector(old(r.Now()).rest), got)
  {
    hide ReadThree;
    var v := DecodeThree(r);
    var w := DecodeThree(r);
    if r.error.Some? { return Err(r.error.value); }
    got := Ok(AuthorityVector(v.a, v.b, v.c, w.a, w.b, w.c));
  }

  method EncodeBinding(w: ByteWriter, b: Binding, ghost tail: Input)
    modifies w
    ensures Wrote(old(w.Now()), w.Now(), w.maxTotal, BindingCode(b, tail), tail)
  {
    hide ReadThree, ReadU64, ThreeCode, U64Code, ReadBinding, VectorCode;
    ghost var s3 := U64Code(b.scope, tail);
    ghost var s2 := U64Code(b.subjectGeneration, s3);
    EncodeVector(w, b.vector, ThreeCode(Three(b.contract, b.contractGeneration, b.subject), s2));
    EncodeThree(w, Three(b.contract, b.contractGeneration, b.subject), s2);
    w.U64(b.subjectGeneration, s3);
    w.U64(b.scope, tail);
  }

  method DecodeBinding(r: ByteReader) returns (got: Result<Binding>)
    requires r.Valid()
    modifies r
    ensures r.Valid() && Answers(old(r.Now()), r.Now(), ReadBinding(old(r.Now()).rest), got)
  {
    hide ReadU64, ReadThree, ReadVector;
    var vector := DecodeVector(r);
    if vector.Err? { return Err(vector.error); }
    var v := DecodeThree(r);
    var subjectGeneration := r.U64();
    var scope := r.U64();
    if r.error.Some? { return Err(r.error.value); }
    got := Ok(Binding(vector.value, v.a, v.b, v.c, subjectGeneration, scope));
  }

  // decode_finish: the whole input was one code.
  method Finish(r: ByteReader) returns (status: Option<ErrorCode>)
    requires r.Valid()
    ensures status == if r.Now().error.Some? then r.Now().error else if r.Now().rest == [] then None
      else Some(TrailingGarbage)
  {
    if r.error.Some? { return r.error; }
    status := if r.position == |r.data| then None else Some(TrailingGarbage);
  }

  // --------------------------------------------------------------------------
  // Writing lists
  // --------------------------------------------------------------------------

  lemma {:induction false} ManyStep<T(!new)>(code: (T, Input) -> Input, xs: seq<T>, i: nat, tail: Input)
    requires i < |xs|
    requires forall x, t :: |t| <= |code(x, t)|
    ensures var left := ManyCode(code, xs[i + 1..], tail);
      ManyCode(code, xs[i..], tail) == code(xs[i], left) && |left| <= |code(xs[i], left)|
  {
    assert xs[i..][0] == xs[i] && xs[i..][1..] == xs[i + 1..];
  }

  lemma {:induction false} ManyEnds<T>(code: (T, Input) -> Input, xs: seq<T>, tail: Input)
    ensures ManyCode(code, xs[|xs|..], tail) == tail
  {
  }

  // --------------------------------------------------------------------------
  // There and back
  // --------------------------------------------------------------------------

  // A policy installed from a valid value and decoded again: what comes back is the value
  // if it has no more rules than the decoder admits, and an error otherwise.
  method StoreAndReload(p: Policy, maxTotal: nat) returns (got: Result<Policy>)
    requires ValidPolicy(p) && |PolicyCode(p, [])| <= maxTotal
    ensures got == if |p.rules| <= MAX_RULES then Ok(p) else Err(CapacityExceeded)
  {
    hide PolicyCode, ReadPolicy, ValidPolicy;
    var w := new ByteWriter(maxTotal);
    EncodePolicy(w, p, []);
    assert w.data == PolicyCode(p, []) by {
      assert w.data + [] == w.data && [] + PolicyCode(p, []) == PolicyCode(p, []);
    }
    PolicyReads(p, []);
    var r := new ByteReader(w.data);
    got := DecodePolicy(r);
    if got.Err? { return; }
    var status := Finish(r);
    got := if status == Some(TrailingGarbage) then Err(TrailingGarbage) else got;
  }
}
