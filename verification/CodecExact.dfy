// What the decoders accept (src/codec/codec.cpp): nothing but what the encoders write, up
// to the order in which the items of a set are listed.
module CodecExact {
  import opened Core
  import opened Bytes
  import opened Guarantees
  import opened Envelopes
  import opened Contracts
  import opened Grants
  import opened Codec
  import opened Sorting

  // Whatever was read stands there as it is written.
  ghost predicate Written<T>(r: Read<T>, s: Input, code: (T, Input) -> Input) {
    r.Parsed? ==> s == code(r.value, r.rest)
  }

  // --------------------------------------------------------------------------
  // Numbers, flags and enumerations
  // --------------------------------------------------------------------------

  lemma {:induction false} NumberWritten(n: nat, s: Input)
    ensures ReadNumber(n, s).Parsed? ==> s == Little(ReadNumber(n, s).value, n) + ReadNumber(n, s).rest
  {
    hide Little, Number;
    if n <= |s| {
      LittleOfNumber(s[..n]);
      assert s == s[..n] + s[n..];
    }
  }

  lemma {:induction false} WordsWritten(s: Input)
    ensures Written(ReadU16(s), s, U16Code) && Written(ReadU32(s), s, U32Code) && Written(ReadU64(s), s, U64Code)
  {
    hide ReadNumber;
    NumberWritten(2, s);
    NumberWritten(4, s);
    NumberWritten(8, s);
  }

  // No byte but 0 and 1 is a flag.
  lemma {:induction false} FlagWritten(s: Input)
    ensures Written(ReadFlag(s), s, FlagCode)
  {
    hide ReadNumber;
    NumberWritten(1, s);
  }

  lemma {:induction false} EnumsWritten(s: Input)
    ensures Written(ReadEnum(KindNamed, s), s, KindCode) && Written(ReadEnum(ComparatorNamed, s), s, ComparatorCode)
    ensures Written(ReadEnum(ClassNamed, s), s, ClassCode) && Written(ReadEnum(ActionNamed, s), s, ActionCode)
  {
    hide ReadU16, U16Code;
    WordsWritten(s);
  }

  lemma {:induction false} ReasonWritten(s: Input)
    ensures var r := ReadEnum(ReasonNamed, s); r.Parsed? ==> s == EnumCode(ReasonNamed, r.value, r.rest)
  {
    hide ReadU16, U16Code;
    WordsWritten(s);
  }

  lemma {:induction false} ThreeWritten(s: Input)
    ensures Written(ReadThree(s), s, ThreeCode)
  {
    hide ReadU64, U64Code;
    WordsWritten(s);
    var s1 := Rest(ReadU64(s));
    WordsWritten(s1);
    WordsWritten(Rest(ReadU64(s1)));
  }

  // --------------------------------------------------------------------------
  // Items
  // --------------------------------------------------------------------------

  lemma {:induction false} GuaranteeWritten(s: Input)
    ensures Written(ReadGuarantee(s), s, GuaranteeCode)
    ensures ReadGuarantee(s).Parsed? ==> ValidGuarantee(ReadGuarantee(s).value)
  {
    hide ReadEnum, ReadU64, ReadFlag, KindCode, ComparatorCode, U64Code, FlagCode, ValidGuarantee;
    EnumsWritten(s);
    var s1 := Rest(ReadEnum(KindNamed, s));
    EnumsWritten(s1);
    var s2 := Rest(ReadEnum(ComparatorNamed, s1));
    WordsWritten(s2);
    FlagWritten(Rest(ReadU64(s2)));
  }

  lemma {:induction false} ConcessionWritten(s: Input)
    ensures Written(ReadConcession(s), s, ConcessionCode)
    ensures ReadConcession(s).Parsed? ==> ValidConcession(ReadConcession(s).value)
  {
    hide ReadEnum, ReadU64, KindCode, U64Code, ValidConcession;
    EnumsWritten(s);
    var s1 := Rest(ReadEnum(KindNamed, s));
    WordsWritten(s1);
    WordsWritten(Rest(ReadU64(s1)));
  }

  lemma {:induction false} WithdrawalWritten(s: Input)
    ensures Written(ReadWithdrawal(s), s, WithdrawalCode)
    ensures ReadWithdrawal(s).Parsed? ==> ValidWithdrawal(ReadWithdrawal(s).value)
  {
    hide ReadEnum, ReadU64, KindCode, U64Code, EnumCode, ValidWithdrawal;
    EnumsWritten(s);
    var s1 := Rest(ReadEnum(KindNamed, s));
    WordsWritten(s1);
    ReasonWritten(Rest(ReadU64(s1)));
  }

  lemma {:induction false} BoundWritten(s: Input)
    ensures Written(ReadBound(s), s, BoundCode)
    ensures ReadBound(s).Parsed? ==> ValidBound(ReadBound(s).value)
  {
    hide ReadEnum, ReadU64, KindCode, U64Code, ValidBound;
    EnumsWritten(s);
    WordsWritten(Rest(ReadEnum(KindNamed, s)));
  }

  // --------------------------------------------------------------------------
  // Lists
  // --------------------------------------------------------------------------

  // The items a list was read from, in the order they were added.
  lemma {:induction false} ManyWritten<T(!new)>(read: Input -> Read<T>, add: Adder<T>, code: (T, Input) -> Input,
                                                n: nat, acc: seq<T>, s: Input) returns (xs: seq<T>)
    requires forall t :: Written(read(t), t, code)
    requires ReadMany(read, add, n, acc, s).Parsed?
    ensures |xs| == n && s == ManyCode(code, xs, ReadMany(read, add, n, acc, s).rest)
    ensures Added(add, acc, xs) == Ok(ReadMany(read, add, n, acc, s).value)
    decreases n
  {
    if n == 0 {
      xs := [];
    } else {
      assert Written(read(s), s, code);
      var x, t := read(s).value, read(s).rest;
      var rest := ManyWritten(read, add, code, n - 1, add(acc, x).value, t);
      xs := [x] + rest;
      assert xs[1..] == rest;
    }
  }

  // The candidate after adding xs one by one.
  function Added<T>(add: Adder<T>, acc: seq<T>, xs: seq<T>): Result<seq<T>>
    decreases |xs|
  {
    if xs == [] then Ok(acc)
    else match add(acc, xs[0]) case Err(e) => Err(e) case Ok(more) => Added(add, more, xs[1..])
  }

  lemma {:induction false} ListWritten<T(!new)>(read: Input -> Read<T>, add: Adder<T>, code: (T, Input) -> Input,
                                                max: nat, s: Input) returns (xs: seq<T>)
    requires (forall t :: Written(read(t), t, code)) && ReadList(read, add, max, s).Parsed?
    ensures |xs| <= max && |xs| <= U32_MAX && s == ListCode(code, xs, ReadList(read, add, max, s).rest)
    ensures Added(add, [], xs) == Ok(ReadList(read, add, max, s).value)
  {
    hide ReadU32, U32Code, ReadMany, ManyCode, Added;
    WordsWritten(s);
    var n := ReadCount(max, s);
    xs := ManyWritten(read, add, code, n.value, [], n.rest);
  }

  lemma {:induction false} PushedIsAll<T>(acc: seq<T>, xs: seq<T>)
    ensures Added(Push, acc, xs) == Ok(acc + xs)
    decreases |xs|
  {
    if xs == [] {
      assert acc + xs == acc;
    } else {
      PushedIsAll(acc + [xs[0]], xs[1..]);
      assert acc + [xs[0]] + xs[1..] == acc + xs;
    }
  }

  // Reading the codes of xs is adding xs.
  lemma {:induction false} ManyReadAs<T(!new)>(read: Input -> Read<T>, add: Adder<T>, code: (T, Input) -> Input,
                                               acc: seq<T>, xs: seq<T>, tail: Input)
    requires Undoes(read, code, xs)
    ensures ReadMany(read, add, |xs|, acc, ManyCode(code, xs, tail)) ==
      match Added(add, acc, xs) case Ok(v) => Parsed(v, tail) case Err(e) => Fault(e)
    decreases |xs|
  {
    if xs != [] {
      var t := ManyCode(code, xs[1..], tail);
      assert read(code(xs[0], t)) == Parsed(xs[0], t);
      if add(acc, xs[0]).Ok? {
        assert forall i | 0 <= i < |xs[1..]| :: xs[1..][i] == xs[i + 1];
        ManyReadAs(read, add, code, add(acc, xs[0]).value, xs[1..], tail);
      }
    }
  }

  lemma {:induction false} ListReadAs<T(!new)>(read: Input -> Read<T>, add: Adder<T>, code: (T, Input) -> Input,
                                               xs: seq<T>, max: nat, tail: Input)
    requires Undoes(read, code, xs) && |xs| <= max && |xs| <= U32_MAX
    ensures ReadList(read, add, max, ListCode(code, xs, tail)) ==
      match Added(add, [], xs) case Ok(v) => Parsed(v, tail) case Err(e) => Fault(e)
  {
    hide ReadU32, U32Code, ReadMany, ManyCode, Undoes, Added;
    ManyReadAs(read, add, code, [], xs, tail);
  }

  // --------------------------------------------------------------------------
  // Guarantee sets
  // --------------------------------------------------------------------------

  lemma {:induction false} InsertAdds(s: GuaranteeSet, g: Guarantee)
    requires Insert(s, g).Ok?
    ensures multiset(Insert(s, g).value) == multiset(s) + multiset{g}
  {
    hide ValidGuarantee, LowerBound;
    var p := LowerBound(s, g.kind);
    assert s == s[..p] + s[p..];
  }

  lemma {:induction false} AllInserted(acc: GuaranteeSet, xs: GuaranteeSet)
    requires Canonical(acc) && Added(Insert, acc, xs).Ok?
    ensures var g := Added(Insert, acc, xs).value; Canonical(g) && multiset(g) == multiset(acc) + multiset(xs)
    decreases |xs|
  {
    hide Canonical, Insert;
    if xs != [] {
      InsertCanonical(acc, xs[0]);
      InsertAdds(acc, xs[0]);
      AllInserted(Insert(acc, xs[0]).value, xs[1..]);
      assert xs == [xs[0]] + xs[1..];
    }
  }

  // A canonical set has one guarantee of a kind.
  lemma {:induction false} OneOfAKind(g: GuaranteeSet, a: Guarantee, b: Guarantee)
    requires Canonical(g) && multiset{a} + multiset{b} <= multiset(g)
    ensures a.kind != b.kind
  {
    assert a in multiset(g) && b in multiset(g);
    var i :| 0 <= i < |g| && g[i] == a;
    if a == b {
      assert g == g[..i] + [a] + g[i + 1..];
      assert a in g[..i] || a in g[i + 1..] by { assert multiset(g)[a] >= 2; }
    }
    var j :| 0 <= j < |g| && j != i && g[j] == b;
  }

  lemma {:induction false} SameSet(a: GuaranteeSet, b: GuaranteeSet)
    requires Canonical(a) && Canonical(b) && multiset(a) == multiset(b)
    ensures a == b
  {
    SameElements(a, b);
    forall k ensures Find(a, k) == Find(b, k) {
      if Find(a, k).Some? {
        assert Find(a, k).value in b;
        var j :| 0 <= j < |b| && b[j] == Find(a, k).value;
        FindAt(b, j);
      } else {
        assert forall i | 0 <= i < |b| :: b[i] in a;
      }
    }
    Extensional(a, b);
  }

  // Inserting the guarantees of a set in any order gives the set.
  lemma {:induction false} AnyOrderInserts(acc: GuaranteeSet, xs: GuaranteeSet, g: GuaranteeSet)
    requires Canonical(acc) && Canonical(g) && multiset(acc) + multiset(xs) == multiset(g)
    ensures Added(Insert, acc, xs) == Ok(g)
    decreases |xs|
  {
    hide Canonical, Insert;
    if xs == [] {
      SameSet(acc, g);
    } else {
      assert xs == [xs[0]] + xs[1..];
      InsertsNew(acc, xs[0], g);
      InsertCanonical(acc, xs[0]);
      InsertAdds(acc, xs[0]);
      AnyOrderInserts(Insert(acc, xs[0]).value, xs[1..], g);
    }
  }

  lemma {:induction false} InsertsNew(acc: GuaranteeSet, x: Guarantee, g: GuaranteeSet)
    requires Canonical(g) && multiset(acc) + multiset{x} <= multiset(g)
    ensures Insert(acc, x).Ok?
  {
    var p := LowerBound(acc, x.kind);
    assert x in multiset(g);
    var i :| 0 <= i < |g| && g[i] == x;
    assert ValidGuarantee(g[i]);
    if p < |acc| {
      assert acc[p] in multiset(acc);
      OneOfAKind(g, acc[p], x);
    }
  }

  // A set is decoded from exactly the codes of its guarantees, listed in any order.
  lemma {:induction false} SetDecodesFrom(s: Input, g: GuaranteeSet, tail: Input)
    ensures ReadGuaranteeSet(s) == Parsed(g, tail) <==>
      Canonical(g) && exists xs: GuaranteeSet :: multiset(xs) == multiset(g) && s == ListCode(GuaranteeCode, xs, tail)
  {
    hide ReadGuarantee, GuaranteeCode, ListCode, ReadList, Canonical, Insert, Added, Undoes;
    if ReadGuaranteeSet(s) == Parsed(g, tail) {
      var xs := SetListed(s);
    }
    if Canonical(g) {
      forall xs: GuaranteeSet | multiset(xs) == multiset(g) && s == ListCode(GuaranteeCode, xs, tail)
        ensures ReadGuaranteeSet(s) == Parsed(g, tail) {
        SetFromList(g, xs, tail);
      }
    }
  }

  lemma {:induction false} SetListed(s: Input) returns (xs: GuaranteeSet)
    requires ReadGuaranteeSet(s).Parsed?
    ensures var r := ReadGuaranteeSet(s);
      Canonical(r.value) && multiset(xs) == multiset(r.value) && s == ListCode(GuaranteeCode, xs, r.rest)
  {
    hide ReadGuarantee, GuaranteeCode, ListCode, ReadList, Insert, Added;
    forall t ensures Written(ReadGuarantee(t), t, GuaranteeCode) { GuaranteeWritten(t); }
    xs := ListWritten(ReadGuarantee, Insert, GuaranteeCode, MAX_GUARANTEES, s);
    AllInserted([], xs);
  }

  lemma {:induction false} SetFromList(g: GuaranteeSet, xs: GuaranteeSet, tail: Input)
    requires Canonical(g) && multiset(xs) == multiset(g)
    ensures ReadGuaranteeSet(ListCode(GuaranteeCode, xs, tail)) == Parsed(g, tail)
  {
    hide ReadGuarantee, GuaranteeCode, ListCode, ReadList, Insert, Added;
    SameElements(xs, g);
    if |g| > 0 { CanonicalIsShort(g, |g| - 1); }
    forall i, t | 0 <= i < |xs| ensures ReadGuarantee(GuaranteeCode(xs[i], t)) == Parsed(xs[i], t) {
      assert xs[i] in g;
    }
    AnyOrderInserts([], xs, g);
    ListReadAs(ReadGuarantee, Insert, GuaranteeCode, xs, MAX_GUARANTEES, tail);
  }

  // So every set of two guarantees or more is decoded from more than its own code.
  lemma {:induction false} TwoCodesOneSet(g: GuaranteeSet, tail: Input)
    requires Canonical(g) && |g| >= 2
    ensures exists s :: s != SetCode(g, tail) && ReadGuaranteeSet(s) == Parsed(g, tail)
  {
    hide GuaranteeCode, ListCode, ReadGuaranteeSet, ReadList;
    var xs := [g[1], g[0]] + g[2..];
    assert g == [g[0], g[1]] + g[2..];
    var s := ListCode(GuaranteeCode, xs, tail);
    SetFromList(g, xs, tail);
    OrderShows(g, xs, tail);
  }

  // A short set is decoded from its own code only.
  lemma {:induction false} ShortSetWritten(s: Input)
    requires ReadGuaranteeSet(s).Parsed? && |ReadGuaranteeSet(s).value| <= 1
    ensures s == SetCode(ReadGuaranteeSet(s).value, ReadGuaranteeSet(s).rest)
  {
    hide ReadGuaranteeSet, Canonical, GuaranteeCode, ListCode;
    var g := ReadGuaranteeSet(s).value;
    var xs := SetListed(s);
    SameElements(xs, g);
    if |g| == 1 { assert xs[0] in g; }
    assert xs == g;
  }

  // A set has one code only exactly when it has no two guarantees.
  lemma {:induction false} OneCodeIff(g: GuaranteeSet, tail: Input)
    requires Canonical(g)
    ensures (forall s :: ReadGuaranteeSet(s) == Parsed(g, tail) ==> s == SetCode(g, tail)) <==> |g| <= 1
  {
    hide ReadGuaranteeSet, SetCode, Canonical;
    if |g| <= 1 {
      forall s | ReadGuaranteeSet(s) == Parsed(g, tail) ensures s == SetCode(g, tail) {
        ShortSetWritten(s);
      }
    } else {
      TwoCodesOneSet(g, tail);
    }
  }

  // Codes tell the order apart.
  lemma {:induction false} OrderShows(g: GuaranteeSet, xs: GuaranteeSet, tail: Input)
    requires Canonical(g) && |xs| == |g| >= 2 && xs[0] == g[1]
    ensures ListCode(GuaranteeCode, xs, tail) != ListCode(GuaranteeCode, g, tail)
  {
    hide GuaranteeCode, ReadGuarantee, U32Code, ReadU32;
    var a, b := ManyCode(GuaranteeCode, xs, tail), ManyCode(GuaranteeCode, g, tail);
    var ta, tb := ManyCode(GuaranteeCode, xs[1..], tail), ManyCode(GuaranteeCode, g[1..], tail);
    assert a == GuaranteeCode(xs[0], ta) && b == GuaranteeCode(g[0], tb);
    assert ReadGuarantee(a) == Parsed(xs[0], ta) && ReadGuarantee(b) == Parsed(g[0], tb);
    var n := |g| % (U32_MAX + 1);
    assert ReadU32(U32Code(n, a)) == Parsed(n, a) && ReadU32(U32Code(n, b)) == Parsed(n, b);
  }

  // --------------------------------------------------------------------------
  // Deltas, envelopes and contracts
  // --------------------------------------------------------------------------

  lemma {:induction false} DeltaWritten(s: Input)
    ensures Written(ReadDelta(s), s, DeltaCode)
  {
    hide ReadConcession, ReadWithdrawal, ConcessionCode, WithdrawalCode, ListCode, ReadList, Added;
    forall t ensures Written(ReadConcession(t), t, ConcessionCode) { ConcessionWritten(t); }
    forall t ensures Written(ReadWithdrawal(t), t, WithdrawalCode) { WithdrawalWritten(t); }
    if ReadDelta(s).Parsed? {
      var a := ListWritten(ReadConcession, Push, ConcessionCode, MAX_DELTA_ENTRIES, s);
      var b := ListWritten(ReadWithdrawal, Push, WithdrawalCode, MAX_DELTA_ENTRIES, ReadConcessions(s).rest);
      PushedIsAll([], a);
      PushedIsAll([], b);
      assert [] + a == a && [] + b == b;
    }
  }

  lemma {:induction false} BoundInserted(bs: seq<Bound>, b: Bound)
    requires InsertBound(bs, b).Ok?
    ensures multiset(InsertBound(bs, b).value) == multiset(bs) + multiset{b}
  {
    hide ValidBound, BoundPosition;
    var p := BoundPosition(bs, b.kind);
    assert bs == bs[..p] + bs[p..];
  }

  lemma {:induction false} AllBoundsInserted(acc: seq<Bound>, xs: seq<Bound>)
    requires Added(InsertBound, acc, xs).Ok?
    ensures multiset(Added(InsertBound, acc, xs).value) == multiset(acc) + multiset(xs)
    decreases |xs|
  {
    hide InsertBound;
    if xs != [] {
      BoundInserted(acc, xs[0]);
      AllBoundsInserted(InsertBound(acc, xs[0]).value, xs[1..]);
      assert xs == [xs[0]] + xs[1..];
    }
  }

  // An envelope is decoded only from its bounds in some order and its cap.
  lemma {:induction false} EnvelopeListed(s: Input) returns (bs: seq<Bound>)
    requires ReadEnvelope(s).Parsed?
    ensures var r := ReadEnvelope(s);
      && CanonicalBounds(r.value.bounds) && multiset(bs) == multiset(r.value.bounds)
      && s == ListCode(BoundCode, bs, U32Code(r.value.maxConcessions, r.rest))
  {
    hide ReadBound, BoundCode, ListCode, ReadList, InsertBound, Added, ReadU32, U32Code, CanonicalBounds;
    forall t ensures Written(ReadBound(t), t, BoundCode) { BoundWritten(t); }
    bs := ListWritten(ReadBound, InsertBound, BoundCode, MAX_BOUNDS, s);
    AllBoundsInserted([], bs);
    WordsWritten(ReadBounds(s).rest);
  }

  lemma {:induction false} HeadWritten(s: Input)
    ensures Written(ReadContractHead(s), s, ContractHeadCode)
  {
    hide ReadEnum, ReadThree, ReadU64, ReadU32, ReadFlag, ThreeCode, U64Code, U32Code, FlagCode, ClassCode;
    ThreeWritten(s);
    var s1 := Rest(ReadThree(s));
    WordsWritten(s1);
    var s2 := Rest(ReadU64(s1));
    WordsWritten(s2);
    var s3 := Rest(ReadU64(s2));
    EnumsWritten(s3);
    var s4 := Rest(ReadEnum(ClassNamed, s3));
    FlagWritten(s4);
    WordsWritten(Rest(ReadFlag(s4)));
  }

  // A contract is decoded only if it is valid, and only from its own code, its guarantees
  // and bounds listed in some order.
  lemma {:induction false} ContractListed(s: Input) returns (xs: GuaranteeSet, bs: seq<Bound>)
    requires ReadContract(s).Parsed?
    ensures var c, t := ReadContract(s).value, ReadContract(s).rest;
      && ValidContract(c) && multiset(xs) == multiset(c.original) && multiset(bs) == multiset(c.envelope.bounds)
      && s == ContractHeadCode(HeadOf(c), ListCode(GuaranteeCode, xs, ListCode(BoundCode, bs,
                U32Code(c.envelope.maxConcessions, U64Code(c.registeredTick, FlagCode(c.active, t))))))
  {
    hide ReadContractHead, ReadGuaranteeSet, ReadEnvelope, ReadU64, ReadFlag, ContractHeadCode, U64Code, FlagCode,
         ContractFault, ListCode, U32Code;
    HeadWritten(s);
    var s1 := ReadContractHead(s).rest;
    xs := SetListed(s1);
    var s2 := ReadGuaranteeSet(s1).rest;
    bs := EnvelopeListed(s2);
    var s3 := ReadEnvelope(s2).rest;
    WordsWritten(s3);
    FlagWritten(ReadU64(s3).rest);
  }

  // --------------------------------------------------------------------------
  // Bindings and rules
  // --------------------------------------------------------------------------

  lemma {:induction false} VectorWritten(s: Input)
    ensures Written(ReadVector(s), s, VectorCode)
  {
    hide ReadThree, ThreeCode;
    ThreeWritten(s);
    ThreeWritten(Rest(ReadThree(s)));
  }

  lemma {:induction false} BindingWritten(s: Input)
    ensures Written(ReadBinding(s), s, BindingCode)
  {
    hide ReadVector, ReadThree, ReadU64, VectorCode, ThreeCode, U64Code;
    VectorWritten(s);
    var s1 := Rest(ReadVector(s));
    ThreeWritten(s1);
    var s2 := Rest(ReadThree(s1));
    WordsWritten(s2);
    WordsWritten(Rest(ReadU64(s2)));
  }

  lemma {:induction false} MaybeWritten<T(!new)>(read: Input -> Read<T>, code: (T, Input) -> Input, s: Input)
    requires forall t :: Written(read(t), t, code)
    ensures var r := ReadMaybe(read, s); r.Parsed? ==> s == MaybeCode(code, r.value, r.rest)
  {
    hide ReadFlag, FlagCode;
    FlagWritten(s);
    if ReadFlag(s).Parsed? { assert Written(read(ReadFlag(s).rest), ReadFlag(s).rest, code); }
  }

  lemma {:induction false} RuleWritten(s: Input)
    ensures Written(ReadRule(s), s, RuleCode)
    ensures ReadRule(s).Parsed? ==> RuleFault(ReadRule(s).value).None?
  {
    hide ReadEnum, ReadU64, ReadU32, U64Code, U32Code, ReadMaybe, MaybeCode, ClassCode, KindCode, ActionCode, RuleFault;
    forall t ensures Written(ReadClass(t), t, ClassCode) && Written(ReadKind(t), t, KindCode)
      && Written(ReadU64(t), t, U64Code) {
      EnumsWritten(t);
      WordsWritten(t);
    }
    WordsWritten(s);
    var s1 := Rest(ReadU64(s));
    WordsWritten(s1);
    var s2 := Rest(ReadU32(s1));
    MaybeWritten(ReadClass, ClassCode, s2);
    var s3 := Rest(ReadMaybe(ReadClass, s2));
    MaybeWritten(ReadU64, U64Code, s3);
    var s4 := Rest(ReadMaybe(ReadU64, s3));
    MaybeWritten(ReadKind, KindCode, s4);
    EnumsWritten(Rest(ReadMaybe(ReadKind, s4)));
  }

  // A policy is decoded only if it is valid, or not installed at all.
  lemma {:induction false} DecodedPolicyIsValid(s: Input)
    ensures ReadPolicy(s).Parsed? && ReadPolicy(s).value.Installed() ==> ValidPolicy(ReadPolicy(s).value)
  {
    hide ReadU64, ReadRules, ReadProfiles, ReadActions, ReadLimits, PolicyFault;
  }
}
