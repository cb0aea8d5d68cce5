// Canonical serialisation (src/codec/codec.cpp) as byte strings and what reading them
// back yields.
//
// Every encoder writes its value in front of whatever follows. Its contract is the round
// trip: reading the result gives the value back and leaves exactly what followed. Every
// reader is steady: more input never changes an answer it has already given.
module Codec {
  import opened Core
  import opened Bytes
  import opened Guarantees
  import opened Envelopes
  import opened Contracts
  import opened Grants

  type Input = seq<byte>

  // What decoding answers: a value and the unread input, or an error.
  datatype Read<+T> = Parsed(value: T, rest: Input) | Fault(error: ErrorCode) {
    predicate IsFailure() { Fault? }

    function PropagateFailure<U>(): Read<U>
      requires Fault?
    {
      Fault(error)
    }

    function Extract(): (T, Input)
      requires Parsed?
    {
      (value, rest)
    }
  }

  // The unread input, if there is a value.
  function Rest<T>(r: Read<T>): Input {
    if r.Parsed? then r.rest else []
  }

  // The answer b to an input extended by x, against the answer a before the extension.
  ghost predicate Extends<T>(a: Read<T>, b: Read<T>, x: Input) {
    match a
    case Parsed(v, t) => b == Parsed(v, t + x)
    case Fault(e) => e == Truncated || b == a
  }

  // --------------------------------------------------------------------------
  // Numbers, flags and enumerations
  // --------------------------------------------------------------------------

  function ReadNumber(n: nat, s: Input): (r: Read<nat>)
    ensures r.Parsed? ==> r.value < Pow256(n)
  {
    if |s| < n then Fault(Truncated)
    else
      NumberBound(s[..n]);
      Parsed(Number(s[..n]), s[n..])
  }

  function NumberCode(n: nat, v: nat, tail: Input): (s: Input)
    requires v < Pow256(n)
    ensures ReadNumber(n, s) == Parsed(v, tail)
    ensures |tail| <= |s|
  {
    NumberOfLittle(v, n);
    assert (Little(v, n) + tail)[..n] == Little(v, n) && (Little(v, n) + tail)[n..] == tail;
    Little(v, n) + tail
  }

  lemma {:induction false} NumberSteady(n: nat, s: Input, x: Input)
    ensures Extends(ReadNumber(n, s), ReadNumber(n, s + x), x)
  {
    hide Number;
    if n <= |s| {
      assert (s + x)[..n] == s[..n] && (s + x)[n..] == s[n..] + x;
    }
  }

  function ReadU16(s: Input): Read<u16> {
    Sizes();
    match ReadNumber(2, s) case Parsed(v, t) => Parsed(v, t) case Fault(e) => Fault(e)
  }

  function ReadU32(s: Input): Read<u32> {
    Sizes();
    match ReadNumber(4, s) case Parsed(v, t) => Parsed(v, t) case Fault(e) => Fault(e)
  }

  function ReadU64(s: Input): Read<u64> {
    Sizes();
    match ReadNumber(8, s) case Parsed(v, t) => Parsed(v, t) case Fault(e) => Fault(e)
  }

  function U16Code(v: u16, tail: Input): (s: Input)
    ensures ReadU16(s) == Parsed(v, tail)
    ensures |tail| <= |s|
  {
    Sizes();
    NumberCode(2, v, tail)
  }

  function U32Code(v: u32, tail: Input): (s: Input)
    ensures ReadU32(s) == Parsed(v, tail)
    ensures |tail| <= |s|
  {
    Sizes();
    NumberCode(4, v, tail)
  }

  function U64Code(v: u64, tail: Input): (s: Input)
    ensures ReadU64(s) == Parsed(v, tail)
    ensures |tail| <= |s|
  {
    Sizes();
    NumberCode(8, v, tail)
  }

  lemma {:induction false} WordsSteady(s: Input, x: Input)
    ensures Extends(ReadU16(s), ReadU16(s + x), x)
    ensures Extends(ReadU32(s), ReadU32(s + x), x)
    ensures Extends(ReadU64(s), ReadU64(s + x), x)
  {
    hide ReadNumber;
    NumberSteady(2, s, x);
    NumberSteady(4, s, x);
    NumberSteady(8, s, x);
  }

  function ReadFlag(s: Input): Read<bool> {
    var (v, t) :- ReadNumber(1, s);
    if v > 1 then Fault(InvalidEnum) else Parsed(v == 1, t)
  }

  function FlagCode(b: bool, tail: Input): (s: Input)
    ensures ReadFlag(s) == Parsed(b, tail)
    ensures |tail| <= |s|
  {
    Sizes();
    NumberCode(1, if b then 1 else 0, tail)
  }

  // Three numbers in a row.
  datatype Three = Three(a: u64, b: u64, c: u64)

  function ReadThree(s: Input): Read<Three> {
    var (a, s1) :- ReadU64(s);
    var (b, s2) :- ReadU64(s1);
    var (c, s3) :- ReadU64(s2);
    Parsed(Three(a, b, c), s3)
  }

  function ThreeCode(v: Three, tail: Input): (s: Input)
    ensures ReadThree(s) == Parsed(v, tail)
    ensures |tail| <= |s|
  {
    hide ReadU64, U64Code;
    U64Code(v.a, U64Code(v.b, U64Code(v.c, tail)))
  }

  lemma {:induction false} ThreeSteady(s: Input, x: Input)
    ensures Extends(ReadThree(s), ReadThree(s + x), x)
  {
    hide ReadU64;
    WordsSteady(s, x);
    var s1 := Rest(ReadU64(s));
    WordsSteady(s1, x);
    WordsSteady(Rest(ReadU64(s1)), x);
  }

  // An enumeration on the wire: a number every legal value has and no other number has.
  function ReadEnum<T>(names: nat -> Option<T>, s: Input): Read<T> {
    var (v, t) :- ReadU16(s);
    match names(v)
    case Some(x) => Parsed(x, t)
    case None => Fault(InvalidEnum)
  }

  function EnumCode<T>(names: nat -> Option<T>, number: u16, tail: Input): (s: Input)
    requires names(number).Some?
    ensures ReadEnum(names, s) == Parsed(names(number).value, tail)
    ensures |tail| <= |s|
  {
    U16Code(number, tail)
  }

  lemma {:induction false} FlagSteady(s: Input, x: Input)
    ensures Extends(ReadFlag(s), ReadFlag(s + x), x)
  {
    hide ReadNumber;
    NumberSteady(1, s, x);
  }

  lemma {:induction false} EnumSteady<T>(names: nat -> Option<T>, s: Input, x: Input)
    ensures Extends(ReadEnum(names, s), ReadEnum(names, s + x), x)
  {
    hide ReadU16;
    WordsSteady(s, x);
  }

  function KindNamed(n: nat): (r: Option<Kind>)
    ensures r.Some? ==> Rank(r.value) == n
  {
    if n == 1 then Some(Availability) else if n == 2 then Some(Bandwidth) else if n == 3 then Some(LatencyP99)
    else if n == 4 then Some(PathDiversity) else if n == 5 then Some(Durability) else if n == 6 then Some(Reachability)
    else None
  }

  function ComparatorNamed(n: nat): Option<Comparator> {
    if n == 1 then Some(AtLeast) else if n == 2 then Some(AtMost) else None
  }

  function ClassNamed(n: nat): (r: Option<ServiceClass>)
    ensures r.Some? ==> ClassRank(r.value) + 1 == n
  {
    if n == 1 then Some(Protected) else if n == 2 then Some(Standard) else if n == 3 then Some(BestEffort)
    else if n == 4 then Some(Scavenger) else None
  }

  function ActionNamed(n: nat): Option<DegradeAction> {
    if n == 1 then Some(Protect) else if n == 2 then Some(Degrade) else if n == 3 then Some(Refuse)
    else if n == 4 then Some(Escalate) else None
  }

  function ActionRank(a: DegradeAction): u16 {
    match a
    case Protect => 1
    case Degrade => 2
    case Refuse => 3
    case Escalate => 4
  }

  function KindCode(k: Kind, tail: Input): (s: Input)
    ensures ReadEnum(KindNamed, s) == Parsed(k, tail)
    ensures |tail| <= |s|
  {
    EnumCode(KindNamed, Rank(k), tail)
  }

  function ComparatorCode(c: Comparator, tail: Input): (s: Input)
    ensures ReadEnum(ComparatorNamed, s) == Parsed(c, tail)
    ensures |tail| <= |s|
  {
    EnumCode(ComparatorNamed, if c.AtLeast? then 1 else 2, tail)
  }

  function ClassCode(c: ServiceClass, tail: Input): (s: Input)
    ensures ReadEnum(ClassNamed, s) == Parsed(c, tail)
    ensures |tail| <= |s|
  {
    EnumCode(ClassNamed, ClassRank(c) + 1, tail)
  }

  function ActionCode(a: DegradeAction, tail: Input): (s: Input)
    ensures ReadEnum(ActionNamed, s) == Parsed(a, tail)
    ensures |tail| <= |s|
  {
    EnumCode(ActionNamed, ActionRank(a), tail)
  }

  // --------------------------------------------------------------------------
  // Counted lists
  // --------------------------------------------------------------------------

  type Adder<!T> = (seq<T>, T) -> Result<seq<T>>

  // The loops that read n elements, adding each to the candidate as it arrives.
  function ReadMany<T>(read: Input -> Read<T>, add: Adder<T>, n: nat, acc: seq<T>, s: Input): Read<seq<T>>
    decreases n
  {
    if n == 0 then Parsed(acc, s)
    else
      var (x, t) :- read(s);
      match add(acc, x)
      case Err(e) => Fault(e)
      case Ok(more) => ReadMany(read, add, n - 1, more, t)
  }

  function ReadCount(max: nat, s: Input): Read<u32> {
    var (n, t) :- ReadU32(s);
    if n > max then Fault(CapacityExceeded) else Parsed(n, t)
  }

  function ReadList<T>(read: Input -> Read<T>, add: Adder<T>, max: nat, s: Input): Read<seq<T>> {
    var (n, t) :- ReadCount(max, s);
    ReadMany(read, add, n, [], t)
  }

  function ManyCode<T>(code: (T, Input) -> Input, xs: seq<T>, tail: Input): Input {
    if xs == [] then tail else code(xs[0], ManyCode(code, xs[1..], tail))
  }

  // The count is written as 32 bits whatever the length.
  function ListCode<T>(code: (T, Input) -> Input, xs: seq<T>, tail: Input): Input {
    U32Code(|xs| % (U32_MAX + 1), ManyCode(code, xs, tail))
  }

  // A list's code is no shorter than what follows it.
  lemma {:induction false} ListGrows<T(!new)>(code: (T, Input) -> Input, xs: seq<T>, tail: Input)
    requires forall x, t :: |t| <= |code(x, t)|
    ensures |tail| <= |ManyCode(code, xs, tail)| <= |ListCode(code, xs, tail)|
  {
    hide U32Code;
    if xs != [] { ListGrows(code, xs[1..], tail); }
  }

  function Push<T>(xs: seq<T>, x: T): Result<seq<T>> { Ok(xs + [x]) }

  ghost predicate Steady<T>(read: Input -> Read<T>) {
    forall s, x :: Extends(read(s), read(s + x), x)
  }

  // Reading what was written for any element of xs gives it back.
  ghost predicate Undoes<T(!new)>(read: Input -> Read<T>, code: (T, Input) -> Input, xs: seq<T>) {
    forall i, tail | 0 <= i < |xs| :: read(code(xs[i], tail)) == Parsed(xs[i], tail)
  }

  // Adding the elements of xs one by one rebuilds xs.
  ghost predicate Rebuilds<T>(add: Adder<T>, xs: seq<T>) {
    forall i | 0 <= i < |xs| :: add(xs[..i], xs[i]) == Ok(xs[..i] + [xs[i]])
  }

  lemma {:induction false} ManySteady<T>(read: Input -> Read<T>, add: Adder<T>, n: nat, acc: seq<T>, s: Input, x: Input)
    requires Steady(read)
    ensures Extends(ReadMany(read, add, n, acc, s), ReadMany(read, add, n, acc, s + x), x)
    decreases n
  {
    if n > 0 {
      assert Extends(read(s), read(s + x), x);
      if read(s).Parsed? && add(acc, read(s).value).Ok? {
        ManySteady(read, add, n - 1, add(acc, read(s).value).value, read(s).rest, x);
      }
    }
  }

  lemma {:induction false} CountSteady(max: nat, s: Input, x: Input)
    ensures Extends(ReadCount(max, s), ReadCount(max, s + x), x)
  {
    hide ReadU32;
    WordsSteady(s, x);
  }

  lemma {:induction false} ListSteady<T>(read: Input -> Read<T>, add: Adder<T>, max: nat, s: Input, x: Input)
    requires Steady(read)
    ensures Extends(ReadList(read, add, max, s), ReadList(read, add, max, s + x), x)
  {
    hide ReadCount, ReadMany, Steady;
    CountSteady(max, s, x);
    var r := ReadCount(max, s);
    if r.Parsed? { ManySteady(read, add, r.value, [], r.rest, x); }
  }

  lemma {:induction false} ManyReads<T(!new)>(read: Input -> Read<T>, add: Adder<T>, code: (T, Input) -> Input,
    xs: seq<T>, i: nat, tail: Input)
    requires i <= |xs| && Undoes(read, code, xs) && Rebuilds(add, xs)
    ensures ReadMany(read, add, |xs| - i, xs[..i], ManyCode(code, xs[i..], tail)) == Parsed(xs, tail)
    decreases |xs| - i
  {
    if i == |xs| {
      assert xs[..i] == xs;
    } else {
      var rest := ManyCode(code, xs[i + 1..], tail);
      assert xs[i..][0] == xs[i] && xs[i..][1..] == xs[i + 1..] && xs[..i] + [xs[i]] == xs[..i + 1];
      assert read(code(xs[i], rest)) == Parsed(xs[i], rest);
      ManyReads(read, add, code, xs, i + 1, tail);
    }
  }

  // A list comes back exactly when the reader admits its length; otherwise it is refused.
  lemma {:induction false} ListReads<T(!new)>(read: Input -> Read<T>, add: Adder<T>, code: (T, Input) -> Input,
    xs: seq<T>, max: nat, tail: Input)
    requires |xs| <= U32_MAX && Undoes(read, code, xs) && Rebuilds(add, xs)
    ensures ReadList(read, add, max, ListCode(code, xs, tail)) == if |xs| <= max then Parsed(xs, tail)
      else Fault(CapacityExceeded)
  {
    hide ReadU32, U32Code, ReadMany, ManyCode, Undoes, Rebuilds;
    ManyReads(read, add, code, xs, 0, tail);
    assert xs[..0] == [] && xs[0..] == xs;
  }

  lemma {:induction false} PushRebuilds<T>(xs: seq<T>)
    ensures Rebuilds(Push, xs)
  {
  }

  // --------------------------------------------------------------------------
  // Guarantee sets and deltas
  // --------------------------------------------------------------------------

  const MAX_GUARANTEES: nat := 16
  const MAX_BOUNDS: nat := 16
  const MAX_DELTA_ENTRIES: nat := 32
  const MAX_RULES: nat := 4096
  const MAX_PROFILES: nat := 8

  function ReadGuarantee(s: Input): Read<Guarantee> {
    var (kind, s1) :- ReadEnum(KindNamed, s);
    var (comparator, s2) :- ReadEnum(ComparatorNamed, s1);
    var (value, s3) :- ReadU64(s2);
    var (hard, s4) :- ReadFlag(s3);
    var g := Guarantee(kind, comparator, value, hard);
    if ValidGuarantee(g) then Parsed(g, s4) else Fault(Invalid)
  }

  function GuaranteeCode(g: Guarantee, tail: Input): (s: Input)
    ensures ValidGuarantee(g) ==> ReadGuarantee(s) == Parsed(g, tail)
    ensures |tail| <= |s|
  {
    hide ReadEnum, ReadU64, ReadFlag, KindCode, ComparatorCode, U64Code, FlagCode, ValidGuarantee;
    KindCode(g.kind, ComparatorCode(g.comparator, U64Code(g.value, FlagCode(g.hard, tail))))
  }

  lemma {:induction false} GuaranteeSteady(s: Input, x: Input)
    ensures Extends(ReadGuarantee(s), ReadGuarantee(s + x), x)
  {
    hide ReadEnum, ReadU64, ReadFlag, ValidGuarantee;
    EnumSteady(KindNamed, s, x);
    var s1 := Rest(ReadEnum(KindNamed, s));
    EnumSteady(ComparatorNamed, s1, x);
    var s2 := Rest(ReadEnum(ComparatorNamed, s1));
    WordsSteady(s2, x);
    FlagSteady(Rest(ReadU64(s2)), x);
  }

  function ReadGuaranteeSet(s: Input): Read<GuaranteeSet> {
    ReadList(ReadGuarantee, Insert, MAX_GUARANTEES, s)
  }

  function SetCode(g: GuaranteeSet, tail: Input): (s: Input)
    ensures Canonical(g) ==> ReadGuaranteeSet(s) == Parsed(g, tail)
    ensures |tail| <= |s|
  {
    SetReads(g, tail);
    ListGrows(GuaranteeCode, g, tail);
    ListCode(GuaranteeCode, g, tail)
  }

  // A canonical set has at most one guarantee per kind.
  lemma {:induction false} CanonicalIsShort(g: GuaranteeSet, i: nat)
    requires Canonical(g) && i < |g|
    ensures Rank(g[i].kind) >= i + 1
  {
    if i > 0 { CanonicalIsShort(g, i - 1); }
  }

  lemma {:induction false} InsertRebuilds(g: GuaranteeSet)
    requires Canonical(g)
    ensures Rebuilds(Insert, g)
  {
    forall i | 0 <= i < |g| ensures Insert(g[..i], g[i]) == Ok(g[..i] + [g[i]]) {
      var p := LowerBound(g[..i], g[i].kind);
      assert g[..i][..p] + [g[i]] + g[..i][p..] == g[..i] + [g[i]];
    }
  }

  lemma {:induction false} SetReads(g: GuaranteeSet, tail: Input)
    ensures Canonical(g) ==> ReadGuaranteeSet(ListCode(GuaranteeCode, g, tail)) == Parsed(g, tail)
  {
    hide ReadGuarantee, GuaranteeCode, ListCode, ReadList, Rebuilds;
    if Canonical(g) {
      if |g| > 0 { CanonicalIsShort(g, |g| - 1); }
      InsertRebuilds(g);
      ListReads(ReadGuarantee, Insert, GuaranteeCode, g, MAX_GUARANTEES, tail);
    }
  }

  lemma {:induction false} SetSteady(s: Input, x: Input)
    ensures Extends(ReadGuaranteeSet(s), ReadGuaranteeSet(s + x), x)
  {
    hide ReadGuarantee, ReadList;
    forall a, b ensures Extends(ReadGuarantee(a), ReadGuarantee(a + b), b) { GuaranteeSteady(a, b); }
    ListSteady(ReadGuarantee, Insert, MAX_GUARANTEES, s, x);
  }

  // A withdrawal with the wire number of its reason.
  type ReasonNumber = n: nat | n <= 29
  datatype WireWithdrawal = WireWithdrawal(kind: Kind, originalValue: u64, reason: ReasonNumber)
  datatype WireDelta = WireDelta(concessions: seq<Concession>, withdrawals: seq<WireWithdrawal>)

  predicate ValidConcession(c: Concession) {
    c.originalValue <= MaxValue(c.kind) && c.approvedValue <= MaxValue(c.kind)
  }

  predicate ValidWithdrawal(w: WireWithdrawal) {
    w.originalValue <= MaxValue(w.kind)
  }

  function ReadConcession(s: Input): Read<Concession> {
    var (kind, s1) :- ReadEnum(KindNamed, s);
    var (original, s2) :- ReadU64(s1);
    var (approved, s3) :- ReadU64(s2);
    var c := Concession(kind, original, approved);
    if ValidConcession(c) then Parsed(c, s3) else Fault(Invalid)
  }

  function ConcessionCode(c: Concession, tail: Input): (s: Input)
    ensures ValidConcession(c) ==> ReadConcession(s) == Parsed(c, tail)
    ensures |tail| <= |s|
  {
    hide ReadEnum, ReadU64, KindCode, U64Code, ValidConcession;
    KindCode(c.kind, U64Code(c.originalValue, U64Code(c.approvedValue, tail)))
  }

  lemma {:induction false} ConcessionSteady(s: Input, x: Input)
    ensures Extends(ReadConcession(s), ReadConcession(s + x), x)
  {
    hide ReadEnum, ReadU64, ValidConcession;
    EnumSteady(KindNamed, s, x);
    var s1 := Rest(ReadEnum(KindNamed, s));
    WordsSteady(s1, x);
    WordsSteady(Rest(ReadU64(s1)), x);
  }

  function ReasonNamed(n: nat): Option<ReasonNumber> {
    if n <= 29 then Some(n) else None
  }

  function ReadWithdrawal(s: Input): Read<WireWithdrawal> {
    var (kind, s1) :- ReadEnum(KindNamed, s);
    var (original, s2) :- ReadU64(s1);
    var (reason, s3) :- ReadEnum(ReasonNamed, s2);
    var w := WireWithdrawal(kind, original, reason);
    if ValidWithdrawal(w) then Parsed(w, s3) else Fault(Invalid)
  }

  function WithdrawalCode(w: WireWithdrawal, tail: Input): (s: Input)
    ensures ValidWithdrawal(w) ==> ReadWithdrawal(s) == Parsed(w, tail)
    ensures |tail| <= |s|
  {
    hide ReadEnum, ReadU64, KindCode, U64Code, EnumCode, ValidWithdrawal;
    KindCode(w.kind, U64Code(w.originalValue, EnumCode(ReasonNamed, w.reason, tail)))
  }

  lemma {:induction false} WithdrawalSteady(s: Input, x: Input)
    ensures Extends(ReadWithdrawal(s), ReadWithdrawal(s + x), x)
  {
    hide ReadEnum, ReadU64, ValidWithdrawal;
    EnumSteady(KindNamed, s, x);
    var s1 := Rest(ReadEnum(KindNamed, s));
    WordsSteady(s1, x);
    EnumSteady(ReasonNamed, Rest(ReadU64(s1)), x);
  }

  function ReadConcessions(s: Input): Read<seq<Concession>> {
    ReadList(ReadConcession, Push, MAX_DELTA_ENTRIES, s)
  }

  function ReadWithdrawals(s: Input): Read<seq<WireWithdrawal>> {
    ReadList(ReadWithdrawal, Push, MAX_DELTA_ENTRIES, s)
  }

  function ReadDelta(s: Input): Read<WireDelta> {
    var (concessions, s1) :- ReadConcessions(s);
    var (withdrawals, s2) :- ReadWithdrawals(s1);
    Parsed(WireDelta(concessions, withdrawals), s2)
  }

  predicate StorableDelta(d: WireDelta) {
    && |d.concessions| <= MAX_DELTA_ENTRIES && |d.withdrawals| <= MAX_DELTA_ENTRIES
    && (forall i | 0 <= i < |d.concessions| :: ValidConcession(d.concessions[i]))
    && (forall i | 0 <= i < |d.withdrawals| :: ValidWithdrawal(d.withdrawals[i]))
  }

  function DeltaCode(d: WireDelta, tail: Input): (s: Input)
    ensures StorableDelta(d) ==> ReadDelta(s) == Parsed(d, tail)
    ensures |tail| <= |s|
  {
    hide ReadConcessions, ReadWithdrawals;
    DeltaReads(d, tail);
    ListGrows(WithdrawalCode, d.withdrawals, tail);
    ListGrows(ConcessionCode, d.concessions, ListCode(WithdrawalCode, d.withdrawals, tail));
    ListCode(ConcessionCode, d.concessions, ListCode(WithdrawalCode, d.withdrawals, tail))
  }

  lemma {:induction false} DeltaReads(d: WireDelta, tail: Input)
    ensures StorableDelta(d) ==>
      ReadWithdrawals(ListCode(WithdrawalCode, d.withdrawals, tail)) == Parsed(d.withdrawals, tail)
    ensures var t := ListCode(WithdrawalCode, d.withdrawals, tail);
      StorableDelta(d) ==> ReadConcessions(ListCode(ConcessionCode, d.concessions, t)) == Parsed(d.concessions, t)
  {
    hide ReadConcession, ReadWithdrawal, ConcessionCode, WithdrawalCode, ListCode, ReadList, Rebuilds, ValidConcession,
         ValidWithdrawal;
    if StorableDelta(d) {
      PushRebuilds(d.concessions);
      PushRebuilds(d.withdrawals);
      var t := ListCode(WithdrawalCode, d.withdrawals, tail);
      ListReads(ReadWithdrawal, Push, WithdrawalCode, d.withdrawals, MAX_DELTA_ENTRIES, tail);
      ListReads(ReadConcession, Push, ConcessionCode, d.concessions, MAX_DELTA_ENTRIES, t);
    }
  }

  lemma {:induction false} DeltaSteady(s: Input, x: Input)
    ensures Extends(ReadDelta(s), ReadDelta(s + x), x)
  {
    hide ReadConcession, ReadWithdrawal, ReadList;
    forall a, b ensures Extends(ReadConcession(a), ReadConcession(a + b), b) { ConcessionSteady(a, b); }
    forall a, b ensures Extends(ReadWithdrawal(a), ReadWithdrawal(a + b), b) { WithdrawalSteady(a, b); }
    ListSteady(ReadConcession, Push, MAX_DELTA_ENTRIES, s, x);
    ListSteady(ReadWithdrawal, Push, MAX_DELTA_ENTRIES, Rest(ReadConcessions(s)), x);
  }

  // --------------------------------------------------------------------------
  // Envelopes and contracts
  // --------------------------------------------------------------------------

  function ReadBound(s: Input): Read<Bound> {
    var (kind, s1) :- ReadEnum(KindNamed, s);
    var (weakest, s2) :- ReadU64(s1);
    var b := Bound(kind, weakest);
    if ValidBound(b) then Parsed(b, s2) else Fault(Invalid)
  }

  function BoundCode(b: Bound, tail: Input): (s: Input)
    ensures ValidBound(b) ==> ReadBound(s) == Parsed(b, tail)
    ensures |tail| <= |s|
  {
    hide ReadEnum, ReadU64, KindCode, U64Code, ValidBound;
    KindCode(b.kind, U64Code(b.weakest, tail))
  }

  lemma {:induction false} BoundSteady(s: Input, x: Input)
    ensures Extends(ReadBound(s), ReadBound(s + x), x)
  {
    hide ReadEnum, ReadU64, ValidBound;
    EnumSteady(KindNamed, s, x);
    WordsSteady(Rest(ReadEnum(KindNamed, s)), x);
  }

  // GuaranteeEnvelope::insert.
  function InsertBound(bs: seq<Bound>, b: Bound): Result<seq<Bound>> {
    if !ValidBound(b) then Err(InvalidArgument)
    else
      var p := BoundPosition(bs, b.kind);
      if p < |bs| && bs[p].kind == b.kind then Err(AlreadyExists) else Ok(bs[..p] + [b] + bs[p..])
  }

  function ReadBounds(s: Input): Read<seq<Bound>> {
    ReadList(ReadBound, InsertBound, MAX_BOUNDS, s)
  }

  function ReadEnvelope(s: Input): Read<Envelope> {
    var (bounds, s1) :- ReadBounds(s);
    var (most, s2) :- ReadU32(s1);
    if CanonicalBounds(bounds) then Parsed(Envelope(bounds, most), s2) else Fault(Invalid)
  }

  function EnvelopeCode(e: Envelope, tail: Input): (s: Input)
    ensures CanonicalBounds(e.bounds) ==> ReadEnvelope(s) == Parsed(e, tail)
    ensures |tail| <= |s|
  {
    hide ReadBounds, ReadU32, U32Code, ListCode, CanonicalBounds;
    ListGrows(BoundCode, e.bounds, U32Code(e.maxConcessions, tail));
    BoundsRead(e.bounds, U32Code(e.maxConcessions, tail));
    ListCode(BoundCode, e.bounds, U32Code(e.maxConcessions, tail))
  }

  lemma {:induction false} BoundsAreFew(bs: seq<Bound>, i: nat)
    requires CanonicalBounds(bs) && i < |bs|
    ensures Rank(bs[i].kind) >= i + 1
  {
    if i > 0 { BoundsAreFew(bs, i - 1); }
  }

  lemma {:induction false} InsertBoundRebuilds(bs: seq<Bound>)
    requires CanonicalBounds(bs)
    ensures Rebuilds(InsertBound, bs)
  {
    forall i | 0 <= i < |bs| ensures InsertBound(bs[..i], bs[i]) == Ok(bs[..i] + [bs[i]]) {
      var p := BoundPosition(bs[..i], bs[i].kind);
      assert bs[..i][..p] + [bs[i]] + bs[..i][p..] == bs[..i] + [bs[i]];
    }
  }

  lemma {:induction false} BoundsRead(bs: seq<Bound>, tail: Input)
    ensures CanonicalBounds(bs) ==> ReadBounds(ListCode(BoundCode, bs, tail)) == Parsed(bs, tail)
  {
    hide ReadBound, BoundCode, ListCode, ReadList, Rebuilds;
    if CanonicalBounds(bs) {
      if |bs| > 0 { BoundsAreFew(bs, |bs| - 1); }
      InsertBoundRebuilds(bs);
      ListReads(ReadBound, InsertBound, BoundCode, bs, MAX_BOUNDS, tail);
    }
  }

  lemma {:induction false} EnvelopeSteady(s: Input, x: Input)
    ensures Extends(ReadEnvelope(s), ReadEnvelope(s + x), x)
  {
    hide ReadBound, ReadList, ReadU32, CanonicalBounds;
    forall a, b ensures Extends(ReadBound(a), ReadBound(a + b), b) { BoundSteady(a, b); }
    ListSteady(ReadBound, InsertBound, MAX_BOUNDS, s, x);
    WordsSteady(Rest(ReadBounds(s)), x);
  }

  // The fixed-size front of a contract.
  datatype ContractHead = ContractHead(
    id: u64, generation: u64, scope: u64, subject: u64, subjectGeneration: u64,
    serviceClass: ServiceClass, nonDegradable: bool, priority: u32)

  function ReadContractHead(s: Input): Read<ContractHead> {
    var (ids, s1) :- ReadThree(s);
    var (subject, s2) :- ReadU64(s1);
    var (subjectGeneration, s3) :- ReadU64(s2);
    var (serviceClass, s4) :- ReadEnum(ClassNamed, s3);
    var (nonDegradable, s5) :- ReadFlag(s4);
    var (priority, s6) :- ReadU32(s5);
    Parsed(ContractHead(ids.a, ids.b, ids.c, subject, subjectGeneration, serviceClass, nonDegradable, priority), s6)
  }

  function ReadContract(s: Input): Read<ServiceContract> {
    var (h, s1) :- ReadContractHead(s);
    var (original, s2) :- ReadGuaranteeSet(s1);
    var (envelope, s3) :- ReadEnvelope(s2);
    var (tick, s4) :- ReadU64(s3);
    var (active, s5) :- ReadFlag(s4);
    var c := ServiceContract(h.id, h.generation, h.scope, h.subject, h.subjectGeneration, h.serviceClass,
                             h.nonDegradable, h.priority, original, envelope, tick, active);
    match ContractFault(c)
    case Some(e) => Fault(e)
    case None => Parsed(c, s5)
  }

  function ContractHeadCode(h: ContractHead, tail: Input): (s: Input)
    ensures ReadContractHead(s) == Parsed(h, tail)
    ensures |tail| <= |s|
  {
    hide ReadEnum, ReadThree, ReadU64, ReadU32, ReadFlag, ThreeCode, U64Code, U32Code, FlagCode, ClassCode;
    ThreeCode(Three(h.id, h.generation, h.scope), U64Code(h.subject, U64Code(h.subjectGeneration,
      ClassCode(h.serviceClass, FlagCode(h.nonDegradable, U32Code(h.priority, tail))))))
  }

  function HeadOf(c: ServiceContract): ContractHead {
    ContractHead(c.id, c.generation, c.scope, c.subject, c.subjectGeneration, c.serviceClass, c.nonDegradable,
      c.priority)
  }

  function ContractCode(c: ServiceContract, tail: Input): (s: Input)
    ensures ValidContract(c) ==> ReadContract(s) == Parsed(c, tail)
    ensures |tail| <= |s|
  {
    hide ReadContractHead, ReadGuaranteeSet, ReadEnvelope, ReadU64, ReadFlag, ContractHeadCode, SetCode, EnvelopeCode,
         U64Code, FlagCode, ContractFault;
    ValidContractParts(c);
    ContractHeadCode(HeadOf(c),
      SetCode(c.original, EnvelopeCode(c.envelope, U64Code(c.registeredTick, FlagCode(c.active, tail)))))
  }

  lemma {:induction false} ValidContractParts(c: ServiceContract)
    ensures ValidContract(c) ==> Canonical(c.original) && CanonicalBounds(c.envelope.bounds)
  {
    hide Canonical, CanonicalBounds;
  }

  lemma {:induction false} ContractHeadSteady(s: Input, x: Input)
    ensures Extends(ReadContractHead(s), ReadContractHead(s + x), x)
  {
    hide ReadEnum, ReadThree, ReadU64, ReadU32, ReadFlag;
    ThreeSteady(s, x);
    var s1 := Rest(ReadThree(s));
    WordsSteady(s1, x);
    var s2 := Rest(ReadU64(s1));
    WordsSteady(s2, x);
    var s3 := Rest(ReadU64(s2));
    EnumSteady(ClassNamed, s3, x);
    var s4 := Rest(ReadEnum(ClassNamed, s3));
    FlagSteady(s4, x);
    WordsSteady(Rest(ReadFlag(s4)), x);
  }

  lemma {:induction false} ContractSteady(s: Input, x: Input)
    ensures Extends(ReadContract(s), ReadContract(s + x), x)
  {
    hide ReadContractHead, ReadGuaranteeSet, ReadEnvelope, ReadU64, ReadFlag, ContractFault;
    ContractHeadSteady(s, x);
    var s1 := Rest(ReadContractHead(s));
    SetSteady(s1, x);
    var s2 := Rest(ReadGuaranteeSet(s1));
    EnvelopeSteady(s2, x);
    var s3 := Rest(ReadEnvelope(s2));
    WordsSteady(s3, x);
    FlagSteady(Rest(ReadU64(s3)), x);
  }

  // --------------------------------------------------------------------------
  // Policy
  // --------------------------------------------------------------------------

  // A flag, and a value only when the flag is set.
  function ReadMaybe<T>(read: Input -> Read<T>, s: Input): Read<Option<T>> {
    var (present, s1) :- ReadFlag(s);
    if !present then Parsed(None, s1)
    else
      var (x, s2) :- read(s1);
      Parsed(Some(x), s2)
  }

  function MaybeCode<T>(code: (T, Input) -> Input, x: Option<T>, tail: Input): Input {
    match x
    case None => FlagCode(false, tail)
    case Some(v) => FlagCode(true, code(v, tail))
  }

  lemma {:induction false} MaybeReads<T>(read: Input -> Read<T>, code: (T, Input) -> Input, x: Option<T>, tail: Input)
    requires x.Some? ==> read(code(x.value, tail)) == Parsed(x.value, tail)
    ensures ReadMaybe(read, MaybeCode(code, x, tail)) == Parsed(x, tail)
  {
    hide ReadFlag, FlagCode;
  }

  lemma {:induction false} MaybeSteady<T>(read: Input -> Read<T>, s: Input, x: Input)
    requires Steady(read)
    ensures Extends(ReadMaybe(read, s), ReadMaybe(read, s + x), x)
  {
    hide ReadFlag;
    FlagSteady(s, x);
    var r := ReadFlag(s);
    if r.Parsed? { assert Extends(read(r.rest), read(r.rest + x), x); }
  }

  function ReadKind(s: Input): Read<Kind> { ReadEnum(KindNamed, s) }
  function ReadClass(s: Input): Read<ServiceClass> { ReadEnum(ClassNamed, s) }
  function ReadAction(s: Input): Read<DegradeAction> { ReadEnum(ActionNamed, s) }

  function ReadRule(s: Input): Read<PolicyRule> {
    var (id, s1) :- ReadU64(s);
    var (precedence, s2) :- ReadU32(s1);
    var (serviceClass, s3) :- ReadMaybe(ReadClass, s2);
    var (scope, s4) :- ReadMaybe(ReadU64, s3);
    var (trigger, s5) :- ReadMaybe(ReadKind, s4);
    var (action, s6) :- ReadAction(s5);
    var r := PolicyRule(id, precedence, serviceClass, scope, trigger, action);
    match RuleFault(r)
    case Some(e) => Fault(e)
    case None => Parsed(r, s6)
  }

  function RuleCode(r: PolicyRule, tail: Input): (s: Input)
    ensures RuleFault(r).None? ==> ReadRule(s) == Parsed(r, tail)
    ensures |tail| <= |s|
  {
    hide ReadU64, ReadU32, ReadMaybe, ReadEnum, U64Code, U32Code, ActionCode, MaybeCode, KindCode, ClassCode, RuleFault;
    var s5 := ActionCode(r.action, tail);
    var s4 := MaybeCode(KindCode, r.trigger, s5);
    var s3 := MaybeCode(U64Code, r.scope, s4);
    var s2 := MaybeCode(ClassCode, r.serviceClass, s3);
    OptionsRead(r, s3, s4, s5);
    OptionsGrow(r, s3, s4, s5);
    U64Code(r.id, U32Code(r.precedence, s2))
  }

  lemma {:induction false} OptionsRead(r: PolicyRule, s3: Input, s4: Input, s5: Input)
    ensures ReadMaybe(ReadKind, MaybeCode(KindCode, r.trigger, s5)) == Parsed(r.trigger, s5)
    ensures ReadMaybe(ReadU64, MaybeCode(U64Code, r.scope, s4)) == Parsed(r.scope, s4)
    ensures ReadMaybe(ReadClass, MaybeCode(ClassCode, r.serviceClass, s3)) == Parsed(r.serviceClass, s3)
  {
    hide ReadEnum, ReadU64, U64Code, KindCode, ClassCode, ReadMaybe, MaybeCode;
    MaybeReads(ReadKind, KindCode, r.trigger, s5);
    MaybeReads(ReadU64, U64Code, r.scope, s4);
    MaybeReads(ReadClass, ClassCode, r.serviceClass, s3);
  }

  lemma {:induction false} OptionsGrow(r: PolicyRule, s3: Input, s4: Input, s5: Input)
    ensures |s5| <= |MaybeCode(KindCode, r.trigger, s5)|
    ensures |s4| <= |MaybeCode(U64Code, r.scope, s4)|
    ensures |s3| <= |MaybeCode(ClassCode, r.serviceClass, s3)|
  {
    hide U64Code, KindCode, ClassCode, FlagCode;
  }

  lemma {:induction false} OptionsSteady(s: Input, x: Input)
    ensures Extends(ReadMaybe(ReadKind, s), ReadMaybe(ReadKind, s + x), x)
    ensures Extends(ReadMaybe(ReadU64, s), ReadMaybe(ReadU64, s + x), x)
    ensures Extends(ReadMaybe(ReadClass, s), ReadMaybe(ReadClass, s + x), x)
  {
    hide ReadEnum, ReadU64, ReadMaybe;
    forall a, b ensures Extends(ReadKind(a), ReadKind(a + b), b) { EnumSteady(KindNamed, a, b); }
    forall a, b ensures Extends(ReadClass(a), ReadClass(a + b), b) { EnumSteady(ClassNamed, a, b); }
    forall a, b ensures Extends(ReadU64(a), ReadU64(a + b), b) { WordsSteady(a, b); }
    MaybeSteady(ReadKind, s, x);
    MaybeSteady(ReadU64, s, x);
    MaybeSteady(ReadClass, s, x);
  }

  lemma {:induction false} RuleSteady(s: Input, x: Input)
    ensures Extends(ReadRule(s), ReadRule(s + x), x)
  {
    hide ReadU64, ReadU32, ReadMaybe, ReadEnum, RuleFault;
    WordsSteady(s, x);
    var s1 := Rest(ReadU64(s));
    WordsSteady(s1, x);
    var s2 := Rest(ReadU32(s1));
    OptionsSteady(s2, x);
    var s3 := Rest(ReadMaybe(ReadClass, s2));
    OptionsSteady(s3, x);
    var s4 := Rest(ReadMaybe(ReadU64, s3));
    OptionsSteady(s4, x);
    EnumSteady(ActionNamed, Rest(ReadMaybe(ReadKind, s4)), x);
  }

  function ReadProfile(s: Input): Read<ClassProfile> {
    var (serviceClass, s1) :- ReadClass(s);
    var (ceiling, s2) :- ReadEnvelope(s1);
    var (mayBeDegraded, s3) :- ReadFlag(s2);
    var p := ClassProfile(serviceClass, ceiling, mayBeDegraded);
    if ValidProfile(p) then Parsed(p, s3) else Fault(Invalid)
  }

  function ProfileCode(p: ClassProfile, tail: Input): (s: Input)
    ensures ValidProfile(p) ==> ReadProfile(s) == Parsed(p, tail)
    ensures |tail| <= |s|
  {
    hide ReadEnum, ReadEnvelope, ReadFlag, ClassCode, EnvelopeCode, FlagCode, CanonicalBounds;
    ClassCode(p.serviceClass, EnvelopeCode(p.ceiling, FlagCode(p.mayBeDegraded, tail)))
  }

  lemma {:induction false} ProfileSteady(s: Input, x: Input)
    ensures Extends(ReadProfile(s), ReadProfile(s + x), x)
  {
    hide ReadEnum, ReadEnvelope, ReadFlag, ValidProfile;
    EnumSteady(ClassNamed, s, x);
    var s1 := Rest(ReadClass(s));
    EnvelopeSteady(s1, x);
    FlagSteady(Rest(ReadEnvelope(s1)), x);
  }

  datatype PolicyActions = PolicyActions(
    unknown: DegradeAction, stale: DegradeAction, conflict: DegradeAction, invalid: DegradeAction,
      unsupported: DegradeAction)

  datatype PolicyLimits = PolicyLimits(
    protectFirst: bool, defaultTtl: u64, minimumTtl: u64, caps: PolicyCaps, nodeBudget: u64, freshness: u64)

  function ReadActions(s: Input): Read<PolicyActions> {
    var (unknown, s1) :- ReadAction(s);
    var (stale, s2) :- ReadAction(s1);
    var (conflict, s3) :- ReadAction(s2);
    var (invalid, s4) :- ReadAction(s3);
    var (unsupported, s5) :- ReadAction(s4);
    Parsed(PolicyActions(unknown, stale, conflict, invalid, unsupported), s5)
  }

  function ActionsCode(a: PolicyActions, tail: Input): (s: Input)
    ensures ReadActions(s) == Parsed(a, tail)
    ensures |tail| <= |s|
  {
    hide ReadEnum, ActionCode;
    ActionCode(a.unknown,
      ActionCode(a.stale, ActionCode(a.conflict, ActionCode(a.invalid, ActionCode(a.unsupported, tail)))))
  }

  lemma {:induction false} ActionsSteady(s: Input, x: Input)
    ensures Extends(ReadActions(s), ReadActions(s + x), x)
  {
    hide ReadEnum;
    EnumSteady(ActionNamed, s, x);
    var s1 := Rest(ReadAction(s));
    EnumSteady(ActionNamed, s1, x);
    var s2 := Rest(ReadAction(s1));
    EnumSteady(ActionNamed, s2, x);
    var s3 := Rest(ReadAction(s2));
    EnumSteady(ActionNamed, s3, x);
    EnumSteady(ActionNamed, Rest(ReadAction(s3)), x);
  }

  datatype PolicyCaps = PolicyCaps(maxConcessions: u32, minimumDwell: u32, minimumServed: u32)

  function ReadCaps(s: Input): Read<PolicyCaps> {
    var (maxConcessions, s1) :- ReadU32(s);
    var (minimumDwell, s2) :- ReadU32(s1);
    var (minimumServed, s3) :- ReadU32(s2);
    Parsed(PolicyCaps(maxConcessions, minimumDwell, minimumServed), s3)
  }

  function CapsCode(c: PolicyCaps, tail: Input): (s: Input)
    ensures ReadCaps(s) == Parsed(c, tail)
    ensures |tail| <= |s|
  {
    hide ReadU32, U32Code;
    U32Code(c.maxConcessions, U32Code(c.minimumDwell, U32Code(c.minimumServed, tail)))
  }

  lemma {:induction false} CapsSteady(s: Input, x: Input)
    ensures Extends(ReadCaps(s), ReadCaps(s + x), x)
  {
    hide ReadU32;
    WordsSteady(s, x);
    var s1 := Rest(ReadU32(s));
    WordsSteady(s1, x);
    WordsSteady(Rest(ReadU32(s1)), x);
  }

  function ReadLimits(s: Input): Read<PolicyLimits> {
    var (protectFirst, s1) :- ReadFlag(s);
    var (defaultTtl, s2) :- ReadU64(s1);
    var (minimumTtl, s3) :- ReadU64(s2);
    var (caps, s4) :- ReadCaps(s3);
    var (nodeBudget, s5) :- ReadU64(s4);
    var (freshness, s6) :- ReadU64(s5);
    Parsed(PolicyLimits(protectFirst, defaultTtl, minimumTtl, caps, nodeBudget, freshness), s6)
  }

  function LimitsCode(l: PolicyLimits, tail: Input): (s: Input)
    ensures ReadLimits(s) == Parsed(l, tail)
    ensures |tail| <= |s|
  {
    hide ReadFlag, ReadCaps, ReadU64, FlagCode, CapsCode, U64Code;
    FlagCode(l.protectFirst,
      U64Code(l.defaultTtl, U64Code(l.minimumTtl, CapsCode(l.caps, U64Code(l.nodeBudget, U64Code(l.freshness, tail))))))
  }

  lemma {:induction false} LimitsSteady(s: Input, x: Input)
    ensures Extends(ReadLimits(s), ReadLimits(s + x), x)
  {
    hide ReadFlag, ReadCaps, ReadU64;
    FlagSteady(s, x);
    var s1 := Rest(ReadFlag(s));
    WordsSteady(s1, x);
    var s2 := Rest(ReadU64(s1));
    WordsSteady(s2, x);
    var s3 := Rest(ReadU64(s2));
    CapsSteady(s3, x);
    var s4 := Rest(ReadCaps(s3));
    WordsSteady(s4, x);
    WordsSteady(Rest(ReadU64(s4)), x);
  }

  function ReadRules(s: Input): Read<seq<PolicyRule>> { ReadList(ReadRule, Push, MAX_RULES, s) }
  function ReadProfiles(s: Input): Read<seq<ClassProfile>> { ReadList(ReadProfile, Push, MAX_PROFILES, s) }

  function Assembled(id: u64, generation: u64, rules: seq<PolicyRule>, profiles: seq<ClassProfile>, a: PolicyActions,
                     l: PolicyLimits): Policy {
    Policy(id, generation, rules, profiles, a.unknown, a.stale, a.conflict, a.invalid, a.unsupported,
           l.protectFirst, l.defaultTtl, l.minimumTtl, l.caps.maxConcessions, l.caps.minimumDwell, l.caps.minimumServed,
           l.nodeBudget, l.freshness)
  }

  function ActionsOf(p: Policy): PolicyActions {
    PolicyActions(p.onUnknown, p.onStale, p.onConflict, p.onInvalid, p.onUnsupported)
  }

  function LimitsOf(p: Policy): PolicyLimits {
    PolicyLimits(p.protectFirst, p.defaultTtl, p.minimumTtl,
                 PolicyCaps(p.maxConcessionsPerContract, p.minimumDwell, p.minimumProtectedServed),
                 p.searchNodeBudget, p.evidenceFreshness)
  }

  // An installed policy must be valid; an absent one is carried as it is.
  function ReadPolicy(s: Input): Read<Policy> {
    var (id, s1) :- ReadU64(s);
    var (generation, s2) :- ReadU64(s1);
    var (rules, s3) :- ReadRules(s2);
    var (profiles, s4) :- ReadProfiles(s3);
    var (actions, s5) :- ReadActions(s4);
    var (limits, s6) :- ReadLimits(s5);
    var p := Assembled(id, generation, rules, profiles, actions, limits);
    if p.Installed() && PolicyFault(p).Some? then Fault(PolicyFault(p).value) else Parsed(p, s6)
  }

  function PolicyCode(p: Policy, tail: Input): Input {
    U64Code(p.id, U64Code(p.generation,
      ListCode(RuleCode, p.rules,
        ListCode(ProfileCode, p.profiles, ActionsCode(ActionsOf(p), LimitsCode(LimitsOf(p), tail))))))
  }

  lemma {:induction false} RulesSteady(s: Input, x: Input)
    ensures Extends(ReadRules(s), ReadRules(s + x), x)
  {
    hide ReadRule, ReadList;
    forall a, b ensures Extends(ReadRule(a), ReadRule(a + b), b) { RuleSteady(a, b); }
    ListSteady(ReadRule, Push, MAX_RULES, s, x);
  }

  lemma {:induction false} ProfilesSteady(s: Input, x: Input)
    ensures Extends(ReadProfiles(s), ReadProfiles(s + x), x)
  {
    hide ReadProfile, ReadList;
    forall a, b ensures Extends(ReadProfile(a), ReadProfile(a + b), b) { ProfileSteady(a, b); }
    ListSteady(ReadProfile, Push, MAX_PROFILES, s, x);
  }

  lemma {:induction false} PolicySteady(s: Input, x: Input)
    ensures Extends(ReadPolicy(s), ReadPolicy(s + x), x)
  {
    hide ReadU64, ReadRules, ReadProfiles, ReadActions, ReadLimits, PolicyFault;
    WordsSteady(s, x);
    var s1 := Rest(ReadU64(s));
    WordsSteady(s1, x);
    var s2 := Rest(ReadU64(s1));
    RulesSteady(s2, x);
    var s3 := Rest(ReadRules(s2));
    ProfilesSteady(s3, x);
    var s4 := Rest(ReadProfiles(s3));
    ActionsSteady(s4, x);
    LimitsSteady(Rest(ReadActions(s4)), x);
  }

  lemma {:induction false} RulesRead(rules: seq<PolicyRule>, tail: Input)
    requires |rules| <= U32_MAX && forall i | 0 <= i < |rules| :: RuleFault(rules[i]).None?
    ensures ReadRules(ListCode(RuleCode, rules, tail)) == if |rules| <= MAX_RULES then Parsed(rules, tail)
      else Fault(CapacityExceeded)
  {
    hide ReadRule, RuleCode, ListCode, ReadList, Rebuilds, RuleFault;
    PushRebuilds(rules);
    ListReads(ReadRule, Push, RuleCode, rules, MAX_RULES, tail);
  }

  lemma {:induction false} ProfilesRead(profiles: seq<ClassProfile>, tail: Input)
    requires |profiles| <= MAX_PROFILES && forall i | 0 <= i < |profiles| :: ValidProfile(profiles[i])
    ensures ReadProfiles(ListCode(ProfileCode, profiles, tail)) == Parsed(profiles, tail)
  {
    hide ReadProfile, ProfileCode, ListCode, ReadList, Rebuilds, ValidProfile;
    PushRebuilds(profiles);
    ListReads(ReadProfile, Push, ProfileCode, profiles, MAX_PROFILES, tail);
  }

  // The rule loop of Policy::validate passes only if every rule does.
  lemma {:induction false} EachRulePasses(rules: seq<PolicyRule>, i: nat, k: nat)
    requires i <= k < |rules| && RulesFault(rules, i).None?
    ensures RuleFault(rules[k]).None?
    decreases |rules| - i
  {
    hide RuleFault;
    if i < k { EachRulePasses(rules, i + 1, k); }
  }

  lemma {:induction false} FourClasses(a: ServiceClass, b: ServiceClass, c: ServiceClass, d: ServiceClass,
                                       e: ServiceClass)
    ensures a == b || a == c || a == d || a == e || b == c || b == d || b == e || c == d || c == e || d == e
  {
  }

  // A policy has at most one profile per class, or names a class twice.
  lemma {:induction false} ProfilesAreFew(ps: seq<ClassProfile>)
    ensures |ps| <= 4 || !UniqueClasses(ps)
  {
    if |ps| > 4 {
      FourClasses(ps[0].serviceClass, ps[1].serviceClass, ps[2].serviceClass, ps[3].serviceClass, ps[4].serviceClass);
    }
  }

  lemma {:induction false} ValidPolicyParts(p: Policy)
    requires ValidPolicy(p)
    ensures p.Installed() && |p.rules| <= MAX_COLLECTION_ITEMS && RulesFault(p.rules, 0).None?
    ensures forall i | 0 <= i < |p.profiles| :: ValidProfile(p.profiles[i])
    ensures |p.profiles| <= 4
  {
    hide RulesFault, ValidProfile, UniquePrecedences;
    ProfilesAreFew(p.profiles);
  }

  // A valid policy reads back exactly when it has no more rules than the reader admits.
  lemma {:induction false} PolicyReads(p: Policy, tail: Input)
    requires ValidPolicy(p)
    ensures ReadPolicy(PolicyCode(p, tail)) == if |p.rules| <= MAX_RULES then Parsed(p, tail)
      else Fault(CapacityExceeded)
  {
    hide ReadU64, U64Code, ReadRules, ReadProfiles, ListCode, ReadActions, ReadLimits, ActionsCode, LimitsCode,
         PolicyFault, RuleFault, ValidProfile, RulesFault;
    ValidPolicyParts(p);
    forall k | 0 <= k < |p.rules| ensures RuleFault(p.rules[k]).None? { EachRulePasses(p.rules, 0, k); }
    var s4 := ActionsCode(ActionsOf(p), LimitsCode(LimitsOf(p), tail));
    ProfilesRead(p.profiles, s4);
    RulesRead(p.rules, ListCode(ProfileCode, p.profiles, s4));
  }

  // --------------------------------------------------------------------------
  // Authority
  // --------------------------------------------------------------------------

  function ReadVector(s: Input): Read<AuthorityVector> {
    var (v, s1) :- ReadThree(s);
    var (w, s2) :- ReadThree(s1);
    Parsed(AuthorityVector(v.a, v.b, v.c, w.a, w.b, w.c), s2)
  }

  function VectorCode(v: AuthorityVector, tail: Input): (s: Input)
    ensures ReadVector(s) == Parsed(v, tail)
    ensures |tail| <= |s|
  {
    hide ReadThree, ThreeCode;
    ThreeCode(Three(v.term, v.boot, v.fabric), ThreeCode(Three(v.capacity, v.policy, v.evidence), tail))
  }

  lemma {:induction false} VectorSteady(s: Input, x: Input)
    ensures Extends(ReadVector(s), ReadVector(s + x), x)
  {
    hide ReadThree;
    ThreeSteady(s, x);
    ThreeSteady(Rest(ReadThree(s)), x);
  }

  function ReadBinding(s: Input): Read<Binding> {
    var (vector, s1) :- ReadVector(s);
    var (v, s2) :- ReadThree(s1);
    var (subjectGeneration, s3) :- ReadU64(s2);
    var (scope, s4) :- ReadU64(s3);
    Parsed(Binding(vector, v.a, v.b, v.c, subjectGeneration, scope), s4)
  }

  function BindingCode(b: Binding, tail: Input): (s: Input)
    ensures ReadBinding(s) == Parsed(b, tail)
    ensures |tail| <= |s|
  {
    hide ReadVector, ReadThree, ReadU64, VectorCode, ThreeCode, U64Code;
    VectorCode(b.vector,
      ThreeCode(Three(b.contract, b.contractGeneration, b.subject),
      U64Code(b.subjectGeneration, U64Code(b.scope, tail))))
  }

  lemma {:induction false} BindingSteady(s: Input, x: Input)
    ensures Extends(ReadBinding(s), ReadBinding(s + x), x)
  {
    hide ReadVector, ReadThree, ReadU64;
    VectorSteady(s, x);
    var s1 := Rest(ReadVector(s));
    ThreeSteady(s1, x);
    var s2 := Rest(ReadThree(s1));
    WordsSteady(s2, x);
    WordsSteady(Rest(ReadU64(s2)), x);
  }

  // --------------------------------------------------------------------------
  // The laws of the codec
  // --------------------------------------------------------------------------

  // Reading the code of v with anything after it gives v and leaves exactly that; reading
  // any proper prefix of the code runs out of input.
  ghost predicate Lossless<T(!new)>(read: Input -> Read<T>, code: Input, v: T) {
    && (forall tail :: read(code + tail) == Parsed(v, tail))
    && (forall k | 0 <= k < |code| :: read(code[..k]) == Fault(Truncated))
  }

  lemma {:induction false} SteadyIsLossless<T(!new)>(read: Input -> Read<T>, code: Input, v: T)
    requires Steady(read) && read(code) == Parsed(v, [])
    ensures Lossless(read, code, v)
  {
    forall tail ensures read(code + tail) == Parsed(v, tail) {
      assert Extends(read(code), read(code + tail), tail);
      assert [] + tail == tail;
    }
    forall k | 0 <= k < |code| ensures read(code[..k]) == Fault(Truncated) {
      assert code[..k] + code[k..] == code;
      assert Extends(read(code[..k]), read(code[..k] + code[k..]), code[k..]);
    }
  }

  // No code is the beginning of another value's code.
  lemma {:induction false} CodesStandApart<T(!new)>(read: Input -> Read<T>, a: Input, b: Input, v: T, w: T)
    requires Lossless(read, a, v) && Lossless(read, b, w) && a <= b
    ensures a == b && v == w
  {
    assert a + b[|a|..] == b && b + [] == b;
    assert read(a + b[|a|..]) == Parsed(v, b[|a|..]);
    assert read(b + []) == Parsed(w, []);
  }

  lemma {:induction false} SetLossless(g: GuaranteeSet)
    requires Canonical(g)
    ensures Lossless(ReadGuaranteeSet, SetCode(g, []), g)
  {
    hide ReadGuaranteeSet, SetCode, Canonical;
    forall s, x ensures Extends(ReadGuaranteeSet(s), ReadGuaranteeSet(s + x), x) { SetSteady(s, x); }
    SteadyIsLossless(ReadGuaranteeSet, SetCode(g, []), g);
  }

  lemma {:induction false} DeltaLossless(d: WireDelta)
    requires StorableDelta(d)
    ensures Lossless(ReadDelta, DeltaCode(d, []), d)
  {
    hide ReadDelta, DeltaCode, StorableDelta;
    forall s, x ensures Extends(ReadDelta(s), ReadDelta(s + x), x) { DeltaSteady(s, x); }
    SteadyIsLossless(ReadDelta, DeltaCode(d, []), d);
  }

  lemma {:induction false} EnvelopeLossless(e: Envelope)
    requires CanonicalBounds(e.bounds)
    ensures Lossless(ReadEnvelope, EnvelopeCode(e, []), e)
  {
    hide ReadEnvelope, EnvelopeCode, CanonicalBounds;
    forall s, x ensures Extends(ReadEnvelope(s), ReadEnvelope(s + x), x) { EnvelopeSteady(s, x); }
    SteadyIsLossless(ReadEnvelope, EnvelopeCode(e, []), e);
  }

  lemma {:induction false} ContractLossless(c: ServiceContract)
    requires ValidContract(c)
    ensures Lossless(ReadContract, ContractCode(c, []), c)
  {
    hide ReadContract, ContractCode, ValidContract;
    forall s, x ensures Extends(ReadContract(s), ReadContract(s + x), x) { ContractSteady(s, x); }
    SteadyIsLossless(ReadContract, ContractCode(c, []), c);
  }

  lemma {:induction false} BindingLossless(b: Binding)
    ensures Lossless(ReadBinding, BindingCode(b, []), b)
  {
    hide ReadBinding, BindingCode;
    forall s, x ensures Extends(ReadBinding(s), ReadBinding(s + x), x) { BindingSteady(s, x); }
    SteadyIsLossless(ReadBinding, BindingCode(b, []), b);
  }

  // Policy::validate admits up to 2^20 rules and the reader only 4096: a valid policy is
  // encoded without loss exactly when it stays within the smaller bound.
  lemma {:induction false} PolicyLosslessIff(p: Policy)
    requires ValidPolicy(p)
    ensures Lossless(ReadPolicy, PolicyCode(p, []), p) <==> |p.rules| <= MAX_RULES
    ensures |p.rules| > MAX_RULES ==> ReadPolicy(PolicyCode(p, [])) == Fault(CapacityExceeded)
  {
    hide ReadPolicy, PolicyCode, ValidPolicy;
    PolicyReads(p, []);
    var code := PolicyCode(p, []);
    if |p.rules| <= MAX_RULES {
      forall s, x ensures Extends(ReadPolicy(s), ReadPolicy(s + x), x) { PolicySteady(s, x); }
      SteadyIsLossless(ReadPolicy, code, p);
    } else {
      assert code + [] == code;
      assert ReadPolicy(code + []) != Parsed(p, []);
    }
  }

  // A valid policy with one rule more than the reader admits.
  function WidePolicy(): Policy {
    Policy(1, 1, seq(MAX_RULES + 1, i requires 0 <= i <= MAX_RULES => PolicyRule(1, i, None, None, None, Refuse)), [],
           Refuse, Refuse, Refuse, Refuse, Refuse, true, 1, 1, 0, 0, 0, 1, 1)
  }

  lemma {:induction false} WideRulesPass(rules: seq<PolicyRule>, i: nat)
    requires i <= |rules| && forall k | 0 <= k < |rules| :: RuleFault(rules[k]).None? && rules[k].precedence == k
    ensures RulesFault(rules, i).None?
    decreases |rules| - i
  {
    hide RuleFault;
    if i < |rules| { WideRulesPass(rules, i + 1); }
  }

  // The policy above is valid, and its own code cannot be read back.
  lemma {:induction false} WidePolicyUnreadable()
    ensures ValidPolicy(WidePolicy()) && ReadPolicy(PolicyCode(WidePolicy(), [])) == Fault(CapacityExceeded)
  {
    hide ReadPolicy, PolicyCode, RulesFault;
    WideRulesPass(WidePolicy().rules, 0);
    PolicyReads(WidePolicy(), []);
  }

  // --------------------------------------------------------------------------
  // What decoding yields
  // --------------------------------------------------------------------------

  lemma {:induction false} InsertCanonical(s: GuaranteeSet, g: Guarantee)
    requires Canonical(s) && Insert(s, g).Ok?
    ensures Canonical(Insert(s, g).value)
  {
    var p := LowerBound(s, g.kind);
    if p < |s| && Rank(s[p].kind) == Rank(g.kind) { RankInjective(s[p].kind, g.kind); }
  }

  lemma {:induction false} ManyCanonical(n: nat, acc: GuaranteeSet, s: Input)
    requires Canonical(acc)
    ensures var r := ReadMany(ReadGuarantee, Insert, n, acc, s); r.Parsed? ==> Canonical(r.value)
    decreases n
  {
    hide ReadGuarantee, Insert, Canonical;
    if n > 0 {
      var r := ReadGuarantee(s);
      if r.Parsed? && Insert(acc, r.value).Ok? {
        InsertCanonical(acc, r.value);
        ManyCanonical(n - 1, Insert(acc, r.value).value, r.rest);
      }
    }
  }

  // Whatever order the guarantees arrive in, decoding yields a canonical set, so writing
  // it again and reading that back changes nothing.
  lemma {:induction false} DecodedSetIsStable(s: Input)
    ensures var r := ReadGuaranteeSet(s); r.Parsed? ==>
      Canonical(r.value) && Lossless(ReadGuaranteeSet, SetCode(r.value, []), r.value)
  {
    hide ReadMany, ReadCount, SetCode, Lossless;
    var n := ReadCount(MAX_GUARANTEES, s);
    var r := ReadGuaranteeSet(s);
    if r.Parsed? {
      ManyCanonical(n.value, [], n.rest);
      SetLossless(r.value);
    }
  }
}
