// Concession envelopes: how far, and in how many places at once, a guarantee set
// may be weakened (src/domain/guarantee.cpp, src/domain/policy.cpp).
module Envelopes {
  import opened Core
  import opened Guarantees

  // An inclusive floor for AtLeast kinds, an inclusive ceiling for AtMost kinds.
  datatype Bound = Bound(kind: Kind, weakest: u64)
  datatype Envelope = Envelope(bounds: seq<Bound>, maxConcessions: u32)

  predicate ValidBound(b: Bound) {
    b.weakest <= MaxValue(b.kind)
  }

  predicate CanonicalBounds(bs: seq<Bound>) {
    && (forall i | 0 <= i < |bs| :: ValidBound(bs[i]))
    && (forall i, j | 0 <= i < j < |bs| :: Rank(bs[i].kind) < Rank(bs[j].kind))
  }

  function BoundPosition(bs: seq<Bound>, k: Kind): (p: nat)
    ensures p <= |bs|
    ensures forall i | 0 <= i < p :: Rank(bs[i].kind) < Rank(k)
    ensures p < |bs| ==> Rank(bs[p].kind) >= Rank(k)
  {
    if bs == [] || Rank(bs[0].kind) >= Rank(k) then 0 else 1 + BoundPosition(bs[1..], k)
  }

  function FindBound(bs: seq<Bound>, k: Kind): (r: Option<u64>)
    ensures r.Some? ==> Bound(k, r.value) in bs
    ensures r.None? ==> forall i | 0 <= i < |bs| :: bs[i].kind != k
  {
    if bs == [] then None
    else if bs[0].kind == k then
      assert bs[0] == Bound(k, bs[0].weakest);
      Some(bs[0].weakest)
    else FindBound(bs[1..], k)
  }

  lemma {:induction false} FindBoundAt(bs: seq<Bound>, i: nat)
    requires CanonicalBounds(bs) && i < |bs|
    ensures FindBound(bs, bs[i].kind) == Some(bs[i].weakest)
  {
    var r := FindBound(bs, bs[i].kind);
    var j :| 0 <= j < |bs| && bs[j] == Bound(bs[i].kind, r.value);
  }

  function FloorFor(e: Envelope, k: Kind, original: u64): u64 {
    match FindBound(e.bounds, k)
    case Some(w) => w
    case None => original
  }

  // --------------------------------------------------------------------------
  // Permission
  // --------------------------------------------------------------------------

  // The number of original[..n] kinds whose value was changed.
  function Conceded(original: GuaranteeSet, approved: GuaranteeSet, n: nat): (c: nat)
    requires n <= |original|
    ensures c <= n
  {
    if n == 0 then 0
    else
      var p := Find(approved, original[n - 1].kind);
      var here := if p.Some? && p.value.value != original[n - 1].value then 1 else 0;
      Conceded(original, approved, n - 1) + here
  }

  predicate InsideFloor(e: Envelope, base: Guarantee, p: Guarantee) {
    var floor := FloorFor(e, base.kind, base.value);
    if base.comparator.AtLeast? then p.value >= floor else p.value <= floor
  }

  // A changed guarantee stays inside its floor; an unchanged one always does.
  predicate Tolerates(e: Envelope, base: Guarantee, p: Guarantee) {
    p.value == base.value || InsideFloor(e, base, p)
  }

  ghost predicate Permits(e: Envelope, original: GuaranteeSet, approved: GuaranteeSet) {
    if e.maxConcessions == 0 then approved == original
    else
      && Conceded(original, approved, |original|) <= e.maxConcessions
      && (forall k :: Find(original, k).Some? <==> Find(approved, k).Some?)
      && (forall k | Find(original, k).Some? && Find(approved, k).Some? ::
            Tolerates(e, Find(original, k).value, Find(approved, k).value))
  }

  // What is counted is what a delta lists.
  lemma {:induction false} ConcededIsListed(original: GuaranteeSet, approved: GuaranteeSet, reason: Reason, n: nat)
    requires n <= |original|
    ensures |DeltaUpTo(original, approved, reason, n).concessions| == Conceded(original, approved, n)
  {
    if n > 0 { ConcededIsListed(original, approved, reason, n - 1); }
  }

  lemma {:induction false} ConcededGrows(original: GuaranteeSet, approved: GuaranteeSet, m: nat, n: nat)
    requires m <= n <= |original|
    ensures Conceded(original, approved, m) <= Conceded(original, approved, n)
    decreases n
  {
    if m < n { ConcededGrows(original, approved, m, n - 1); }
  }

  // The forward pass over the original and the backward pass over the approved set.
  ghost predicate ForwardOk(e: Envelope, original: GuaranteeSet, approved: GuaranteeSet, n: nat)
    requires n <= |original|
  {
    forall i | 0 <= i < n :: Find(approved, original[i].kind).Some?
      && Tolerates(e, original[i], Find(approved, original[i].kind).value)
  }

  lemma {:induction false} PermitsByPasses(e: Envelope, original: GuaranteeSet, approved: GuaranteeSet)
    requires Canonical(original) && Canonical(approved) && e.maxConcessions > 0
    ensures Permits(e, original, approved) <==>
      && Conceded(original, approved, |original|) <= e.maxConcessions
      && ForwardOk(e, original, approved, |original|)
      && forall i | 0 <= i < |approved| :: Find(original, approved[i].kind).Some?
  {
    forall i | 0 <= i < |original| ensures Find(original, original[i].kind) == Some(original[i]) {
      FindAt(original, i);
    }
    forall i | 0 <= i < |approved| ensures Find(approved, approved[i].kind) == Some(approved[i]) {
      FindAt(approved, i);
    }
    forall k | Find(original, k).Some?
      ensures exists i :: 0 <= i < |original| && original[i] == Find(original, k).value {}
    forall k | Find(approved, k).Some?
      ensures exists i :: 0 <= i < |approved| && approved[i] == Find(approved, k).value {}
  }

  method CheckPermits(e: Envelope, original: GuaranteeSet, approved: GuaranteeSet) returns (ok: bool)
    requires Canonical(original) && Canonical(approved)
    ensures ok <==> Permits(e, original, approved)
  {
    if e.maxConcessions == 0 { return approved == original; }
    PermitsByPasses(e, original, approved);
    ok := ForwardPass(e, original, approved);
    if !ok { return; }
    ok := BackwardPass(original, approved);
  }

  method BackwardPass(original: GuaranteeSet, approved: GuaranteeSet) returns (ok: bool)
    ensures ok <==> forall i | 0 <= i < |approved| :: Find(original, approved[i].kind).Some?
  {
    for i := 0 to |approved|
      invariant forall j | 0 <= j < i :: Find(original, approved[j].kind).Some?
    {
      if Find(original, approved[i].kind).None? { return false; }
    }
    return true;
  }

  // Counts concessions and checks each against its floor, stopping at the first failure.
  method ForwardPass(e: Envelope, original: GuaranteeSet, approved: GuaranteeSet) returns (ok: bool)
    ensures ok <==>
      Conceded(original, approved, |original|) <= e.maxConcessions && ForwardOk(e, original, approved, |original|)
  {
    var concessions := 0;
    for i := 0 to |original|
      invariant concessions == Conceded(original, approved, i) <= e.maxConcessions
      invariant ForwardOk(e, original, approved, i)
    {
      var base := original[i];
      var proposed := Find(approved, base.kind);
      if proposed.None? { return false; }
      if proposed.value.value != base.value {
        concessions := concessions + 1;
        if concessions > e.maxConcessions {
          ConcededGrows(original, approved, i + 1, |original|);
          return false;
        }
        var floor := FloorFor(e, base.kind, base.value);
        if base.comparator.AtLeast? {
          if proposed.value.value < floor { return false; }
        } else {
          if proposed.value.value > floor { return false; }
        }
      }
    }
    return true;
  }

  lemma {:induction false} NothingConceded(s: GuaranteeSet, n: nat)
    requires Canonical(s) && n <= |s|
    ensures Conceded(s, s, n) == 0
  {
    hide Canonical, Find;
    if n > 0 {
      NothingConceded(s, n - 1);
      FindAt(s, n - 1);
    }
  }

  // Full service is inside every envelope.
  lemma {:induction false} PermitsItself(e: Envelope, s: GuaranteeSet)
    requires Canonical(s)
    ensures Permits(e, s, s)
  {
    NothingConceded(s, |s|);
  }

  // --------------------------------------------------------------------------
  // Composition
  // --------------------------------------------------------------------------

  // The bound that allows the larger concession.
  function Weaker(k: Kind, a: u64, b: u64): u64 {
    if ComparatorFor(k).AtLeast? then Min(a, b) else Max(a, b)
  }

  function UpsertBound(bs: seq<Bound>, b: Bound): (r: Result<seq<Bound>>) {
    if !ValidBound(b) then Err(InvalidArgument)
    else
      var p := BoundPosition(bs, b.kind);
      if p < |bs| && bs[p].kind == b.kind
      then Ok(bs[p := Bound(b.kind, Weaker(b.kind, bs[p].weakest, b.weakest))])
      else Ok(bs[..p] + [b] + bs[p..])
  }

  function UpsertAll(bs: seq<Bound>, more: seq<Bound>): (r: Result<seq<Bound>>)
    decreases |more|
  {
    if more == [] then Ok(bs)
    else
      match UpsertBound(bs, more[0])
      case Err(e) => Err(e)
      case Ok(next) => UpsertAll(next, more[1..])
  }

  // Bounds are merged kind by kind; the concession cap is the least of the three.
  // The merged vector is already in order, so the final sort leaves it alone.
  function Compose(contract: Envelope, ceiling: Envelope, cap: u32): (r: Result<Envelope>) {
    match UpsertAll([], contract.bounds)
    case Err(e) => Err(e)
    case Ok(own) =>
      match UpsertAll(own, ceiling.bounds)
      case Err(e) => Err(e)
      case Ok(merged) =>
        if !CanonicalBounds(merged) then Err(Invalid)
        else Ok(Envelope(merged, Min(cap, Min(contract.maxConcessions, ceiling.maxConcessions))))
  }

  // What a kind's bound becomes when another bound is merged in.
  function MergedBound(k: Kind, a: Option<u64>, b: Option<u64>): Option<u64> {
    match (a, b)
    case (Some(x), Some(y)) => Some(Weaker(k, x, y))
    case (Some(x), None) => Some(x)
    case (None, _) => b
  }

  lemma {:induction false} UpsertBoundCanonical(bs: seq<Bound>, b: Bound)
    requires CanonicalBounds(bs) && ValidBound(b)
    ensures UpsertBound(bs, b).Ok? && CanonicalBounds(UpsertBound(bs, b).value)
  {
    var p := BoundPosition(bs, b.kind);
    if p < |bs| && Rank(bs[p].kind) == Rank(b.kind) { RankInjective(bs[p].kind, b.kind); }
  }

  lemma {:induction false} FindBoundKeeps(bs: seq<Bound>, r: seq<Bound>, k: Kind)
    requires CanonicalBounds(bs) && CanonicalBounds(r)
    requires forall i | 0 <= i < |bs| && bs[i].kind == k :: bs[i] in r
    requires forall j | 0 <= j < |r| && r[j].kind == k :: r[j] in bs
    ensures FindBound(r, k) == FindBound(bs, k)
  {
    if FindBound(bs, k).Some? {
      var b := Bound(k, FindBound(bs, k).value);
      var i :| 0 <= i < |bs| && bs[i] == b;
      var j :| 0 <= j < |r| && r[j] == b;
      FindBoundAt(r, j);
    }
    if FindBound(r, k).Some? {
      var b := Bound(k, FindBound(r, k).value);
      var j :| 0 <= j < |r| && r[j] == b;
      var i :| 0 <= i < |bs| && bs[i] == b;
      FindBoundAt(bs, i);
    }
  }

  lemma {:induction false} UpsertBoundMerges(bs: seq<Bound>, b: Bound)
    requires CanonicalBounds(bs) && ValidBound(b)
    ensures UpsertBound(bs, b).Ok? && CanonicalBounds(UpsertBound(bs, b).value)
    ensures var r := UpsertBound(bs, b).value;
      && FindBound(r, b.kind) == MergedBound(b.kind, FindBound(bs, b.kind), Some(b.weakest))
      && forall k | k != b.kind :: FindBound(r, k) == FindBound(bs, k)
  {
    UpsertBoundCanonical(bs, b);
    var r := UpsertBound(bs, b).value;
    var p := BoundPosition(bs, b.kind);
    FindBoundAt(r, p);
    if p < |bs| && bs[p].kind == b.kind {
      FindBoundAt(bs, p);
    } else {
      assert FindBound(bs, b.kind).None?;
    }
    forall k | k != b.kind ensures FindBound(r, k) == FindBound(bs, k) {
      forall i | 0 <= i < |bs| && bs[i].kind == k ensures bs[i] in r {
        assert bs[i] == r[i] || bs[i] == r[i + 1];
      }
      assert forall j | 0 <= j < |r| && j != p :: r[j] in bs;
      FindBoundKeeps(bs, r, k);
    }
  }

  lemma {:induction false} UpsertAllMerges(bs: seq<Bound>, more: seq<Bound>)
    requires CanonicalBounds(bs) && CanonicalBounds(more)
    ensures UpsertAll(bs, more).Ok? && CanonicalBounds(UpsertAll(bs, more).value)
    ensures forall k :: FindBound(UpsertAll(bs, more).value, k)
                     == MergedBound(k, FindBound(bs, k), FindBound(more, k))
    decreases |more|
  {
    if more != [] {
      var next := UpsertBound(bs, more[0]);
      UpsertBoundMerges(bs, more[0]);
      UpsertAllMerges(next.value, more[1..]);
      TailFindBound(more);
    }
  }

  lemma {:induction false} TailFindBound(bs: seq<Bound>)
    requires CanonicalBounds(bs) && bs != []
    ensures CanonicalBounds(bs[1..])
    ensures forall k :: FindBound(bs[1..], k) == if k == bs[0].kind then None else FindBound(bs, k)
    ensures FindBound(bs, bs[0].kind) == Some(bs[0].weakest)
  {
    FindBoundAt(bs, 0);
    var t := bs[1..];
    forall k ensures FindBound(t, k) == if k == bs[0].kind then None else FindBound(bs, k) {
      if k == bs[0].kind {
        assert forall i | 0 <= i < |t| :: t[i] == bs[i + 1] && Rank(bs[0].kind) < Rank(bs[i + 1].kind);
      } else {
        FindBoundKeeps(bs, t, k);
      }
    }
  }

  // Composition never fails on canonical envelopes. On a kind bounded by both it keeps
  // the bound that allows the larger concession; the concession cap is the strictest of
  // the three.
  lemma {:induction false} ComposeMerges(contract: Envelope, ceiling: Envelope, cap: u32)
    requires CanonicalBounds(contract.bounds) && CanonicalBounds(ceiling.bounds)
    ensures Compose(contract, ceiling, cap).Ok?
    ensures var e := Compose(contract, ceiling, cap).value;
      && CanonicalBounds(e.bounds)
      && (forall k :: FindBound(e.bounds, k)
                   == MergedBound(k, FindBound(contract.bounds, k), FindBound(ceiling.bounds, k)))
      && e.maxConcessions <= cap
      && e.maxConcessions <= contract.maxConcessions
      && e.maxConcessions <= ceiling.maxConcessions
      && e.maxConcessions in {cap, contract.maxConcessions, ceiling.maxConcessions}
  {
    UpsertAllMerges([], contract.bounds);
    UpsertAllMerges(UpsertAll([], contract.bounds).value, ceiling.bounds);
  }

  // --------------------------------------------------------------------------
  // When composition is stricter than its parts
  // --------------------------------------------------------------------------

  // The composed envelope permits only what both its parts permit.
  ghost predicate Narrows(e: Envelope, contract: Envelope, ceiling: Envelope) {
    forall original, approved | Canonical(original) && Canonical(approved) && Permits(e, original, approved) ::
      Permits(contract, original, approved) && Permits(ceiling, original, approved)
  }

  // The strongest value of a kind: nothing can be conceded down to it.
  function Strongest(k: Kind): u64 {
    if ComparatorFor(k).AtLeast? then MaxValue(k) else 0
  }

  // Both bound the kind alike, or one bounds it where nothing can be conceded.
  predicate BoundsAgree(k: Kind, a: Option<u64>, b: Option<u64>) {
    match (a, b)
    case (None, None) => true
    case (Some(x), Some(y)) => x == y
    case (Some(x), None) => x == Strongest(k)
    case (None, Some(y)) => y == Strongest(k)
  }

  // Where the bounds agree, a value the merged bound tolerates is tolerated by both.
  lemma {:induction false} AgreeingTolerate(e: Envelope, contract: Envelope, ceiling: Envelope, base: Guarantee,
                                            p: Guarantee)
    requires ValidGuarantee(base) && ValidGuarantee(p) && base.kind == p.kind && Tolerates(e, base, p)
    requires var a, b := FindBound(contract.bounds, base.kind), FindBound(ceiling.bounds, base.kind);
      BoundsAgree(base.kind, a, b) && FindBound(e.bounds, base.kind) == MergedBound(base.kind, a, b)
    ensures Tolerates(contract, base, p) && Tolerates(ceiling, base, p)
  {
    hide FindBound;
  }

  lemma {:induction false} FoundIsValid(s: GuaranteeSet, k: Kind)
    requires Canonical(s) && Find(s, k).Some?
    ensures ValidGuarantee(Find(s, k).value) && Find(s, k).value.kind == k
  {
  }

  lemma {:induction false} AgreeingNarrow(e: Envelope, contract: Envelope, ceiling: Envelope, original: GuaranteeSet,
                                          approved: GuaranteeSet)
    requires Canonical(original) && Canonical(approved) && Permits(e, original, approved) && e.maxConcessions > 0
    requires e.maxConcessions <= contract.maxConcessions && e.maxConcessions <= ceiling.maxConcessions
    requires forall k ::
      FindBound(e.bounds, k) == MergedBound(k, FindBound(contract.bounds, k), FindBound(ceiling.bounds, k))
    requires forall k :: BoundsAgree(k, FindBound(contract.bounds, k), FindBound(ceiling.bounds, k))
    ensures Permits(contract, original, approved) && Permits(ceiling, original, approved)
  {
    hide FindBound, Find, Canonical, Tolerates, BoundsAgree, MergedBound, ValidGuarantee;
    forall k | Find(original, k).Some? && Find(approved, k).Some?
      ensures Tolerates(contract, Find(original, k).value, Find(approved, k).value)
      ensures Tolerates(ceiling, Find(original, k).value, Find(approved, k).value)
    {
      FoundIsValid(original, k);
      FoundIsValid(approved, k);
      AgreeingTolerate(e, contract, ceiling, Find(original, k).value, Find(approved, k).value);
    }
  }

  // One guarantee alone.
  function Single(k: Kind, v: u64): GuaranteeSet {
    [Guarantee(k, ComparatorFor(k), v, false)]
  }

  lemma {:induction false} SinglePermits(e: Envelope, k: Kind, v: u64, p: u64)
    requires v <= MaxValue(k) && p <= MaxValue(k) && v != p && e.maxConcessions > 0
    ensures Canonical(Single(k, v)) && Canonical(Single(k, p))
    ensures Permits(e, Single(k, v), Single(k, p)) <==> InsideFloor(e, Single(k, v)[0], Single(k, p)[0])
  {
    hide FindBound;
    var original, approved := Single(k, v), Single(k, p);
    assert forall j :: Find(original, j) == if j == k then Some(original[0]) else None;
    assert forall j :: Find(approved, j) == if j == k then Some(approved[0]) else None;
    assert Conceded(original, approved, 0) == 0;
    assert Conceded(original, approved, 1) == 1;
  }

  // The original and the approved value on which disagreeing bounds show.
  function Shown(k: Kind, a: Option<u64>, b: Option<u64>): (u64, u64)
    requires !BoundsAgree(k, a, b)
  {
    match (a, b)
    case (Some(x), Some(y)) => if ComparatorFor(k).AtLeast? then (Max(x, y), Min(x, y)) else (Min(x, y), Max(x, y))
    case (Some(x), None) => (Strongest(k), x)
    case (None, Some(y)) => (Strongest(k), y)
  }

  // Where the bounds of a kind disagree, the composition permits what a part does not.
  lemma {:induction false} DisagreeingWiden(e: Envelope, contract: Envelope, ceiling: Envelope, k: Kind)
    requires CanonicalBounds(contract.bounds) && CanonicalBounds(ceiling.bounds)
    requires e.maxConcessions > 0 && contract.maxConcessions > 0 && ceiling.maxConcessions > 0
    requires var a, b := FindBound(contract.bounds, k), FindBound(ceiling.bounds, k);
      !BoundsAgree(k, a, b) && FindBound(e.bounds, k) == MergedBound(k, a, b)
    ensures !Narrows(e, contract, ceiling)
  {
    hide FindBound, CanonicalBounds, Permits, Canonical;
    var a, b := FindBound(contract.bounds, k), FindBound(ceiling.bounds, k);
    BoundIsValid(contract.bounds, k);
    BoundIsValid(ceiling.bounds, k);
    var (v, p) := Shown(k, a, b);
    SinglePermits(e, k, v, p);
    SinglePermits(contract, k, v, p);
    SinglePermits(ceiling, k, v, p);
  }

  lemma {:induction false} BoundIsValid(bs: seq<Bound>, k: Kind)
    requires CanonicalBounds(bs)
    ensures FindBound(bs, k).Some? ==> FindBound(bs, k).value <= MaxValue(k)
  {
    hide FindBound;
  }

  // The composed envelope permits only what both its parts permit if and only if it
  // permits no concession at all or the two bound every kind alike.
  lemma {:induction false} ComposeNarrowsIff(contract: Envelope, ceiling: Envelope, cap: u32)
    requires CanonicalBounds(contract.bounds) && CanonicalBounds(ceiling.bounds)
    ensures var e := Compose(contract, ceiling, cap);
      && e.Ok?
      && (Narrows(e.value, contract, ceiling) <==>
            (|| Min(cap, Min(contract.maxConcessions, ceiling.maxConcessions)) == 0
             || forall k :: BoundsAgree(k, FindBound(contract.bounds, k), FindBound(ceiling.bounds, k))))
  {
    hide FindBound, CanonicalBounds, Canonical, BoundsAgree, MergedBound, Conceded, Tolerates, Find;
    ComposeMerges(contract, ceiling, cap);
    var e := Compose(contract, ceiling, cap).value;
    assert e.maxConcessions == Min(cap, Min(contract.maxConcessions, ceiling.maxConcessions));
    if e.maxConcessions == 0 {
      forall original, approved | Canonical(original) && Canonical(approved) && Permits(e, original, approved)
        ensures Permits(contract, original, approved) && Permits(ceiling, original, approved)
      {
        PermitsItself(contract, original);
        PermitsItself(ceiling, original);
      }
    } else if forall k :: BoundsAgree(k, FindBound(contract.bounds, k), FindBound(ceiling.bounds, k)) {
      forall original, approved | Canonical(original) && Canonical(approved) && Permits(e, original, approved)
        ensures Permits(contract, original, approved) && Permits(ceiling, original, approved)
      {
        AgreeingNarrow(e, contract, ceiling, original, approved);
      }
    } else {
      var k :| !BoundsAgree(k, FindBound(contract.bounds, k), FindBound(ceiling.bounds, k));
      DisagreeingWiden(e, contract, ceiling, k);
    }
  }

  // A contract that may go down to 10 under a ceiling that may go down to 5: taking a
  // bandwidth of 20 down to 7 is permitted by the composition and not by the contract.
  lemma {:induction false} CompositionLoosens()
    ensures var contract, ceiling := Envelope([Bound(Bandwidth, 10)], 1), Envelope([Bound(Bandwidth, 5)], 1);
      && CanonicalBounds(contract.bounds) && CanonicalBounds(ceiling.bounds) && Compose(contract, ceiling, 1).Ok?
      && Permits(Compose(contract, ceiling, 1).value, Single(Bandwidth, 20), Single(Bandwidth, 7))
      && !Permits(contract, Single(Bandwidth, 20), Single(Bandwidth, 7))
  {
    hide Permits;
    var contract, ceiling := Envelope([Bound(Bandwidth, 10)], 1), Envelope([Bound(Bandwidth, 5)], 1);
    ComposeMerges(contract, ceiling, 1);
    SinglePermits(contract, Bandwidth, 20, 7);
    SinglePermits(Compose(contract, ceiling, 1).value, Bandwidth, 20, 7);
  }
}
