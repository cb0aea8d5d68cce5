// The guarantee algebra: canonical sets, weakening, deltas and concession
// envelopes (src/domain/guarantee.cpp).
//
// A guarantee set is the sorted vector the runtime stores. Its meaning is the
// partial map `Find`; the specifications below are stated through it.
module Guarantees {
  import opened Core

  datatype Kind = Availability | Bandwidth | LatencyP99 | PathDiversity | Durability | Reachability
  datatype Comparator = AtLeast | AtMost
  datatype Guarantee = Guarantee(kind: Kind, comparator: Comparator, value: u64, hard: bool)

  const PPM_SCALE: u64 := 1_000_000
  const MAX_BANDWIDTH_KBPS: u64 := 1_000_000_000
  const MAX_LATENCY_US: u64 := 3_600_000_000
  const MAX_PATH_DIVERSITY: u64 := 4096
  const MAX_DURABILITY_LEVEL: u64 := 4

  // The wire number of a kind, which is also its canonical position.
  function Rank(k: Kind): nat {
    match k
    case Availability => 1
    case Bandwidth => 2
    case LatencyP99 => 3
    case PathDiversity => 4
    case Durability => 5
    case Reachability => 6
  }

  function ComparatorFor(k: Kind): Comparator {
    if k.LatencyP99? then AtMost else AtLeast
  }

  function MaxValue(k: Kind): u64 {
    match k
    case Availability => PPM_SCALE
    case Bandwidth => MAX_BANDWIDTH_KBPS
    case LatencyP99 => MAX_LATENCY_US
    case PathDiversity => MAX_PATH_DIVERSITY
    case Durability => MAX_DURABILITY_LEVEL
    case Reachability => PPM_SCALE
  }

  predicate ValidGuarantee(g: Guarantee) {
    g.comparator == ComparatorFor(g.kind) && g.value <= MaxValue(g.kind)
  }

  type GuaranteeSet = seq<Guarantee>

  // What GuaranteeSet::validate accepts: every guarantee in its domain, kinds ascending.
  predicate Canonical(s: GuaranteeSet) {
    && (forall i | 0 <= i < |s| :: ValidGuarantee(s[i]))
    && (forall i, j | 0 <= i < j < |s| :: Rank(s[i].kind) < Rank(s[j].kind))
  }

  // The first position whose kind is not below k (std::lower_bound).
  function LowerBound(s: GuaranteeSet, k: Kind): (p: nat)
    ensures p <= |s|
    ensures forall i | 0 <= i < p :: Rank(s[i].kind) < Rank(k)
    ensures p < |s| ==> Rank(s[p].kind) >= Rank(k)
  {
    if s == [] || Rank(s[0].kind) >= Rank(k) then 0 else 1 + LowerBound(s[1..], k)
  }

  function Find(s: GuaranteeSet, k: Kind): (r: Option<Guarantee>)
    ensures r.Some? ==> r.value in s && r.value.kind == k
    ensures r.None? ==> forall i | 0 <= i < |s| :: s[i].kind != k
  {
    if s == [] then None else if s[0].kind == k then Some(s[0]) else Find(s[1..], k)
  }

  lemma {:induction false} FindAt(s: GuaranteeSet, i: nat)
    requires Canonical(s) && i < |s|
    ensures Find(s, s[i].kind) == Some(s[i])
  {
    var r := Find(s, s[i].kind);
    var j :| 0 <= j < |s| && s[j] == r.value;
  }

  // The binary search of GuaranteeSet::find agrees with the scan.
  lemma {:induction false} LowerBoundFinds(s: GuaranteeSet, k: Kind)
    requires Canonical(s)
    ensures var p := LowerBound(s, k);
            Find(s, k) == if p < |s| && s[p].kind == k then Some(s[p]) else None
  {
    var p := LowerBound(s, k);
    if Find(s, k).Some? {
      var i :| 0 <= i < |s| && s[i] == Find(s, k).value;
      assert p <= i;
    }
  }

  function Insert(s: GuaranteeSet, g: Guarantee): (r: Result<GuaranteeSet>) {
    if !ValidGuarantee(g) then Err(InvalidArgument)
    else
      var p := LowerBound(s, g.kind);
      if p < |s| && s[p].kind == g.kind then Err(AlreadyExists)
      else Ok(s[..p] + [g] + s[p..])
  }

  function Upsert(s: GuaranteeSet, g: Guarantee): (r: Result<GuaranteeSet>) {
    if !ValidGuarantee(g) then Err(InvalidArgument)
    else
      var p := LowerBound(s, g.kind);
      if p < |s| && s[p].kind == g.kind then Ok(s[p := g])
      else Ok(s[..p] + [g] + s[p..])
  }

  lemma {:induction false} RankInjective(a: Kind, b: Kind)
    requires Rank(a) == Rank(b)
    ensures a == b
  {
  }

  lemma {:induction false} UpsertCanonical(s: GuaranteeSet, g: Guarantee)
    requires Canonical(s) && ValidGuarantee(g)
    ensures Upsert(s, g).Ok? && Canonical(Upsert(s, g).value)
  {
    var p := LowerBound(s, g.kind);
    if p < |s| && Rank(s[p].kind) == Rank(g.kind) { RankInjective(s[p].kind, g.kind); }
  }

  lemma {:induction false} FindKeeps(s: GuaranteeSet, r: GuaranteeSet, k: Kind)
    requires Canonical(s) && Canonical(r)
    requires forall i | 0 <= i < |s| && s[i].kind == k :: s[i] in r
    requires forall j | 0 <= j < |r| && r[j].kind == k :: r[j] in s
    ensures Find(r, k) == Find(s, k)
  {
    if Find(s, k).Some? {
      var i :| 0 <= i < |s| && s[i] == Find(s, k).value;
      var j :| 0 <= j < |r| && r[j] == s[i];
      FindAt(r, j);
    }
    if Find(r, k).Some? {
      var j :| 0 <= j < |r| && r[j] == Find(r, k).value;
      var i :| 0 <= i < |s| && s[i] == r[j];
      FindAt(s, i);
    }
  }

  // An upsert touches no guarantee of another kind.
  lemma {:induction false} UpsertElements(s: GuaranteeSet, g: Guarantee)
    requires Upsert(s, g).Ok?
    ensures var r := Upsert(s, g).value;
      && (exists p | 0 <= p < |r| :: r[p] == g)
      && (forall i | 0 <= i < |s| && s[i].kind != g.kind :: s[i] in r)
      && (forall j | 0 <= j < |r| && r[j].kind != g.kind :: r[j] in s)
  {
    var r, p := Upsert(s, g).value, LowerBound(s, g.kind);
    assert r[p] == g;
    forall i | 0 <= i < |s| && s[i].kind != g.kind ensures s[i] in r {
      assert s[i] == r[i] || s[i] == r[i + 1];
    }
  }

  // Upsert keeps the set canonical, stores g under its kind and touches nothing else.
  lemma {:induction false} UpsertStores(s: GuaranteeSet, g: Guarantee)
    requires Canonical(s) && ValidGuarantee(g)
    ensures Upsert(s, g).Ok? && Canonical(Upsert(s, g).value)
    ensures forall k :: Find(Upsert(s, g).value, k) == if k == g.kind then Some(g) else Find(s, k)
  {
    hide Find, Canonical;
    UpsertCanonical(s, g);
    UpsertElements(s, g);
    var r := Upsert(s, g).value;
    var p :| 0 <= p < |r| && r[p] == g;
    FindAt(r, p);
    forall k | k != g.kind ensures Find(r, k) == Find(s, k) {
      FindKeeps(s, r, k);
    }
  }

  // Canonical sets are equal exactly when they mean the same map.
  lemma {:induction false} Extensional(a: GuaranteeSet, b: GuaranteeSet)
    requires Canonical(a) && Canonical(b)
    requires forall k :: Find(a, k) == Find(b, k)
    ensures a == b
  {
    if a == [] {
      if b != [] { FindAt(b, 0); }
    } else if b == [] {
      FindAt(a, 0);
    } else {
      FindAt(a, 0);
      FindAt(b, 0);
      var i :| 0 <= i < |b| && b[i] == a[0];
      var j :| 0 <= j < |a| && a[j] == b[0];
      assert a[0] == b[0];
      TailFind(a);
      TailFind(b);
      Extensional(a[1..], b[1..]);
    }
  }

  lemma {:induction false} TailFind(s: GuaranteeSet)
    requires Canonical(s) && s != []
    ensures Canonical(s[1..])
    ensures forall k :: Find(s[1..], k) == if k == s[0].kind then None else Find(s, k)
  {
    var t := s[1..];
    forall k ensures Find(t, k) == if k == s[0].kind then None else Find(s, k) {
      if Find(t, k).Some? {
        var i :| 0 <= i < |t| && t[i] == Find(t, k).value;
        FindAt(s, i + 1);
      }
      if Find(s, k).Some? && k != s[0].kind {
        var i :| 0 <= i < |s| && s[i] == Find(s, k).value;
        FindAt(t, i - 1);
      }
    }
  }

  // --------------------------------------------------------------------------
  // Weakening
  // --------------------------------------------------------------------------

  datatype WeakeningResult = WeakensOrEquals | Strengthens | AddsGuarantee | InvalidSets

  // p promises no more than b.
  predicate NoStronger(b: Guarantee, p: Guarantee) {
    && p.comparator == b.comparator
    && (p.hard ==> b.hard)
    && (if b.comparator.AtLeast? then p.value <= b.value else p.value >= b.value)
  }

  // The candidate adds no kind and is nowhere stronger than the original.
  ghost predicate Weakens(original: GuaranteeSet, candidate: GuaranteeSet) {
    && Canonical(original) && Canonical(candidate)
    && forall k | Find(candidate, k).Some? ::
         Find(original, k).Some? && NoStronger(Find(original, k).value, Find(candidate, k).value)
  }

  method ClassifyWeakening(original: GuaranteeSet, candidate: GuaranteeSet) returns (r: WeakeningResult)
    ensures r == WeakensOrEquals <==> Weakens(original, candidate)
    ensures r == InvalidSets <==> !Canonical(original) || !Canonical(candidate)
    ensures r == AddsGuarantee ==> exists k :: Find(candidate, k).Some? && Find(original, k).None?
  {
    hide Find;
    if !Canonical(original) || !Canonical(candidate) { return InvalidSets; }
    for i := 0 to |candidate|
      invariant forall j | 0 <= j < i :: Find(original, candidate[j].kind).Some?
                  && NoStronger(Find(original, candidate[j].kind).value, candidate[j])
    {
      var proposed := candidate[i];
      FindAt(candidate, i);
      var base := Find(original, proposed.kind);
      if base.None? { return AddsGuarantee; }
      if proposed.hard && !base.value.hard { return Strengthens; }
      if base.value.comparator.AtLeast? {
        if proposed.value > base.value.value { return Strengthens; }
      } else {
        if proposed.value < base.value.value { return Strengthens; }
      }
    }
    return WeakensOrEquals;
  }

  // Weakening is a partial order on canonical sets.
  lemma {:induction false} WeakensReflexive(s: GuaranteeSet)
    requires Canonical(s)
    ensures Weakens(s, s)
  {
  }

  lemma {:induction false} WeakensTransitive(a: GuaranteeSet, b: GuaranteeSet, c: GuaranteeSet)
    requires Weakens(a, b) && Weakens(b, c)
    ensures Weakens(a, c)
  {
  }

  lemma {:induction false} WeakensAntisymmetric(a: GuaranteeSet, b: GuaranteeSet)
    requires Weakens(a, b) && Weakens(b, a)
    ensures a == b
  {
    Extensional(a, b);
  }

  // --------------------------------------------------------------------------
  // Deltas
  // --------------------------------------------------------------------------

  datatype Concession = Concession(kind: Kind, originalValue: u64, approvedValue: u64)
  datatype Withdrawal = Withdrawal(kind: Kind, originalValue: u64, reason: Reason)
  datatype Delta = Delta(concessions: seq<Concession>, withdrawals: seq<Withdrawal>) {
    predicate Empty() { concessions == [] && withdrawals == [] }
  }

  // The loop of compute_delta over original[..n].
  function DeltaUpTo(original: GuaranteeSet, approved: GuaranteeSet, reason: Reason, n: nat): (d: Delta)
    requires n <= |original|
  {
    if n == 0 then Delta([], [])
    else
      var d := DeltaUpTo(original, approved, reason, n - 1);
      var base := original[n - 1];
      match Find(approved, base.kind)
      case None => d.(withdrawals := d.withdrawals + [Withdrawal(base.kind, base.value, reason)])
      case Some(p) =>
        if p.value != base.value
        then d.(concessions := d.concessions + [Concession(base.kind, base.value, p.value)])
        else d
  }

  function DeltaOf(original: GuaranteeSet, approved: GuaranteeSet, reason: Reason): Delta {
    DeltaUpTo(original, approved, reason, |original|)
  }

  method ComputeDelta(original: GuaranteeSet, approved: GuaranteeSet, reason: Reason) returns (r: Result<Delta>)
    ensures r.Ok? <==> Weakens(original, approved)
    ensures r == if r.Ok? then Ok(DeltaOf(original, approved, reason)) else Err(Invalid)
  {
    var relation := ClassifyWeakening(original, approved);
    if relation != WeakensOrEquals { return Err(Invalid); }
    var delta := Delta([], []);
    for i := 0 to |original|
      invariant delta == DeltaUpTo(original, approved, reason, i)
    {
      var base := original[i];
      var proposed := Find(approved, base.kind);
      if proposed.None? {
        delta := delta.(withdrawals := delta.withdrawals + [Withdrawal(base.kind, base.value, reason)]);
      } else if proposed.value.value != base.value {
        delta := delta.(concessions := delta.concessions + [Concession(base.kind, base.value, proposed.value.value)]);
      }
    }
    return Ok(delta);
  }

  // The delta records every difference in value and nothing else.
  lemma {:induction false} DeltaIsExact(original: GuaranteeSet, approved: GuaranteeSet, reason: Reason, n: nat)
    requires n <= |original|
    ensures var d := DeltaUpTo(original, approved, reason, n);
      && (forall k, v, w :: Concession(k, v, w) in d.concessions <==>
            exists i | 0 <= i < n :: original[i].kind == k && original[i].value == v
              && Find(approved, k).Some? && Find(approved, k).value.value == w && w != v)
      && (forall k, v, why :: Withdrawal(k, v, why) in d.withdrawals <==>
            why == reason
            && exists i | 0 <= i < n :: original[i].kind == k && original[i].value == v && Find(approved, k).None?)
  {
    hide Find;
    if n > 0 {
      DeltaIsExact(original, approved, reason, n - 1);
    }
  }

  // Equal but for hardness: the difference a delta does not record.
  ghost predicate SameValues(a: GuaranteeSet, b: GuaranteeSet) {
    forall k :: match (Find(a, k), Find(b, k))
      case (None, None) => true
      case (Some(x), Some(y)) => x.value == y.value
      case _ => false
  }

  lemma {:induction false} EmptyDeltaUpTo(original: GuaranteeSet, approved: GuaranteeSet, reason: Reason, n: nat)
    requires n <= |original|
    ensures DeltaUpTo(original, approved, reason, n).Empty() <==>
      forall i | 0 <= i < n :: Find(approved, original[i].kind).Some?
        && Find(approved, original[i].kind).value.value == original[i].value
  {
    if n > 0 {
      EmptyDeltaUpTo(original, approved, reason, n - 1);
    }
  }

  // An empty delta means the same values on the same kinds.
  lemma {:induction false} EmptyDeltaMeansSameValues(original: GuaranteeSet, approved: GuaranteeSet, reason: Reason)
    requires Weakens(original, approved)
    ensures DeltaOf(original, approved, reason).Empty() <==> SameValues(original, approved)
  {
    EmptyDeltaUpTo(original, approved, reason, |original|);
    forall i | 0 <= i < |original| ensures Find(original, original[i].kind) == Some(original[i]) {
      FindAt(original, i);
    }
    forall k | Find(original, k).Some?
      ensures exists i :: 0 <= i < |original| && original[i] == Find(original, k).value {
    }
  }

  // A delta is not a complete account: softening a hard guarantee leaves it empty.
  lemma {:induction false} SofteningIsInvisible(reason: Reason)
    ensures exists o: GuaranteeSet, a: GuaranteeSet ::
      Weakens(o, a) && DeltaOf(o, a, reason).Empty() && o != a
  {
    var o := [Guarantee(Durability, AtLeast, 1, true)];
    var a := [Guarantee(Durability, AtLeast, 1, false)];
    assert Weakens(o, a);
    assert SameValues(o, a);
    EmptyDeltaMeansSameValues(o, a, reason);
  }

  ghost predicate SameHardness(a: GuaranteeSet, b: GuaranteeSet) {
    forall k | Find(a, k).Some? && Find(b, k).Some? :: Find(a, k).value.hard == Find(b, k).value.hard
  }

  lemma {:induction false} SameContents(a: GuaranteeSet, b: GuaranteeSet)
    requires Canonical(a) && Canonical(b) && SameValues(a, b) && SameHardness(a, b)
    ensures a == b
  {
    forall k ensures Find(a, k) == Find(b, k) {
      assert Find(a, k).Some? ==> ValidGuarantee(Find(a, k).value);
      assert Find(b, k).Some? ==> ValidGuarantee(Find(b, k).value);
    }
    Extensional(a, b);
  }

  // An empty delta means equality exactly when hardness was kept.
  lemma {:induction false} EmptyDeltaMeansEqual(original: GuaranteeSet, approved: GuaranteeSet, reason: Reason)
    requires Weakens(original, approved)
    ensures original == approved <==> DeltaOf(original, approved, reason).Empty() && SameHardness(original, approved)
  {
    EmptyDeltaMeansSameValues(original, approved, reason);
    if SameValues(original, approved) && SameHardness(original, approved) {
      SameContents(original, approved);
    }
  }
}
