// Evidence aggregation and the capability it proves (src/domain/evidence.cpp).
module Evidence {
  import opened Core
  import opened Guarantees

  datatype EvidenceKind =
    | FabricTopology | AggregateBandwidth | RoundTripLatency | PathDiversityObserved
    | ReachabilityObserved | NodeCoverage | SynchronousDurability

  datatype EvidenceState = Known | Unknown | Stale | Conflict | InvalidEvidence | UnsupportedEvidence

  datatype Topology = FullMesh | PartialMesh | Partitioned | Isolated

  datatype EvidenceItem = EvidenceItem(
    id: u64, publisher: u64, publisherBoot: u64, generation: u64,
    kind: EvidenceKind, scope: u64, state: EvidenceState, value: u64, observedTick: u64)

  function Severity(s: EvidenceState): nat {
    match s
    case Known => 0
    case Stale => 1
    case Unknown => 2
    case UnsupportedEvidence => 3
    case Conflict => 4
    case InvalidEvidence => 5
  }

  function MaxEvidence(k: EvidenceKind): u64 {
    match k
    case FabricTopology => 4
    case AggregateBandwidth => MAX_BANDWIDTH_KBPS
    case RoundTripLatency => MAX_LATENCY_US
    case PathDiversityObserved => MAX_PATH_DIVERSITY
    case ReachabilityObserved => PPM_SCALE
    case NodeCoverage => PPM_SCALE
    case SynchronousDurability => 1
  }

  // --------------------------------------------------------------------------
  // One (scope, kind) group
  // --------------------------------------------------------------------------

  predicate InGroup(item: EvidenceItem, scope: u64, kind: EvidenceKind) {
    item.scope == scope && item.kind == kind
  }

  datatype GroupScan = GroupScan(worst: EvidenceState, present: bool, agreed: Option<u64>)

  function ScanItem(g: GroupScan, item: EvidenceItem): GroupScan {
    if item.state.Known? && g.agreed.Some? && g.agreed.value != item.value
    then g.(present := true, worst := Conflict)
    else
      GroupScan(
        if Severity(item.state) > Severity(g.worst) then item.state else g.worst,
        true,
        if item.state.Known? && g.agreed.None? then Some(item.value) else g.agreed)
  }

  function ScanUpTo(items: seq<EvidenceItem>, scope: u64, kind: EvidenceKind, n: nat): GroupScan
    requires n <= |items|
  {
    if n == 0 then GroupScan(Known, false, None)
    else
      var g := ScanUpTo(items, scope, kind, n - 1);
      if InGroup(items[n - 1], scope, kind) then ScanItem(g, items[n - 1]) else g
  }

  function StateFor(items: seq<EvidenceItem>, scope: u64, kind: EvidenceKind): EvidenceState {
    var g := ScanUpTo(items, scope, kind, |items|);
    if g.present then g.worst else Unknown
  }

  function NewestUpTo(items: seq<EvidenceItem>, scope: u64, kind: EvidenceKind, n: nat): u64
    requires n <= |items|
  {
    if n == 0 then 0
    else
      var newest := NewestUpTo(items, scope, kind, n - 1);
      if InGroup(items[n - 1], scope, kind) && items[n - 1].observedTick > newest
      then items[n - 1].observedTick else newest
  }

  function NewestTickFor(items: seq<EvidenceItem>, scope: u64, kind: EvidenceKind): u64 {
    NewestUpTo(items, scope, kind, |items|)
  }

  // t is the tick of some item of the group, and no item of it is newer.
  ghost predicate IsNewest(items: seq<EvidenceItem>, scope: u64, kind: EvidenceKind, n: nat, t: u64)
    requires n <= |items|
  {
    && (exists i | 0 <= i < n :: InGroup(items[i], scope, kind) && items[i].observedTick == t)
    && (forall i | 0 <= i < n && InGroup(items[i], scope, kind) :: items[i].observedTick <= t)
  }

  lemma {:induction false} NewestMeaning(items: seq<EvidenceItem>, scope: u64, kind: EvidenceKind, n: nat)
    requires n <= |items|
    ensures (exists i | 0 <= i < n :: InGroup(items[i], scope, kind)) ==>
      IsNewest(items, scope, kind, n, NewestUpTo(items, scope, kind, n))
    ensures (forall i | 0 <= i < n :: !InGroup(items[i], scope, kind)) ==> NewestUpTo(items, scope, kind, n) == 0
  {
    if n > 0 {
      NewestMeaning(items, scope, kind, n - 1);
      var before := NewestUpTo(items, scope, kind, n - 1);
      if InGroup(items[n - 1], scope, kind) && forall i | 0 <= i < n - 1 :: !InGroup(items[i], scope, kind) {
        assert items[n - 1].observedTick == NewestUpTo(items, scope, kind, n);
      }
    }
  }

  function ValueFor(items: seq<EvidenceItem>, scope: u64, kind: EvidenceKind): Option<u64> {
    if StateFor(items, scope, kind).Known? then ScanUpTo(items, scope, kind, |items|).agreed else None
  }

  // Every item of the group is Known and reports v.
  ghost predicate Unanimous(items: seq<EvidenceItem>, scope: u64, kind: EvidenceKind, v: u64) {
    && (exists i | 0 <= i < |items| :: InGroup(items[i], scope, kind))
    && (forall i | 0 <= i < |items| && InGroup(items[i], scope, kind) ::
          items[i].state.Known? && items[i].value == v)
  }

  ghost predicate UnanimousUpTo(items: seq<EvidenceItem>, scope: u64, kind: EvidenceKind, n: nat, v: Option<u64>)
    requires n <= |items|
  {
    forall i | 0 <= i < n && InGroup(items[i], scope, kind) :: items[i].state.Known? && v == Some(items[i].value)
  }

  lemma {:induction false} ScanMeaning(items: seq<EvidenceItem>, scope: u64, kind: EvidenceKind, n: nat)
    requires n <= |items|
    ensures var g := ScanUpTo(items, scope, kind, n);
      && (g.present <==> exists i | 0 <= i < n :: InGroup(items[i], scope, kind))
      && (g.worst.Known? <==> UnanimousUpTo(items, scope, kind, n, g.agreed))
      && (g.agreed.Some? ==> exists i | 0 <= i < n ::
            InGroup(items[i], scope, kind) && items[i].state.Known? && items[i].value == g.agreed.value)
      && (g.agreed.None? ==> forall i | 0 <= i < n && InGroup(items[i], scope, kind) :: !items[i].state.Known?)
  {
    if n > 0 {
      ScanMeaning(items, scope, kind, n - 1);
    }
  }

  // A group is Known exactly when it is non-empty and unanimous.
  lemma {:induction false} KnownMeansUnanimous(items: seq<EvidenceItem>, scope: u64, kind: EvidenceKind)
    ensures StateFor(items, scope, kind).Known? <==> exists v :: Unanimous(items, scope, kind, v)
    ensures StateFor(items, scope, kind).Known? ==>
      ValueFor(items, scope, kind).Some? && Unanimous(items, scope, kind, ValueFor(items, scope, kind).value)
  {
    ScanMeaning(items, scope, kind, |items|);
    var g := ScanUpTo(items, scope, kind, |items|);
    if StateFor(items, scope, kind).Known? {
      assert Unanimous(items, scope, kind, g.agreed.value);
    }
    if v :| Unanimous(items, scope, kind, v) {
      var i :| 0 <= i < |items| && InGroup(items[i], scope, kind);
      assert UnanimousUpTo(items, scope, kind, |items|, g.agreed);
    }
  }

  method AggregateState(items: seq<EvidenceItem>, scope: u64, kind: EvidenceKind) returns (state: EvidenceState)
    ensures state == StateFor(items, scope, kind)
    ensures state.Known? <==> exists v :: Unanimous(items, scope, kind, v)
  {
    KnownMeansUnanimous(items, scope, kind);
    var worst, present, agreed := Known, false, None;
    for i := 0 to |items|
      invariant GroupScan(worst, present, agreed) == ScanUpTo(items, scope, kind, i)
    {
      var item := items[i];
      if item.scope != scope || item.kind != kind { continue; }
      present := true;
      if item.state.Known? {
        if agreed.None? {
          agreed := Some(item.value);
        } else if agreed.value != item.value {
          worst := Conflict;
          continue;
        }
      }
      if Severity(item.state) > Severity(worst) { worst := item.state; }
    }
    return if present then worst else Unknown;
  }

  // --------------------------------------------------------------------------
  // Capability
  // --------------------------------------------------------------------------

  datatype FreshnessWindow = FreshnessWindow(now: u64, budgetTicks: u64, enforced: bool)

  predicate Fresh(w: FreshnessWindow, observed: u64) {
    !w.enforced || (observed <= w.now && w.now - observed <= w.budgetTicks)
  }

  datatype Capability = Capability(
    scope: u64, generation: u64, state: EvidenceState, topology: Topology,
    bandwidth: u64, rtt: u64, pathDiversity: u32, reachablePpm: u32, nodeCoveragePpm: u32,
    synchronousDurability: bool, observedTick: u64)

  predicate Usable(c: Capability) {
    c.state.Known?
  }

  const FIELDS: seq<EvidenceKind> := [
    FabricTopology, AggregateBandwidth, RoundTripLatency, PathDiversityObserved,
    ReachabilityObserved, NodeCoverage, SynchronousDurability]

  function TopologyOf(v: u64): Option<Topology> {
    if v == 1 then Some(FullMesh) else if v == 2 then Some(PartialMesh)
    else if v == 3 then Some(Partitioned) else if v == 4 then Some(Isolated) else None
  }

  function Low32(v: u64): u32 {
    v % 0x1_0000_0000
  }

  // Stores one agreed value; only an undefined topology class is refused.
  function StoreField(c: Capability, kind: EvidenceKind, v: u64): Option<Capability> {
    match kind
    case FabricTopology =>
      (match TopologyOf(v) case Some(t) => Some(c.(topology := t)) case None => None)
    case AggregateBandwidth => Some(c.(bandwidth := v))
    case RoundTripLatency => Some(c.(rtt := v))
    case PathDiversityObserved => Some(c.(pathDiversity := Low32(v)))
    case ReachabilityObserved => Some(c.(reachablePpm := Low32(v)))
    case NodeCoverage => Some(c.(nodeCoveragePpm := Low32(v)))
    case SynchronousDurability => Some(c.(synchronousDurability := v != 0))
  }

  function Worse(a: EvidenceState, b: EvidenceState): EvidenceState {
    if Severity(b) > Severity(a) then b else a
  }

  // One pass of the field loop; `state` accumulates the worst state seen so far.
  function FieldStep(c: Capability, items: seq<EvidenceItem>, kind: EvidenceKind,
                     w: FreshnessWindow): Option<Capability> {
    var state := StateFor(items, c.scope, kind);
    var newest := NewestTickFor(items, c.scope, kind);
    if !state.Known? then Some(c.(state := Worse(c.state, state)))
    else if !Fresh(w, newest) then Some(c.(state := Worse(c.state, EvidenceState.Stale)))
    else
      match ValueFor(items, c.scope, kind)
      case None => Some(c.(state := Worse(c.state, Unknown)))
      case Some(v) =>
        match StoreField(c, kind, v)
        case None => None
        case Some(stored) => Some(stored.(observedTick := Max(stored.observedTick, newest)))
  }

  function FieldsUpTo(items: seq<EvidenceItem>, scope: u64, generation: u64, w: FreshnessWindow,
                      n: nat): Option<Capability>
    requires n <= |FIELDS|
  {
    if n == 0 then Some(Capability(scope, generation, Known, FullMesh, 0, 0, 0, 0, 0, false, 0))
    else
      match FieldsUpTo(items, scope, generation, w, n - 1)
      case None => None
      case Some(c) => FieldStep(c, items, FIELDS[n - 1], w)
  }

  function Derive(items: seq<EvidenceItem>, scope: u64, generation: u64, w: FreshnessWindow): Result<Capability> {
    if scope == 0 || generation == 0 then Err(InvalidArgument)
    else
      match FieldsUpTo(items, scope, generation, w, |FIELDS|)
      case None => Err(Invalid)
      case Some(c) => Ok(c)
  }

  method DeriveCapability(items: seq<EvidenceItem>, scope: u64, generation: u64, w: FreshnessWindow)
    returns (r: Result<Capability>)
    ensures r == Derive(items, scope, generation, w)
  {
    if scope == 0 || generation == 0 { return Err(InvalidArgument); }
    var snapshot := Capability(scope, generation, Known, FullMesh, 0, 0, 0, 0, 0, false, 0);
    for n := 0 to |FIELDS|
      invariant FieldsUpTo(items, scope, generation, w, n) == Some(snapshot)
      invariant snapshot.scope == scope
    {
      var kind := FIELDS[n];
      assert FieldsUpTo(items, scope, generation, w, n + 1) == FieldStep(snapshot, items, kind, w);
      var state := AggregateState(items, scope, kind);
      var newest := NewestTickFor(items, scope, kind);
      if !state.Known? {
        snapshot := snapshot.(state := Worse(snapshot.state, state));
      } else if !Fresh(w, newest) {
        snapshot := snapshot.(state := Worse(snapshot.state, EvidenceState.Stale));
      } else {
        var v := ValueFor(items, scope, kind);
        if v.None? {
          snapshot := snapshot.(state := Worse(snapshot.state, Unknown));
        } else {
          var stored := StoreField(snapshot, kind, v.value);
          if stored.None? {
            FieldsFail(items, scope, generation, w, n + 1);
            return Err(Invalid);
          }
          snapshot := stored.value.(observedTick := Max(stored.value.observedTick, newest));
        }
      }
    }
    return Ok(snapshot);
  }

  lemma {:induction false} FieldsFail(items: seq<EvidenceItem>, scope: u64, generation: u64, w: FreshnessWindow, n: nat)
    requires n <= |FIELDS| && FieldsUpTo(items, scope, generation, w, n).None?
    ensures FieldsUpTo(items, scope, generation, w, |FIELDS|).None?
    decreases |FIELDS| - n
  {
    if n < |FIELDS| { FieldsFail(items, scope, generation, w, n + 1); }
  }

  // t is not ahead of the clock and at most the budget behind it, where that is enforced.
  predicate Recent(w: FreshnessWindow, t: u64) {
    w.enforced ==> t <= w.now <= t + w.budgetTicks
  }

  // The group proves a current value: unanimous, and its newest item is recent.
  ghost predicate Proves(items: seq<EvidenceItem>, scope: u64, kind: EvidenceKind, w: FreshnessWindow, v: u64) {
    Unanimous(items, scope, kind, v) && exists t :: IsNewest(items, scope, kind, |items|, t) && Recent(w, t)
  }

  lemma {:induction false} OneNewest(items: seq<EvidenceItem>, scope: u64, kind: EvidenceKind, n: nat, t: u64, u: u64)
    requires n <= |items| && IsNewest(items, scope, kind, n, t) && IsNewest(items, scope, kind, n, u)
    ensures t == u
  {
    var i :| 0 <= i < n && InGroup(items[i], scope, kind) && items[i].observedTick == t;
    var j :| 0 <= j < n && InGroup(items[j], scope, kind) && items[j].observedTick == u;
    assert items[i].observedTick <= u && items[j].observedTick <= t;
  }

  lemma {:induction false} ProvesIff(items: seq<EvidenceItem>, scope: u64, kind: EvidenceKind, w: FreshnessWindow,
                                     v: u64)
    ensures Proves(items, scope, kind, w, v) <==>
      Unanimous(items, scope, kind, v) && Fresh(w, NewestTickFor(items, scope, kind))
  {
    hide IsNewest, NewestUpTo, InGroup;
    NewestMeaning(items, scope, kind, |items|);
    if Unanimous(items, scope, kind, v) {
      var newest := NewestTickFor(items, scope, kind);
      assert IsNewest(items, scope, kind, |items|, newest);
      forall t | IsNewest(items, scope, kind, |items|, t) ensures t == newest {
        OneNewest(items, scope, kind, |items|, t, newest);
      }
    }
  }

  ghost predicate Proven(items: seq<EvidenceItem>, scope: u64, kind: EvidenceKind, w: FreshnessWindow) {
    exists v :: Proves(items, scope, kind, w, v)
  }

  // What the snapshot records for a kind.
  function Recorded(c: Capability, kind: EvidenceKind): u64 {
    match kind
    case FabricTopology =>
      (match c.topology case FullMesh => 1 case PartialMesh => 2 case Partitioned => 3 case Isolated => 4)
    case AggregateBandwidth => c.bandwidth
    case RoundTripLatency => c.rtt
    case PathDiversityObserved => c.pathDiversity
    case ReachabilityObserved => c.reachablePpm
    case NodeCoverage => c.nodeCoveragePpm
    case SynchronousDurability => if c.synchronousDurability then 1 else 0
  }

  // Retained items were validated on push, so every value is inside its domain.
  ghost predicate InDomain(items: seq<EvidenceItem>) {
    forall i | 0 <= i < |items| :: items[i].value <= MaxEvidence(items[i].kind)
  }

  lemma {:induction false} FieldsMeaning(items: seq<EvidenceItem>, scope: u64, generation: u64, w: FreshnessWindow,
                                         n: nat)
    requires n <= |FIELDS| && InDomain(items)
    requires FieldsUpTo(items, scope, generation, w, n).Some?
    ensures var c := FieldsUpTo(items, scope, generation, w, n).value;
      && c.scope == scope && c.generation == generation
      && (c.state.Known? <==> forall i | 0 <= i < n :: Proven(items, scope, FIELDS[i], w))
      && (c.state.Known? ==> forall i | 0 <= i < n :: Proves(items, scope, FIELDS[i], w, Recorded(c, FIELDS[i])))
  {
    hide FieldStep, Proves, Recorded;
    if n > 0 {
      FieldsMeaning(items, scope, generation, w, n - 1);
      var before := FieldsUpTo(items, scope, generation, w, n - 1).value;
      StepMeaning(before, items, FIELDS[n - 1], w);
      forall i | 0 <= i < n - 1 ensures FIELDS[i] != FIELDS[n - 1] {}
    }
  }

  lemma {:induction false} StepMeaning(c: Capability, items: seq<EvidenceItem>, kind: EvidenceKind, w: FreshnessWindow)
    requires InDomain(items) && FieldStep(c, items, kind, w).Some?
    ensures var d := FieldStep(c, items, kind, w).value;
      && d.scope == c.scope && d.generation == c.generation
      && (forall k | k != kind :: Recorded(d, k) == Recorded(c, k))
      && (d.state.Known? <==> c.state.Known? && Proven(items, c.scope, kind, w))
      && (d.state.Known? ==> Proves(items, c.scope, kind, w, Recorded(d, kind)))
  {
    hide Proves;
    KnownMeansUnanimous(items, c.scope, kind);
    if Proven(items, c.scope, kind, w) {
      var v :| Proves(items, c.scope, kind, w, v);
      ProvesIff(items, c.scope, kind, w, v);
    }
    if StateFor(items, c.scope, kind).Known? && Fresh(w, NewestTickFor(items, c.scope, kind)) {
      var v := ValueFor(items, c.scope, kind).value;
      ProvesIff(items, c.scope, kind, w, v);
      var i :| 0 <= i < |items| && InGroup(items[i], c.scope, kind);
      assert v <= MaxEvidence(kind);
    }
  }

  // Capability is Known exactly when each of the seven kinds is unanimous and fresh,
  // and a Known snapshot records exactly the agreed values.
  lemma {:induction false} KnownCapability(items: seq<EvidenceItem>, scope: u64, generation: u64, w: FreshnessWindow)
    requires InDomain(items) && Derive(items, scope, generation, w).Ok?
    ensures var c := Derive(items, scope, generation, w).value;
      && c.scope == scope && c.generation == generation
      && (Usable(c) <==> forall kind :: Proven(items, scope, kind, w))
      && (Usable(c) ==> forall kind :: Proves(items, scope, kind, w, Recorded(c, kind)))
  {
    FieldsMeaning(items, scope, generation, w, |FIELDS|);
    var c := Derive(items, scope, generation, w).value;
    if Usable(c) {
      forall kind ensures Proven(items, scope, kind, w) && Proves(items, scope, kind, w, Recorded(c, kind)) {
        assert FIELDS[FieldIndex(kind)] == kind;
      }
    }
  }

  lemma {:induction false} StepTick(c: Capability, items: seq<EvidenceItem>, kind: EvidenceKind, w: FreshnessWindow)
    requires FieldStep(c, items, kind, w).Some? && FieldStep(c, items, kind, w).value.state.Known?
    ensures var d := FieldStep(c, items, kind, w).value;
      c.state.Known? && d.scope == c.scope && d.observedTick == Max(c.observedTick, NewestTickFor(items, c.scope, kind))
  {
    hide NewestTickFor, Fresh;
    KnownMeansUnanimous(items, c.scope, kind);
  }

  lemma {:induction false} TicksUpTo(items: seq<EvidenceItem>, scope: u64, generation: u64, w: FreshnessWindow, n: nat)
    requires n <= |FIELDS| && FieldsUpTo(items, scope, generation, w, n).Some?
    requires FieldsUpTo(items, scope, generation, w, n).value.state.Known?
    ensures var c := FieldsUpTo(items, scope, generation, w, n).value;
      && c.scope == scope && (n == 0 ==> c.observedTick == 0)
      && (forall i | 0 <= i < n :: NewestTickFor(items, scope, FIELDS[i]) <= c.observedTick)
      && (n > 0 ==> exists i | 0 <= i < n :: NewestTickFor(items, scope, FIELDS[i]) == c.observedTick)
  {
    hide FieldStep, NewestTickFor;
    if n > 0 {
      var before := FieldsUpTo(items, scope, generation, w, n - 1).value;
      StepTick(before, items, FIELDS[n - 1], w);
      TicksUpTo(items, scope, generation, w, n - 1);
      var tick := FieldsUpTo(items, scope, generation, w, n).value.observedTick;
      assert NewestTickFor(items, scope, FIELDS[n - 1]) <= tick;
      if before.observedTick > NewestTickFor(items, scope, FIELDS[n - 1]) {
        var i :| 0 <= i < n - 1 && NewestTickFor(items, scope, FIELDS[i]) == before.observedTick;
        assert 0 <= i < n;
      }
    }
  }

  // A Known snapshot was observed when the newest of its items was.
  lemma {:induction false} ObservedWithNewest(items: seq<EvidenceItem>, scope: u64, generation: u64, w: FreshnessWindow)
    requires Derive(items, scope, generation, w).Ok? && Usable(Derive(items, scope, generation, w).value)
    ensures var t := Derive(items, scope, generation, w).value.observedTick;
      && (forall i | 0 <= i < |items| && items[i].scope == scope :: items[i].observedTick <= t)
      && (exists i | 0 <= i < |items| :: items[i].scope == scope && items[i].observedTick == t)
  {
    hide FieldsUpTo, NewestUpTo, StateFor;
    TicksUpTo(items, scope, generation, w, |FIELDS|);
    var t := Derive(items, scope, generation, w).value.observedTick;
    forall i | 0 <= i < |items| && items[i].scope == scope ensures items[i].observedTick <= t {
      NewestMeaning(items, scope, items[i].kind, |items|);
      assert FIELDS[FieldIndex(items[i].kind)] == items[i].kind;
    }
    var f :| 0 <= f < |FIELDS| && NewestTickFor(items, scope, FIELDS[f]) == t;
    AllPresent(items, scope, generation, w, |FIELDS|, f);
    NewestMeaning(items, scope, FIELDS[f], |items|);
  }

  lemma {:induction false} AllPresent(items: seq<EvidenceItem>, scope: u64, generation: u64, w: FreshnessWindow, n: nat,
                                      f: nat)
    requires f < n <= |FIELDS| && FieldsUpTo(items, scope, generation, w, n).Some?
    requires FieldsUpTo(items, scope, generation, w, n).value.state.Known?
    ensures exists i | 0 <= i < |items| :: InGroup(items[i], scope, FIELDS[f])
  {
    hide Fresh, NewestTickFor, ValueFor, Unanimous;
    var before := FieldsUpTo(items, scope, generation, w, n - 1).value;
    StepTick(before, items, FIELDS[n - 1], w);
    TicksUpTo(items, scope, generation, w, n - 1);
    if f == n - 1 {
      StepPresent(before, items, FIELDS[n - 1], w);
    } else {
      AllPresent(items, scope, generation, w, n - 1, f);
    }
  }

  lemma {:induction false} StepPresent(c: Capability, items: seq<EvidenceItem>, kind: EvidenceKind, w: FreshnessWindow)
    requires FieldStep(c, items, kind, w).Some? && FieldStep(c, items, kind, w).value.state.Known?
    ensures exists i | 0 <= i < |items| :: InGroup(items[i], c.scope, kind)
  {
    hide NewestTickFor, Fresh;
    KnownMeansUnanimous(items, c.scope, kind);
  }

  // Derivation is refused only for an unset scope or generation, or when the fabric
  // proves a topology class that does not exist.
  lemma {:induction false} DeriveRefusal(items: seq<EvidenceItem>, scope: u64, generation: u64, w: FreshnessWindow)
    ensures Derive(items, scope, generation, w).Err? <==>
      || scope == 0 || generation == 0
      || exists v :: Proves(items, scope, FabricTopology, w, v) && TopologyOf(v).None?
  {
    hide Proves;
    KnownMeansUnanimous(items, scope, FabricTopology);
    if ValueFor(items, scope, FabricTopology).Some? {
      ProvesIff(items, scope, FabricTopology, w, ValueFor(items, scope, FabricTopology).value);
    }
    if exists v :: Proves(items, scope, FabricTopology, w, v) && TopologyOf(v).None? {
      var v :| Proves(items, scope, FabricTopology, w, v) && TopologyOf(v).None?;
      ProvesIff(items, scope, FabricTopology, w, v);
      var i :| 0 <= i < |items| && InGroup(items[i], scope, FabricTopology);
    }
    assert FieldsUpTo(items, scope, generation, w, 0).Some?;
    if FieldsUpTo(items, scope, generation, w, 1).None? {
      FieldsFail(items, scope, generation, w, 1);
    } else {
      OnlyTopologyFails(items, scope, generation, w, |FIELDS|);
    }
  }

  lemma {:induction false} OnlyTopologyFails(items: seq<EvidenceItem>, scope: u64, generation: u64, w: FreshnessWindow,
                                             n: nat)
    requires 1 <= n <= |FIELDS| && FieldsUpTo(items, scope, generation, w, 1).Some?
    ensures FieldsUpTo(items, scope, generation, w, n).Some?
  {
    hide StateFor, NewestTickFor, ValueFor, Fresh;
    if n > 1 {
      OnlyTopologyFails(items, scope, generation, w, n - 1);
      assert FIELDS[n - 1] != FabricTopology;
    }
  }

  function FieldIndex(kind: EvidenceKind): (i: nat)
    ensures i < |FIELDS| && FIELDS[i] == kind
  {
    match kind
    case FabricTopology => 0
    case AggregateBandwidth => 1
    case RoundTripLatency => 2
    case PathDiversityObserved => 3
    case ReachabilityObserved => 4
    case NodeCoverage => 5
    case SynchronousDurability => 6
  }

  // --------------------------------------------------------------------------
  // Support
  // --------------------------------------------------------------------------

  datatype SupportTri = Supported | NotSupported | IndeterminateSupport | InvalidSupport

  // The snapshot's value for a guarantee kind.
  function Observed(c: Capability, k: Kind): u64 {
    match k
    case Availability => c.reachablePpm
    case Bandwidth => c.bandwidth
    case LatencyP99 => c.rtt
    case PathDiversity => c.pathDiversity
    case Durability => if c.synchronousDurability then MAX_DURABILITY_LEVEL else 0
    case Reachability => c.nodeCoveragePpm
  }

  function Supports(c: Capability, g: Guarantee): SupportTri {
    if !ValidGuarantee(g) then InvalidSupport
    else if !Usable(c) then IndeterminateSupport
    else if (if g.kind.LatencyP99? then Observed(c, g.kind) <= g.value else Observed(c, g.kind) >= g.value)
    then Supported else NotSupported
  }

  // The evidence a guarantee kind is judged on.
  function JudgedOn(k: Kind): EvidenceKind {
    match k
    case Availability => ReachabilityObserved
    case Bandwidth => AggregateBandwidth
    case LatencyP99 => RoundTripLatency
    case PathDiversity => PathDiversityObserved
    case Durability => SynchronousDurability
    case Reachability => NodeCoverage
  }

  // From evidence to support: a valid guarantee is supported exactly when the items of its
  // kind agree on a value that meets it. Latency is met from below, durability by any
  // synchronous copy, everything else from above.
  lemma {:induction false} SupportIsAgreed(items: seq<EvidenceItem>, scope: u64, generation: u64, w: FreshnessWindow,
                                           g: Guarantee)
    requires InDomain(items) && Derive(items, scope, generation, w).Ok? && ValidGuarantee(g)
    requires Usable(Derive(items, scope, generation, w).value)
    ensures Supports(Derive(items, scope, generation, w).value, g) == Supported <==>
      exists v: u64 :: Unanimous(items, scope, JudgedOn(g.kind), v)
        && (match g.kind
            case LatencyP99 => v <= g.value
            case Durability => g.value == 0 || v != 0
            case _ => v >= g.value)
  {
    hide Derive, Fresh, IsNewest, StateFor;
    KnownCapability(items, scope, generation, w);
    var c := Derive(items, scope, generation, w).value;
    var kind := JudgedOn(g.kind);
    assert Proves(items, scope, kind, w, Recorded(c, kind));
    forall v: u64 | Unanimous(items, scope, kind, v) ensures v == Recorded(c, kind) {
      OneValue(items, scope, kind, v, Recorded(c, kind));
    }
  }

  lemma {:induction false} OneValue(items: seq<EvidenceItem>, scope: u64, kind: EvidenceKind, v: u64, u: u64)
    requires Unanimous(items, scope, kind, v) && Unanimous(items, scope, kind, u)
    ensures v == u
  {
    var i :| 0 <= i < |items| && InGroup(items[i], scope, kind);
    assert items[i].value == v && items[i].value == u;
  }
}
