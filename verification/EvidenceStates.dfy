// What state a group of evidence is in (EvidenceVector::state_for in
// src/domain/evidence.cpp): the worst of its items', except that a disagreement found
// later hides an invalid item found earlier.
module EvidenceStates {
  import opened Core
  import opened Evidence

  // --------------------------------------------------------------------------
  // Agreement
  // --------------------------------------------------------------------------

  // Item i is of the group and Known.
  predicate Knows(items: seq<EvidenceItem>, scope: u64, kind: EvidenceKind, i: nat) {
    i < |items| && InGroup(items[i], scope, kind) && items[i].state.Known?
  }

  ghost predicate FirstKnows(items: seq<EvidenceItem>, scope: u64, kind: EvidenceKind, i: nat) {
    Knows(items, scope, kind, i) && forall j: nat | j < i :: !Knows(items, scope, kind, j)
  }

  // Item j contradicts the first Known item of the group.
  ghost predicate Clashes(items: seq<EvidenceItem>, scope: u64, kind: EvidenceKind, j: nat) {
    && Knows(items, scope, kind, j)
    && exists i: nat | i < j :: FirstKnows(items, scope, kind, i) && items[i].value != items[j].value
  }

  ghost predicate Disagrees(items: seq<EvidenceItem>, scope: u64, kind: EvidenceKind, n: nat) {
    exists j: nat | j < n :: Clashes(items, scope, kind, j)
  }

  // Disagreement is any two Known items of different values.
  lemma {:induction false} DisagreesMeans(items: seq<EvidenceItem>, scope: u64, kind: EvidenceKind, a: nat, b: nat)
    requires Knows(items, scope, kind, a) && Knows(items, scope, kind, b) && items[a].value != items[b].value
    ensures Disagrees(items, scope, kind, |items|)
  {
    var first := LeastKnown(items, scope, kind, a);
    assert first <= b;
    var other := if items[first].value != items[a].value then a else b;
    assert Clashes(items, scope, kind, other);
  }

  lemma {:induction false} LeastKnown(items: seq<EvidenceItem>, scope: u64, kind: EvidenceKind, a: nat)
    returns (i: nat)
    requires Knows(items, scope, kind, a)
    ensures i <= a && FirstKnows(items, scope, kind, i)
  {
    if j: nat :| j < a && Knows(items, scope, kind, j) {
      i := LeastKnown(items, scope, kind, j);
    } else {
      i := a;
    }
  }

  // --------------------------------------------------------------------------
  // The scan
  // --------------------------------------------------------------------------

  // Item i is of the group and invalid.
  predicate Broken(items: seq<EvidenceItem>, scope: u64, kind: EvidenceKind, i: nat) {
    i < |items| && InGroup(items[i], scope, kind) && items[i].state.InvalidEvidence?
  }

  // An invalid item after which nothing clashes.
  ghost predicate ShowsInvalid(items: seq<EvidenceItem>, scope: u64, kind: EvidenceKind, n: nat) {
    exists i: nat | i < n ::
      Broken(items, scope, kind, i) && forall j: nat | i < j < n :: !Clashes(items, scope, kind, j)
  }

  // s is the state of some item of the group, or Known, and none is worse.
  ghost predicate WorstItem(items: seq<EvidenceItem>, scope: u64, kind: EvidenceKind, n: nat, s: EvidenceState)
    requires n <= |items|
  {
    && (forall i | 0 <= i < n && InGroup(items[i], scope, kind) :: Severity(items[i].state) <= Severity(s))
    && (s == Known || exists i | 0 <= i < n :: InGroup(items[i], scope, kind) && items[i].state == s)
  }

  lemma {:induction false} AgreedIsFirst(items: seq<EvidenceItem>, scope: u64, kind: EvidenceKind, n: nat)
    requires n <= |items|
    ensures var g := ScanUpTo(items, scope, kind, n);
      && (g.agreed.None? <==> forall i: nat | i < n :: !Knows(items, scope, kind, i))
      && (forall i: nat | i < n && FirstKnows(items, scope, kind, i) :: g.agreed == Some(items[i].value))
  {
    hide Severity;
    if n > 0 {
      AgreedIsFirst(items, scope, kind, n - 1);
      assert Knows(items, scope, kind, n - 1) <==> InGroup(items[n - 1], scope, kind) && items[n - 1].state.Known?;
      if ScanUpTo(items, scope, kind, n - 1).agreed.Some? {
        var a: nat :| a < n - 1 && Knows(items, scope, kind, a);
        assert !FirstKnows(items, scope, kind, n - 1);
      }
    }
  }

  // The scan sees a clash exactly at the items that contradict the first Known one.
  lemma {:induction false} ClashIsSeen(items: seq<EvidenceItem>, scope: u64, kind: EvidenceKind, n: nat)
    requires n < |items|
    ensures var agreed := ScanUpTo(items, scope, kind, n).agreed;
      Clashes(items, scope, kind, n) <==>
        Knows(items, scope, kind, n) && agreed.Some? && agreed.value != items[n].value
  {
    hide ScanUpTo;
    AgreedIsFirst(items, scope, kind, n);
    if ScanUpTo(items, scope, kind, n).agreed.Some? {
      var a: nat :| a < n && Knows(items, scope, kind, a);
      var i := LeastKnown(items, scope, kind, a);
    }
  }

  lemma {:induction false} NextClash(items: seq<EvidenceItem>, scope: u64, kind: EvidenceKind, n: nat)
    requires n < |items|
    ensures Disagrees(items, scope, kind, n + 1) <==> Disagrees(items, scope, kind, n) || Clashes(items, scope, kind, n)
  {
    hide Clashes;
    if Disagrees(items, scope, kind, n) {
      var j: nat :| j < n && Clashes(items, scope, kind, j);
      assert j < n + 1;
    }
  }

  lemma {:induction false} NextInvalid(items: seq<EvidenceItem>, scope: u64, kind: EvidenceKind, n: nat)
    requires n < |items|
    ensures ShowsInvalid(items, scope, kind, n + 1) <==>
      Broken(items, scope, kind, n) || (ShowsInvalid(items, scope, kind, n) && !Clashes(items, scope, kind, n))
  {
    hide Clashes, Broken;
    if ShowsInvalid(items, scope, kind, n) && !Clashes(items, scope, kind, n) {
      var i: nat :| i < n && Broken(items, scope, kind, i)
        && forall j: nat | i < j < n :: !Clashes(items, scope, kind, j);
      assert forall j: nat | i < j < n + 1 :: !Clashes(items, scope, kind, j);
      assert i < n + 1;
    }
    if Broken(items, scope, kind, n) {
      assert n < n + 1 && forall j: nat | n < j < n + 1 :: !Clashes(items, scope, kind, j);
    }
  }

  // One item more.
  lemma {:induction false} NextWorst(items: seq<EvidenceItem>, scope: u64, kind: EvidenceKind, n: nat, s: EvidenceState)
    requires n < |items| && WorstItem(items, scope, kind, n, s)
    ensures !InGroup(items[n], scope, kind) ==> WorstItem(items, scope, kind, n + 1, s)
    ensures InGroup(items[n], scope, kind) ==>
      WorstItem(items, scope, kind, n + 1, if Severity(items[n].state) > Severity(s) then items[n].state else s)
  {
    hide Severity, InGroup;
    if s != Known {
      var i :| 0 <= i < n && InGroup(items[i], scope, kind) && items[i].state == s;
      assert 0 <= i < n + 1;
    }
  }

  // The verdict of the scan on its first n items.
  ghost predicate ScanMeans(items: seq<EvidenceItem>, scope: u64, kind: EvidenceKind, n: nat, worst: EvidenceState)
    requires n <= |items|
  {
    if Disagrees(items, scope, kind, n)
    then worst == if ShowsInvalid(items, scope, kind, n) then InvalidEvidence else Conflict
    else WorstItem(items, scope, kind, n, worst)
  }

  lemma {:induction false} ScanStep(items: seq<EvidenceItem>, scope: u64, kind: EvidenceKind, n: nat)
    requires n < |items| && ScanMeans(items, scope, kind, n, ScanUpTo(items, scope, kind, n).worst)
    ensures ScanMeans(items, scope, kind, n + 1, ScanUpTo(items, scope, kind, n + 1).worst)
  {
    hide Clashes, ShowsInvalid, WorstItem, Disagrees;
    var g := ScanUpTo(items, scope, kind, n);
    ClashIsSeen(items, scope, kind, n);
    NextClash(items, scope, kind, n);
    NextInvalid(items, scope, kind, n);
    if WorstItem(items, scope, kind, n, g.worst) { NextWorst(items, scope, kind, n, g.worst); }
  }

  lemma {:induction false} ScanState(items: seq<EvidenceItem>, scope: u64, kind: EvidenceKind, n: nat)
    requires n <= |items|
    ensures ScanMeans(items, scope, kind, n, ScanUpTo(items, scope, kind, n).worst)
  {
    if n > 0 {
      hide ScanMeans, ScanUpTo;
      ScanState(items, scope, kind, n - 1);
      ScanStep(items, scope, kind, n - 1);
    }
  }

  // --------------------------------------------------------------------------
  // Main results
  // --------------------------------------------------------------------------

  // The worst there is in the group, a disagreement counting as a conflict.
  ghost predicate IsWorst(items: seq<EvidenceItem>, scope: u64, kind: EvidenceKind, s: EvidenceState) {
    && (forall i | 0 <= i < |items| && InGroup(items[i], scope, kind) :: Severity(items[i].state) <= Severity(s))
    && (Disagrees(items, scope, kind, |items|) ==> Severity(Conflict) <= Severity(s))
    && (s == Known || (s == Conflict && Disagrees(items, scope, kind, |items|))
        || exists i | 0 <= i < |items| :: InGroup(items[i], scope, kind) && items[i].state == s)
  }

  // An invalid item, and after every one of them an item that clashes.
  ghost predicate HidesInvalid(items: seq<EvidenceItem>, scope: u64, kind: EvidenceKind) {
    && (exists i: nat :: Broken(items, scope, kind, i))
    && forall i: nat | Broken(items, scope, kind, i) ::
         exists j: nat | i < j < |items| :: Clashes(items, scope, kind, j)
  }

  // A group with items is in its worst state exactly when no later clash hides an invalid
  // item.
  lemma {:induction false} StateIsWorstIff(items: seq<EvidenceItem>, scope: u64, kind: EvidenceKind)
    requires exists i | 0 <= i < |items| :: InGroup(items[i], scope, kind)
    ensures IsWorst(items, scope, kind, StateFor(items, scope, kind)) <==> !HidesInvalid(items, scope, kind)
  {
    hide Clashes, ScanUpTo, Disagrees, InGroup;
    var n := |items|;
    ScanMeaning(items, scope, kind, n);
    ScanState(items, scope, kind, n);
    ClashDisagrees(items, scope, kind);
    ShownIff(items, scope, kind);
    if i: nat :| Broken(items, scope, kind, i) {
      assert 0 <= i < |items| && InGroup(items[i], scope, kind) && items[i].state == InvalidEvidence;
    } else {
      forall i | 0 <= i < |items| && InGroup(items[i], scope, kind)
        ensures Severity(items[i].state) <= Severity(Conflict) {
        assert !Broken(items, scope, kind, i);
      }
    }
  }

  lemma {:induction false} ClashDisagrees(items: seq<EvidenceItem>, scope: u64, kind: EvidenceKind)
    ensures HidesInvalid(items, scope, kind) ==> Disagrees(items, scope, kind, |items|)
  {
    hide Clashes, Broken;
    if HidesInvalid(items, scope, kind) {
      var i: nat :| Broken(items, scope, kind, i);
      var j: nat :| i < j < |items| && Clashes(items, scope, kind, j);
    }
  }

  lemma {:induction false} ShownIff(items: seq<EvidenceItem>, scope: u64, kind: EvidenceKind)
    ensures ShowsInvalid(items, scope, kind, |items|) <==>
      (exists i: nat :: Broken(items, scope, kind, i)) && !HidesInvalid(items, scope, kind)
  {
    hide Clashes, InGroup;
    if ShowsInvalid(items, scope, kind, |items|) {
      var i: nat :| i < |items| && Broken(items, scope, kind, i)
                    && forall j: nat | i < j < |items| :: !Clashes(items, scope, kind, j);
      assert Broken(items, scope, kind, i);
    }
    if (exists i: nat :: Broken(items, scope, kind, i)) && !HidesInvalid(items, scope, kind) {
      var i: nat :| Broken(items, scope, kind, i) && !exists j: nat | i < j < |items| :: Clashes(items, scope, kind, j);
      assert forall j: nat | i < j < |items| :: !Clashes(items, scope, kind, j);
    }
  }

  // Three publishers, the first of them invalid, the others at odds: the group is reported
  // as in conflict, and as invalid if the invalid item comes last.
  lemma {:induction false} ConflictHidesInvalid()
    ensures var bad := EvidenceItem(1, 1, 1, 1, AggregateBandwidth, 1, InvalidEvidence, 0, 1);
      var low := EvidenceItem(2, 2, 1, 1, AggregateBandwidth, 1, Known, 1, 1);
      var high := EvidenceItem(3, 3, 1, 1, AggregateBandwidth, 1, Known, 2, 1);
      && StateFor([bad, low, high], 1, AggregateBandwidth) == Conflict
      && StateFor([low, high, bad], 1, AggregateBandwidth) == InvalidEvidence
      && Severity(InvalidEvidence) > Severity(Conflict)
  {
    var bad := EvidenceItem(1, 1, 1, 1, AggregateBandwidth, 1, InvalidEvidence, 0, 1);
    var low := EvidenceItem(2, 2, 1, 1, AggregateBandwidth, 1, Known, 1, 1);
    var high := EvidenceItem(3, 3, 1, 1, AggregateBandwidth, 1, Known, 2, 1);
    var a, b := [bad, low, high], [low, high, bad];
    assert ScanUpTo(a, 1, AggregateBandwidth, 1) == GroupScan(InvalidEvidence, true, None);
    assert ScanUpTo(a, 1, AggregateBandwidth, 2) == GroupScan(InvalidEvidence, true, Some(1));
    assert ScanUpTo(b, 1, AggregateBandwidth, 1) == GroupScan(Known, true, Some(1));
    assert ScanUpTo(b, 1, AggregateBandwidth, 2) == GroupScan(Conflict, true, Some(1));
  }

  // --------------------------------------------------------------------------
  // The snapshot
  // --------------------------------------------------------------------------

  // What one kind contributes: its group's state, or Stale if the group is Known but old.
  function KindState(items: seq<EvidenceItem>, scope: u64, kind: EvidenceKind, w: FreshnessWindow): EvidenceState {
    var state := StateFor(items, scope, kind);
    if state.Known? && !Evidence.Fresh(w, NewestTickFor(items, scope, kind)) then EvidenceState.Stale else state
  }

  lemma {:induction false} SeverityTells(a: EvidenceState, b: EvidenceState)
    ensures Severity(a) == Severity(b) <==> a == b
    ensures Severity(Known) < Severity(EvidenceState.Stale) < Severity(Unknown) < Severity(UnsupportedEvidence)
      < Severity(Conflict) < Severity(InvalidEvidence)
  {
  }

  lemma {:induction false} StepState(c: Capability, items: seq<EvidenceItem>, kind: EvidenceKind, w: FreshnessWindow)
    requires FieldStep(c, items, kind, w).Some?
    ensures var d, s := FieldStep(c, items, kind, w).value, KindState(items, c.scope, kind, w);
      d.scope == c.scope && d.state == if Severity(s) > Severity(c.state) then s else c.state
  {
    hide NewestTickFor, Evidence.Fresh;
    KnownMeansUnanimous(items, c.scope, kind);
    SeverityTells(Known, c.state);
  }

  lemma {:induction false} StatesUpTo(items: seq<EvidenceItem>, scope: u64, generation: u64, w: FreshnessWindow, n: nat)
    requires n <= |FIELDS| && FieldsUpTo(items, scope, generation, w, n).Some?
    ensures var c := FieldsUpTo(items, scope, generation, w, n).value;
      && c.scope == scope
      && (forall i | 0 <= i < n :: Severity(KindState(items, scope, FIELDS[i], w)) <= Severity(c.state))
      && (c.state == Known || exists i | 0 <= i < n :: KindState(items, scope, FIELDS[i], w) == c.state)
  {
    hide FieldStep, KindState, Severity;
    if n > 0 {
      var before := FieldsUpTo(items, scope, generation, w, n - 1).value;
      StatesUpTo(items, scope, generation, w, n - 1);
      StepState(before, items, FIELDS[n - 1], w);
      var here := KindState(items, scope, FIELDS[n - 1], w);
      if Severity(here) <= Severity(before.state) && before.state != Known {
        var i :| 0 <= i < n - 1 && KindState(items, scope, FIELDS[i], w) == before.state;
        assert 0 <= i < n;
      }
    }
  }

  // The snapshot is in the worst state any of the seven kinds is in.
  lemma {:induction false} SnapshotIsWorst(items: seq<EvidenceItem>, scope: u64, generation: u64, w: FreshnessWindow)
    requires Derive(items, scope, generation, w).Ok?
    ensures var state := Derive(items, scope, generation, w).value.state;
      && (forall kind :: Severity(KindState(items, scope, kind, w)) <= Severity(state))
      && (exists kind :: KindState(items, scope, kind, w) == state)
  {
    hide FieldsUpTo, KindState;
    StatesUpTo(items, scope, generation, w, |FIELDS|);
    var state := Derive(items, scope, generation, w).value.state;
    forall kind ensures Severity(KindState(items, scope, kind, w)) <= Severity(state) {
      assert FIELDS[FieldIndex(kind)] == kind;
    }
    if state == Known { SeverityTells(KindState(items, scope, FIELDS[0], w), Known); }
  }
}
