// The grant index (GrantTable in src/runtime/evidence_store.cpp): positions by identity
// and the sorted identities of live grants, kept beside the durable grant vector.
module GrantTables {
  import opened Core
  import opened Grants
  import opened Store
  import opened Replay
  import opened Sorting
  import opened Sums
  import opened Subsets

  function IdOf(g: Grant): u64 { g.id }

  predicate Below(a: u64, b: u64) { a < b }

  // The identities of the live grants, ascending.
  function LiveIds(gs: seq<Grant>): seq<u64> {
    SortBy(Below, Mapped(IdOf, Filter(IsLive, gs)))
  }

  // The index holds the position of every grant in gs, and nothing else.
  ghost predicate Indexes(index: map<u64, nat>, gs: seq<Grant>) {
    && |index| == |gs|
    && (forall id | id in index :: index[id] < |gs| && gs[index[id]].id == id)
    && (forall i | 0 <= i < |gs| :: gs[i].id in index && index[gs[i].id] == i)
  }

  // What `find` answers: whatever is at the indexed position, or nothing.
  function Lookup(index: map<u64, nat>, gs: seq<Grant>, id: u64): Option<Grant> {
    if id in index && index[id] < |gs| then Some(gs[index[id]]) else None
  }

  // Linear search by identity.
  function ScanFor(gs: seq<Grant>, id: u64): Option<Grant> {
    if GrantAt(gs, id) < |gs| then Some(gs[GrantAt(gs, id)]) else None
  }

  // --------------------------------------------------------------------------
  // Agreement, and when it is lost
  // --------------------------------------------------------------------------

  // The identities of hs are, in order, the first identities of gs.
  ghost predicate SamePositions(hs: seq<Grant>, gs: seq<Grant>) {
    |hs| <= |gs| && forall i | 0 <= i < |hs| :: hs[i].id == gs[i].id
  }

  lemma {:induction false} OnePlace(gs: seq<Grant>, i: nat, j: nat)
    requires DistinctBy(GrantKey, gs) && i < |gs| && j < |gs| && gs[i].id == gs[j].id
    ensures i == j
  {
    assert i < j ==> GrantKey(gs[i]) != GrantKey(gs[j]);
    assert j < i ==> GrantKey(gs[j]) != GrantKey(gs[i]);
  }

  lemma {:induction false} ScanMeaning(gs: seq<Grant>, i: nat)
    requires i < |gs| && DistinctBy(GrantKey, gs)
    ensures GrantAt(gs, gs[i].id) == i
  {
    hide GrantAt;
    OnePlace(gs, i, GrantAt(gs, gs[i].id));
  }

  lemma {:induction false} AgreesWhenAligned(index: map<u64, nat>, gs: seq<Grant>, hs: seq<Grant>, id: u64)
    requires Indexes(index, gs) && DistinctBy(GrantKey, hs) && SamePositions(hs, gs)
    ensures Lookup(index, hs, id) == ScanFor(hs, id)
  {
    hide GrantAt;
    var k := GrantAt(hs, id);
    assert id in index && index[id] < |hs| ==> hs[index[id]].id == id;
    if k < |hs| { assert gs[k].id == id; }
  }

  // An index built for gs answers for hs as a scan would, for every identity, exactly
  // when hs has the same identities in the same places.
  lemma {:induction false} LookupAgreesIff(index: map<u64, nat>, gs: seq<Grant>, hs: seq<Grant>)
    requires Indexes(index, gs) && DistinctBy(GrantKey, hs)
    ensures (forall id: u64 :: Lookup(index, hs, id) == ScanFor(hs, id)) <==> SamePositions(hs, gs)
  {
    if SamePositions(hs, gs) {
      forall id: u64 ensures Lookup(index, hs, id) == ScanFor(hs, id) {
        AgreesWhenAligned(index, gs, hs, id);
      }
    }
    if forall id: u64 :: Lookup(index, hs, id) == ScanFor(hs, id) {
      hide GrantAt;
      forall i | 0 <= i < |hs| ensures i < |gs| && hs[i].id == gs[i].id {
        ScanMeaning(hs, i);
        assert Lookup(index, hs, hs[i].id) == Some(hs[i]);
        assert hs[index[hs[i].id]] == hs[i];
        OnePlace(hs, i, index[hs[i].id]);
      }
      assert |hs| > 0 ==> hs[|hs| - 1].id == gs[|hs| - 1].id;
    }
  }

  // --------------------------------------------------------------------------
  // Changes mirrored on the vector
  // --------------------------------------------------------------------------

  lemma {:induction false} IndexesPush(index: map<u64, nat>, gs: seq<Grant>, g: Grant)
    requires Indexes(index, gs) && g.id !in index
    ensures Indexes(index[g.id := |index|], gs + [g])
  {
  }

  lemma {:induction false} IndexesUpdate(index: map<u64, nat>, gs: seq<Grant>, i: nat, g: Grant)
    requires Indexes(index, gs) && i < |gs| && g.id == gs[i].id
    ensures Indexes(index, gs[i := g])
  {
  }

  lemma {:induction false} UnindexedIsNew(index: map<u64, nat>, gs: seq<Grant>, id: u64)
    requires Indexes(index, gs)
    ensures id !in index <==> !Known(id, gs)
  {
    if id in index { assert gs[index[id]] in gs; }
  }

  // Live identities after a grant is added.
  lemma {:induction false} LiveIdsPush(gs: seq<Grant>, g: Grant)
    ensures multiset(LiveIds(gs + [g])) == multiset(LiveIds(gs) + (if g.Live() then [g.id] else []))
  {
    FilterPush(IsLive, gs, g);
    if g.Live() {
      MappedPush(IdOf, Filter(IsLive, gs), g);
    } else {
      assert Filter(IsLive, gs) + [] == Filter(IsLive, gs);
      assert LiveIds(gs) + [] == LiveIds(gs);
    }
  }

  lemma {:induction false} MapOne(a: seq<Grant>, b: seq<Grant>, g: Grant)
    requires multiset(a) == multiset(b) + multiset{g}
    ensures multiset(Mapped(IdOf, a)) == multiset(Mapped(IdOf, b)) + multiset{g.id}
  {
    assert multiset(a) == multiset(b + [g]);
    MappedPermutes(IdOf, a, b + [g]);
    MappedPush(IdOf, b, g);
  }

  // A grant that stays live leaves the live identities alone; one that ends takes its
  // own away.
  lemma {:induction false} LiveIdsUpdate(gs: seq<Grant>, i: nat, g: Grant)
    requires i < |gs| && g.id == gs[i].id && gs[i].Live()
    ensures g.Live() ==> multiset(LiveIds(gs[i := g])) == multiset(LiveIds(gs))
    ensures !g.Live() ==>
      g.id in multiset(LiveIds(gs)) && multiset(LiveIds(gs[i := g])) == multiset(LiveIds(gs)) - multiset{g.id}
  {
    hide SortBy, Filter;
    var t := gs[i := g];
    var rest := gs[..i] + gs[i + 1..];
    assert t[..i] + t[i + 1..] == rest;
    FilterAround(IsLive, gs, i);
    FilterAround(IsLive, t, i);
    MapOne(Filter(IsLive, gs), Filter(IsLive, rest), gs[i]);
    if g.Live() {
      MapOne(Filter(IsLive, t), Filter(IsLive, rest), g);
    } else {
      MappedPermutes(IdOf, Filter(IsLive, t), Filter(IsLive, rest));
    }
  }

  // --------------------------------------------------------------------------
  // Sorted identity lists
  // --------------------------------------------------------------------------

  lemma {:induction false} BelowTotal(m: multiset<u64>)
    ensures StrictTotal(Below, m)
  {
  }

  lemma {:induction false} LiveIdsSorted(gs: seq<Grant>)
    ensures Sorted(Below, LiveIds(gs))
  {
    BelowTotal(multiset(Mapped(IdOf, Filter(IsLive, gs))));
    SortBySorts(Below, Mapped(IdOf, Filter(IsLive, gs)));
  }

  // Any sorted list with the same elements is the list of live identities.
  lemma {:induction false} AreLiveIds(ids: seq<u64>, gs: seq<Grant>)
    requires Sorted(Below, ids) && multiset(ids) == multiset(LiveIds(gs))
    ensures ids == LiveIds(gs)
  {
    hide LiveIds, Sorted;
    LiveIdsSorted(gs);
    BelowTotal(multiset(ids));
    SortedIsUnique(Below, multiset(ids), ids, LiveIds(gs));
  }

  lemma {:induction false} ErasedSorted(ids: seq<u64>, k: nat)
    requires Sorted(Below, ids) && k < |ids|
    ensures Sorted(Below, ids[..k] + ids[k + 1..])
  {
    var t := ids[..k] + ids[k + 1..];
    assert forall i | 0 <= i < |t| :: t[i] == ids[if i < k then i else i + 1];
  }

  lemma {:induction false} InsertedIds(ids: seq<u64>, id: u64, gs: seq<Grant>)
    requires multiset(ids + [id]) == multiset(LiveIds(gs))
    ensures SortBy(Below, ids + [id]) == LiveIds(gs)
  {
    hide LiveIds, SortBy;
    BelowTotal(multiset(ids + [id]));
    SortBySorts(Below, ids + [id]);
    AreLiveIds(SortBy(Below, ids + [id]), gs);
  }

  // The first position not below the identity (std::lower_bound).
  method LowerBound(ids: seq<u64>, id: u64) returns (k: nat)
    ensures k <= |ids| && (forall j | 0 <= j < k :: ids[j] < id) && (k < |ids| ==> ids[k] >= id)
  {
    k := 0;
    while k < |ids| && ids[k] < id
      invariant k <= |ids| && forall j | 0 <= j < k :: ids[j] < id
    {
      k := k + 1;
    }
  }

  // Past the lower bound of a sorted list the identity stands there or nowhere.
  lemma {:induction false} ThereOrNowhere(ids: seq<u64>, id: u64, k: nat)
    requires Sorted(Below, ids) && k <= |ids| && (forall j | 0 <= j < k :: ids[j] < id) && (k < |ids| ==> ids[k] > id)
    ensures id !in ids
  {
    forall j | 0 <= j < |ids| ensures ids[j] != id {
      if k < j { assert !Below(ids[j], ids[k]); }
    }
  }

  // The sorted list without one identity.
  method Erased(ids: seq<u64>, id: u64) returns (r: seq<u64>)
    requires Sorted(Below, ids)
    ensures Sorted(Below, r) && multiset(r) == multiset(ids) - multiset{id}
  {
    hide Sorted;
    var k := LowerBound(ids, id);
    if k < |ids| && ids[k] == id {
      ErasedSorted(ids, k);
      RemoveElement(ids, k);
      r := ids[..k] + ids[k + 1..];
    } else {
      ThereOrNowhere(ids, id, k);
      r := ids;
    }
  }

  // --------------------------------------------------------------------------
  // Rebuilding
  // --------------------------------------------------------------------------

  // The index over gs[..n]: the first position of an identity wins.
  function IndexUpTo(gs: seq<Grant>, n: nat): map<u64, nat>
    requires n <= |gs|
  {
    if n == 0 then map[]
    else
      var index := IndexUpTo(gs, n - 1);
      if gs[n - 1].id in index then index else index[gs[n - 1].id := n - 1]
  }

  function IndexOf(gs: seq<Grant>): map<u64, nat> {
    IndexUpTo(gs, |gs|)
  }

  lemma {:induction false} IndexUpToMeans(gs: seq<Grant>, n: nat)
    requires n <= |gs| && DistinctBy(GrantKey, gs)
    ensures Indexes(IndexUpTo(gs, n), gs[..n])
  {
    if n > 0 {
      IndexUpToMeans(gs, n - 1);
      NotYetIndexed(IndexUpTo(gs, n - 1), gs, n - 1);
      IndexesPush(IndexUpTo(gs, n - 1), gs[..n - 1], gs[n - 1]);
      assert gs[..n] == gs[..n - 1] + [gs[n - 1]];
    }
  }

  // Where identities are distinct, the rebuilt index holds every position.
  lemma {:induction false} RebuiltIndexes(gs: seq<Grant>)
    requires DistinctBy(GrantKey, gs)
    ensures Indexes(IndexOf(gs), gs)
  {
    IndexUpToMeans(gs, |gs|);
    assert gs[..|gs|] == gs;
  }

  lemma {:induction false} LiveNext(gs: seq<Grant>, i: nat)
    requires i < |gs|
    ensures var ids := Mapped(IdOf, Filter(IsLive, gs[..i]));
      Mapped(IdOf, Filter(IsLive, gs[..i + 1])) == if gs[i].Live() then ids + [gs[i].id] else ids
  {
    hide Filter;
    assert gs[..i + 1] == gs[..i] + [gs[i]];
    FilterPush(IsLive, gs[..i], gs[i]);
    if gs[i].Live() {
      MappedPush(IdOf, Filter(IsLive, gs[..i]), gs[i]);
    } else {
      assert Filter(IsLive, gs[..i]) + [] == Filter(IsLive, gs[..i]);
    }
  }

  lemma {:induction false} IsIndexed(index: map<u64, nat>, gs: seq<Grant>, i: nat)
    requires Indexes(index, gs) && i < |gs|
    ensures gs[i].id in index
  {
  }

  class GrantTable {
    const maxLive: nat
    var index: map<u64, nat>
    var liveIds: seq<u64>

    ghost predicate Valid()
      reads this
    {
      Sorted(Below, liveIds)
    }

    // The live identities are those of this grant vector.
    ghost predicate Counts(gs: seq<Grant>)
      reads this
    {
      liveIds == LiveIds(gs)
    }

    // The table describes this grant vector.
    ghost predicate Mirrors(gs: seq<Grant>)
      reads this
    {
      Indexes(index, gs) && Counts(gs) && DistinctBy(GrantKey, gs)
    }

    constructor (maxLive: nat)
      ensures this.maxLive == maxLive && Valid() && Mirrors([])
    {
      this.maxLive := maxLive;
      index, liveIds := map[], [];
    }

    method Rebuild(gs: seq<Grant>)
      modifies this
      ensures Valid() && index == IndexOf(gs) && Counts(gs)
      ensures DistinctBy(GrantKey, gs) ==> Mirrors(gs)
    {
      hide SortBy, Filter, DistinctBy, Sorted, Indexes;
      index, liveIds := map[], [];
      NoIds(gs);
      for i := 0 to |gs|
        invariant index == IndexUpTo(gs, i)
        invariant liveIds == Mapped(IdOf, Filter(IsLive, gs[..i]))
      {
        LiveNext(gs, i);
        if gs[i].id !in index { index := index[gs[i].id := i]; }
        if gs[i].Live() { liveIds := liveIds + [gs[i].id]; }
      }
      assert gs[..|gs|] == gs;
      liveIds := SortBy(Below, liveIds);
      LiveIdsSorted(gs);
      if DistinctBy(GrantKey, gs) { RebuiltIndexes(gs); }
    }

    // Records a grant just appended to the vector.
    method NoteInsert(g: Grant, ghost gs: seq<Grant>) returns (status: Option<ErrorCode>)
      requires Valid()
      modifies this
      ensures Valid()
      ensures status == if g.id in old(index) then Some(AlreadyExists)
                        else if g.Live() && |old(liveIds)| >= maxLive then Some(Exhausted) else None
      ensures status.Some? ==> index == old(index) && liveIds == old(liveIds)
      ensures status.None? ==> index == old(index)[g.id := |old(index)|]
      ensures status.None? && old(Counts(gs)) ==> Counts(gs + [g])
      ensures status.None? && old(Mirrors(gs)) ==> Mirrors(gs + [g])
      ensures old(Mirrors(gs)) ==> (status == Some(AlreadyExists) <==> Known(g.id, gs))
    {
      hide SortBy, LiveIds, DistinctBy, Indexes, Known, Sorted;
      if Mirrors(gs) { UnindexedIsNew(index, gs, g.id); }
      if g.id in index { return Some(AlreadyExists); }
      if g.Live() && |liveIds| >= maxLive { return Some(Exhausted); }
      if Mirrors(gs) {
        IndexesPush(index, gs, g);
        PushDistinct(gs, g);
      }
      index := index[g.id := |index|];
      LiveIdsPush(gs, g);
      if g.Live() {
        BelowTotal(multiset(liveIds + [g.id]));
        SortBySorts(Below, liveIds + [g.id]);
        if Counts(gs) { InsertedIds(liveIds, g.id, gs + [g]); }
        liveIds := SortBy(Below, liveIds + [g.id]);
      } else if Counts(gs) {
        assert liveIds + [] == liveIds;
        AreLiveIds(liveIds, gs + [g]);
      }
      status := None;
    }

    // Records a transition; i is where the grant stands in the vector, and g what it became.
    method NoteTransition(id: u64, was: GrantState, next: GrantState, ghost gs: seq<Grant>, ghost i: nat,
                          ghost g: Grant)
      returns (status: Option<ErrorCode>)
      requires Valid()
      modifies this
      ensures Valid() && index == old(index) && status == if id in index then None else Some(NotFound)
      ensures multiset(liveIds) == if status.None? && !Terminal(was)
        && Terminal(next) then multiset(old(liveIds)) - multiset{id}
                                   else multiset(old(liveIds))
      ensures status.None? && old(Counts(gs)) && Follows(gs, i, id, was, next, g) ==> Counts(gs[i := g])
      ensures old(Mirrors(gs)) && Follows(gs, i, id, was, next, g) ==> status.None? && Mirrors(gs[i := g])
    {
      hide SortBy, LiveIds, DistinctBy, Indexes, Sorted;
      if Mirrors(gs) && Follows(gs, i, id, was, next, g) {
        IsIndexed(index, gs, i);
        IndexesUpdate(index, gs, i, g);
        UpdateDistinct(gs, i, g);
      }
      if id !in index { return Some(NotFound); }
      if !Terminal(was) && Terminal(next) { liveIds := Erased(liveIds, id); }
      if old(Counts(gs)) && Follows(gs, i, id, was, next, g) {
        LiveIdsUpdate(gs, i, g);
        AreLiveIds(liveIds, gs[i := g]);
      }
      status := None;
    }

    // The indexed position of an identity: a scan's answer while the table mirrors the
    // vector.
    method Find(gs: seq<Grant>, id: u64) returns (r: Option<Grant>)
      ensures r == Lookup(index, gs, id)
      ensures Mirrors(gs) ==> r == ScanFor(gs, id)
    {
      hide LiveIds, DistinctBy, Indexes;
      if Mirrors(gs) { AgreesWhenAligned(index, gs, gs, id); }
      if id !in index || index[id] >= |gs| { return None; }
      r := Some(gs[index[id]]);
    }
  }

  // The grant at position i, live until now, moves on to g; `was` is any live state.
  ghost predicate Follows(gs: seq<Grant>, i: nat, id: u64, was: GrantState, next: GrantState, g: Grant) {
    i < |gs| && gs[i].id == id == g.id && gs[i].Live() && !Terminal(was) && g.state == next
  }

  lemma {:induction false} NoIds(gs: seq<Grant>)
    ensures Indexes(map[], gs[..0]) && Mapped(IdOf, Filter(IsLive, gs[..0])) == []
  {
  }

  lemma {:induction false} NotYetIndexed(index: map<u64, nat>, gs: seq<Grant>, i: nat)
    requires i < |gs| && Indexes(index, gs[..i]) && DistinctBy(GrantKey, gs)
    ensures gs[i].id !in index
  {
    forall k | 0 <= k < i ensures gs[k].id != gs[i].id {
      assert GrantKey(gs[k]) != GrantKey(gs[i]);
    }
  }

  lemma {:induction false} PushDistinct(gs: seq<Grant>, g: Grant)
    requires DistinctBy(GrantKey, gs) && !Known(g.id, gs)
    ensures DistinctBy(GrantKey, gs + [g])
  {
    assert gs + [] == gs;
    PushBoth(gs, gs, [], g);
  }
}
