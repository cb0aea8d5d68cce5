// What bounded retention keeps (prune in src/store/state_store.cpp): everything live, and
// of everything else the newest.
module Retention {
  import opened Core
  import opened Grants
  import opened Store
  import opened Closure
  import opened Sorting
  import opened Sums

  // gone is what s has and kept has not, and nothing gone is newer than anything kept.
  ghost predicate NewestStay<T>(s: seq<T>, kept: seq<T>, gone: seq<T>, tick: T -> nat, id: T -> nat) {
    && multiset(s) == multiset(kept + gone)
    && forall k, g | k in kept && g in gone :: tick(g) < tick(k) || (tick(g) == tick(k) && id(g) <= id(k))
  }

  // The newest first, and of equally old ones the one with the higher identity.
  ghost predicate ByAge<T(!new)>(newer: (T, T) -> bool, tick: T -> nat, id: T -> nat) {
    forall a, b :: newer(a, b) <==> tick(a) > tick(b) || (tick(a) == tick(b) && id(a) > id(b))
  }

  lemma {:induction false} AgeIsWeak<T(!new)>(newer: (T, T) -> bool, s: seq<T>, tick: T -> nat, id: T -> nat)
    requires ByAge(newer, tick, id)
    ensures StrictWeak(newer, multiset(s))
  {
  }

  // The n newest stay.
  lemma {:induction false} TopStays<T(!new)>(newer: (T, T) -> bool, s: seq<T>, n: nat, tick: T -> nat, id: T -> nat)
    requires n <= |s| && ByAge(newer, tick, id)
    ensures var byAge := SortBy(newer, s);
      |byAge| == |s| && NewestStay(s, byAge[..n], byAge[n..], tick, id)
  {
    hide SortBy, StrictWeak;
    AgeIsWeak(newer, s, tick, id);
    SortByWeak(newer, s);
    var byAge := SortBy(newer, s);
    SameElements(byAge, s);
    assert byAge == byAge[..n] + byAge[n..];
    forall k, g | k in byAge[..n] && g in byAge[n..]
      ensures tick(g) < tick(k) || (tick(g) == tick(k) && id(g) <= id(k)) {
      var i :| 0 <= i < n && byAge[i] == k;
      var j :| n <= j < |byAge| && byAge[j] == g;
      assert !newer(byAge[j], byAge[i]);
    }
  }

  lemma {:induction false} SameKept<T>(s: seq<T>, kept: seq<T>, sorted: seq<T>, gone: seq<T>, tick: T -> nat,
                                       id: T -> nat)
    requires NewestStay(s, kept, gone, tick, id) && multiset(sorted) == multiset(kept)
    ensures NewestStay(s, sorted, gone, tick, id) && |sorted| == |kept|
  {
    SameElements(sorted, kept);
  }

  // --------------------------------------------------------------------------
  // Grants
  // --------------------------------------------------------------------------

  function GrantTick(g: Grant): nat { g.lastTransition }
  function GrantNumber(g: Grant): nat { g.id }
  function FenceTick(f: Fence): nat { f.tick }
  function FenceNumber(f: Fence): nat { f.id }
  function DecisionTick(d: Decision): nat { d.tick }
  function DecisionNumber(d: Decision): nat { d.id }
  function RestorationTick(x: Restoration): nat { x.tick }
  function RestorationNumber(x: Restoration): nat { x.grant }

  // Every live grant stays and nothing ended that goes is newer than anything ended that
  // stays; as many stay as are retained, and more only if more are live.
  ghost predicate GrantsRetained(gs: seq<Grant>, kept: seq<Grant>, gone: seq<Grant>, cfg: Config) {
    && multiset(gs) == multiset(kept + gone) && (forall g | g in gone :: !g.Live())
    && (forall k, g | k in kept && !k.Live() && g in gone ::
          g.lastTransition < k.lastTransition || (g.lastTransition == k.lastTransition && g.id <= k.id))
    && |kept| == Max(Count(IsLive, gs), Min(|gs|, cfg.maxGrants))
    && forall i, j | 0 <= i < j < |kept| :: kept[i].id <= kept[j].id
  }

  // The ended grants that stay: those the budget has room for.
  function Spared(gs: seq<Grant>, cfg: Config): (n: nat)
    ensures n <= |EndedByAge(gs)|
  {
    |EndedByAge(gs)| - Dropped(gs, cfg)
  }

  lemma {:induction false} SparedSize(gs: seq<Grant>, cfg: Config)
    ensures |gs| == Count(IsLive, gs) + |EndedByAge(gs)|
    ensures Count(IsLive, gs) + Spared(gs, cfg) == Max(Count(IsLive, gs), Min(|gs|, cfg.maxGrants))
  {
    hide SortBy, Filter, Count;
    LiveAndEnded(gs);
    SameElements(gs, Filter(IsLive, gs) + Filter(IsEnded, gs));
    LiveIsCounted(gs);
    SameElements(EndedByAge(gs), Filter(IsEnded, gs));
  }

  lemma {:induction false} KeptParts(gs: seq<Grant>, cfg: Config)
    ensures var byAge, n := EndedByAge(gs), Spared(gs, cfg);
      && multiset(KeptGrants(gs, cfg)) == multiset(Filter(IsLive, gs) + byAge[..n])
      && multiset(gs) == multiset(KeptGrants(gs, cfg) + byAge[n..])
  {
    hide SortBy, Filter, Count, Dropped;
    var live, ended, byAge, n := Filter(IsLive, gs), Filter(IsEnded, gs), EndedByAge(gs), Spared(gs, cfg);
    LiveAndEnded(gs);
    SplitTail(live, byAge, ended, n);
    assert multiset(KeptGrants(gs, cfg) + byAge[n..]) == multiset(live + byAge[..n] + byAge[n..]);
  }

  lemma {:induction false} EndedIsSpared(gs: seq<Grant>, cfg: Config, k: Grant)
    requires k in KeptGrants(gs, cfg) && !k.Live()
    ensures k in EndedByAge(gs)[..Spared(gs, cfg)]
  {
    hide KeptGrants, Filter, EndedByAge, Spared;
    KeptParts(gs, cfg);
    SameElements(KeptGrants(gs, cfg), Filter(IsLive, gs) + EndedByAge(gs)[..Spared(gs, cfg)]);
  }

  lemma {:induction false} NewestGrantsStay(gs: seq<Grant>, cfg: Config) returns (gone: seq<Grant>)
    ensures GrantsRetained(gs, KeptGrants(gs, cfg), gone, cfg)
  {
    hide SortBy, Filter, Count, KeptGrants, Dropped;
    var byAge, n, kept := EndedByAge(gs), Spared(gs, cfg), KeptGrants(gs, cfg);
    gone := byAge[n..];
    KeptParts(gs, cfg);
    SparedSize(gs, cfg);
    LiveIsCounted(gs);
    SameElements(kept, Filter(IsLive, gs) + byAge[..n]);
    SameElements(byAge, Filter(IsEnded, gs));
    assert ByAge(NewerGrant, GrantTick, GrantNumber);
    TopStays(NewerGrant, Filter(IsEnded, gs), n, GrantTick, GrantNumber);
    forall g | g in gone ensures !g.Live() { assert g in byAge && IsEnded(g); }
    forall k, g | k in kept && !k.Live() && g in gone
      ensures GrantTick(g) < GrantTick(k) || (GrantTick(g) == GrantTick(k) && GrantNumber(g) <= GrantNumber(k)) {
      EndedIsSpared(gs, cfg, k);
    }
    KeptInOrder(gs, cfg);
  }

  lemma {:induction false} KeptInOrder(gs: seq<Grant>, cfg: Config)
    ensures var kept := KeptGrants(gs, cfg); forall i, j | 0 <= i < j < |kept| :: kept[i].id <= kept[j].id
  {
    hide SortBy, Filter, EndedByAge, Budget;
    IdOrder(KeptGrants(gs, cfg), Filter(IsLive, gs) + EndedByAge(gs)[..|EndedByAge(gs)| - Dropped(gs, cfg)]);
  }

  lemma {:induction false} IdOrder(kept: seq<Grant>, s: seq<Grant>)
    requires kept == SortBy(GrantBefore, s)
    ensures forall i, j | 0 <= i < j < |kept| :: kept[i].id <= kept[j].id
  {
    hide SortBy;
    SortByWeak(GrantBefore, s);
    assert forall i, j | 0 <= i < j < |kept| :: !GrantBefore(kept[j], kept[i]);
  }

  lemma {:induction false} LiveIsCounted(gs: seq<Grant>)
    ensures Count(IsLive, gs) == |Filter(IsLive, gs)|
  {
    if gs != [] { LiveIsCounted(gs[1..]); }
  }

  // --------------------------------------------------------------------------
  // History
  // --------------------------------------------------------------------------

  // At most n stay, and they are the newest.
  ghost predicate Retained<T>(s: seq<T>, kept: seq<T>, gone: seq<T>, n: nat, tick: T -> nat, id: T -> nat) {
    NewestStay(s, kept, gone, tick, id) && |kept| == Min(|s|, n)
  }

  lemma {:induction false} NewestFencesStay(s: Durable, cfg: Config) returns (gone: seq<Fence>)
    ensures Retained(s.fences, PruneFences(s, cfg).state.fences, gone, cfg.maxFences, FenceTick, FenceNumber)
  {
    hide SortBy;
    assert ByAge(NewerFence, FenceTick, FenceNumber);
    if |s.fences| <= cfg.maxFences {
      gone := [];
      assert s.fences + [] == s.fences;
    } else {
      TopStays(NewerFence, s.fences, cfg.maxFences, FenceTick, FenceNumber);
      var byAge := FencesByAge(s.fences);
      gone := byAge[cfg.maxFences..];
      var kept := byAge[..cfg.maxFences];
      SameKept(s.fences, kept, SortBy(FenceBefore, kept), gone, FenceTick, FenceNumber);
    }
  }

  lemma {:induction false} NewestDecisionsStay(s: Durable, cfg: Config) returns (gone: seq<Decision>)
    ensures Retained(s.decisions, PruneHistory(s, cfg).decisions, gone, cfg.maxDecisions, DecisionTick, DecisionNumber)
  {
    hide SortBy;
    assert ByAge(NewerDecision, DecisionTick, DecisionNumber);
    if |s.decisions| <= cfg.maxDecisions {
      gone := [];
      assert s.decisions + [] == s.decisions;
    } else {
      TopStays(NewerDecision, s.decisions, cfg.maxDecisions, DecisionTick, DecisionNumber);
      var byAge := SortBy(NewerDecision, s.decisions);
      gone := byAge[cfg.maxDecisions..];
      var kept := byAge[..cfg.maxDecisions];
      SameKept(s.decisions, kept, SortBy(DecisionBefore, kept), gone, DecisionTick, DecisionNumber);
    }
  }

  lemma {:induction false} NewestRestorationsStay(s: Durable, cfg: Config) returns (gone: seq<Restoration>)
    ensures Retained(s.restorations, PruneHistory(s, cfg).restorations, gone, cfg.maxDecisions, RestorationTick,
                     RestorationNumber)
  {
    hide SortBy;
    assert ByAge(NewerRestoration, RestorationTick, RestorationNumber);
    if |s.restorations| <= cfg.maxDecisions {
      gone := [];
      assert s.restorations + [] == s.restorations;
    } else {
      TopStays(NewerRestoration, s.restorations, cfg.maxDecisions, RestorationTick, RestorationNumber);
      gone := SortBy(NewerRestoration, s.restorations)[cfg.maxDecisions..];
    }
  }

  // --------------------------------------------------------------------------
  // The whole of it
  // --------------------------------------------------------------------------

  // What a pruning that succeeds leaves of the four lists, and that it leaves the rest.
  lemma {:induction false} PruningKeepsNewest(s: Durable, cfg: Config)
    returns (grants: seq<Grant>, fences: seq<Fence>, decisions: seq<Decision>, restorations: seq<Restoration>)
    requires Prune(s, cfg).status.None?
    ensures var t := Prune(s, cfg).state;
      && GrantsRetained(s.grants, t.grants, grants, cfg)
      && Retained(s.fences, t.fences, fences, cfg.maxFences, FenceTick, FenceNumber)
      && Retained(s.decisions, t.decisions, decisions, cfg.maxDecisions, DecisionTick, DecisionNumber)
      && Retained(s.restorations, t.restorations, restorations, cfg.maxDecisions, RestorationTick, RestorationNumber)
      && t == s.(grants := t.grants, fences := t.fences, decisions := t.decisions, restorations := t.restorations,
                 counters := s.counters.(pruned := s.counters.pruned + |grants|,
                                         fencesPruned := s.counters.fencesPruned + |fences|))
  {
    hide SortBy, KeptGrants, Dropped, FencesByAge, GrantsRetained, NewestStay;
    grants := NewestGrantsStay(s.grants, cfg);
    GoneIsDropped(s.grants, cfg, grants);
    var g := PruneGrants(s, cfg).state;
    fences := NewestFencesStay(g, cfg);
    GoneCount(g.fences, PruneFences(g, cfg).state.fences, fences, FenceTick, FenceNumber);
    var f := PruneFences(g, cfg).state;
    decisions := NewestDecisionsStay(f, cfg);
    restorations := NewestRestorationsStay(f, cfg);
  }

  lemma {:induction false} GoneCount<T>(s: seq<T>, kept: seq<T>, gone: seq<T>, tick: T -> nat, id: T -> nat)
    requires NewestStay(s, kept, gone, tick, id)
    ensures |gone| == |s| - |kept|
  {
    SameElements(s, kept + gone);
  }

  lemma {:induction false} GoneIsDropped(gs: seq<Grant>, cfg: Config, gone: seq<Grant>)
    requires GrantsRetained(gs, KeptGrants(gs, cfg), gone, cfg)
    ensures |gone| == Dropped(gs, cfg)
  {
    hide KeptGrants, Dropped, Count;
    var other := RetentionSplits(gs, cfg);
    SameElements(gs, KeptGrants(gs, cfg) + gone);
    SameElements(gs, KeptGrants(gs, cfg) + other);
  }
}
