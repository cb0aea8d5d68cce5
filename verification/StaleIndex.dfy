// What retention does to the grant index (src/runtime/evidence_store.cpp and the commits of
// src/runtime/coordinator.cpp): exactly when the commit of one record leaves an index
// that was exact unable to answer for the grants that remain.
module StaleIndex {
  import opened Core
  import opened Grants
  import opened Store
  import opened Closure
  import opened GrantTables
  import opened Coordinators
  import opened CoordinatorRuns

  // The index answers for hs, for every identity, as a scan would.
  ghost predicate Answers(index: map<u64, nat>, hs: seq<Grant>) {
    forall id: u64 :: Lookup(index, hs, id) == ScanFor(hs, id)
  }

  // A grant that is kept stands after one that is dropped.
  ghost predicate KeptAfterDropped(gs: seq<Grant>, hs: seq<Grant>) {
    exists i, j | 0 <= i < j < |gs| :: gs[i] !in hs && gs[j] in hs
  }

  ghost predicate PartOf(hs: seq<Grant>, gs: seq<Grant>) {
    forall h | h in hs :: h in gs
  }

  // --------------------------------------------------------------------------
  // Positions
  // --------------------------------------------------------------------------

  // Climbing identities place a grant: one identity, one position.
  lemma {:induction false} ClimbPlaces(gs: seq<Grant>, i: nat, j: nat)
    requires IdsClimb(gs) && i < |gs| && j < |gs| && gs[i].id <= gs[j].id
    ensures i <= j
  {
  }

  // Where nothing kept follows anything dropped, what is kept is a prefix.
  lemma {:induction false} PrefixKept(gs: seq<Grant>, hs: seq<Grant>, i: nat)
    requires IdsClimb(gs) && IdsClimb(hs) && PartOf(hs, gs) && !KeptAfterDropped(gs, hs) && i < |hs|
    ensures i < |gs| && hs[i] == gs[i]
    decreases i
  {
    assert hs[i] in hs;
    var m :| 0 <= m < |gs| && gs[m] == hs[i];
    if i > 0 {
      PrefixKept(gs, hs, i - 1);
      ClimbPlaces(gs, i - 1, m);
    }
    if m > i {
      assert gs[i] in hs;
      var k :| 0 <= k < |hs| && hs[k] == gs[i];
      ClimbPlaces(hs, k, i);
      if k < i {
        PrefixKept(gs, hs, k);
        ClimbPlaces(gs, i, k);
      }
    }
  }

  // And a prefix has nothing kept after anything dropped.
  lemma {:induction false} AlignedKeepsPrefix(gs: seq<Grant>, hs: seq<Grant>, i: nat, j: nat)
    requires IdsClimb(gs) && PartOf(hs, gs) && SamePositions(hs, gs) && i < j < |gs| && gs[j] in hs
    ensures gs[i] in hs
  {
    var k :| 0 <= k < |hs| && hs[k] == gs[j];
    ClimbPlaces(gs, j, k);
    assert hs[i] in hs;
    var m :| 0 <= m < |gs| && gs[m] == hs[i];
    ClimbPlaces(gs, m, i);
    ClimbPlaces(gs, i, m);
  }

  // An index exact for gs answers for a part of gs exactly when no kept grant follows a
  // dropped one.
  lemma {:induction false} AnswersIff(index: map<u64, nat>, gs: seq<Grant>, hs: seq<Grant>)
    requires Indexes(index, gs) && IdsClimb(gs) && IdsClimb(hs) && PartOf(hs, gs)
    ensures Answers(index, hs) <==> !KeptAfterDropped(gs, hs)
  {
    hide Indexes, IdsClimb, PartOf, Lookup, ScanFor;
    ClimbIsDistinct(hs);
    LookupAgreesIff(index, gs, hs);
    if SamePositions(hs, gs) {
      forall i, j | 0 <= i < j < |gs| && gs[j] in hs ensures gs[i] in hs {
        AlignedKeepsPrefix(gs, hs, i, j);
      }
    }
    if !KeptAfterDropped(gs, hs) {
      forall i | 0 <= i < |hs| ensures i < |gs| && hs[i] == gs[i] {
        PrefixKept(gs, hs, i);
      }
      if |hs| > 0 { PrefixKept(gs, hs, |hs| - 1); }
    }
  }

  // --------------------------------------------------------------------------
  // One commit
  // --------------------------------------------------------------------------

  ghost predicate SameIdentities(gs: seq<Grant>, hs: seq<Grant>) {
    |gs| == |hs| && forall i | 0 <= i < |gs| :: gs[i].id == hs[i].id
  }

  // A record that issues nothing leaves every identity in its place.
  lemma {:induction false} ApplyKeepsIdentities(s: Durable, r: Record, cfg: Config)
    requires Apply(s, r, cfg).status.None? && !r.GrantIssued?
    ensures SameIdentities(Apply(s, r, cfg).state.grants, s.grants)
  {
    hide GrantAt, ContractAt, Count;
    match r
    case GrantAcknowledged(id, tick, attempt, sequence) => ReportBecomes(s, Acknowledged, id, tick, attempt, sequence);
    case GrantApplied(id, tick, attempt, sequence) => ReportBecomes(s, Applied, id, tick, attempt, sequence);
    case GrantEnded(k, f) => EndedBecomes(s, k, f, cfg);
    case GrantRebound(id, b) => ReboundBecomes(s, id, b);
    case _ =>
  }

  lemma {:induction false} IndexesSame(index: map<u64, nat>, gs: seq<Grant>, hs: seq<Grant>)
    requires Indexes(index, gs) && SameIdentities(hs, gs)
    ensures Indexes(index, hs)
  {
  }

  // The coordinator's index once the record is noted.
  function IndexAfter(index: map<u64, nat>, r: Record): map<u64, nat> {
    if r.GrantIssued? then index[r.grant.id := |index|] else index
  }

  // The record as the coordinator writes it: a grant is issued under the next identity.
  ghost predicate Writes(c: Coord, r: Record) {
    !r.AccountingCheckpoint? && (r.GrantIssued? ==> r.grant.state.Issued? && r.grant.id == c.nextGrant != 0)
  }

  // Before retention the index is exact.
  lemma {:induction false} ExactBeforeRetention(c: Coord, r: Record, cfg: Config)
    requires Good(c) && Writes(c, r) && Apply(Numbered(c.state), r, cfg).status.None?
    ensures var gs := Apply(Numbered(c.state), r, cfg).state.grants;
      Indexes(IndexAfter(c.index, r), gs) && IdsClimb(gs)
  {
    hide Sound, Apply, Indexes, IdsClimb, IdsBelow, AttemptsBelow;
    ApplyClimbs(Numbered(c.state), r, cfg);
    if r.GrantIssued? {
      IssuedGrants(Numbered(c.state), r.grant, cfg);
      FreshIdentity(c);
      IndexesPush(c.index, c.state.grants, r.grant);
    } else {
      ApplyKeepsIdentities(Numbered(c.state), r, cfg);
      IndexesSame(c.index, c.state.grants, Apply(Numbered(c.state), r, cfg).state.grants);
    }
  }

  // From a good coordinator, the commit of a record leaves the index stale exactly when it
  // prunes and retention keeps a grant that follows one it drops.
  lemma {:induction false} StaleExactly(c: Coord, r: Record, env: Env)
    requires Good(c) && Writes(c, r) && Commit(c.state, r, env).status.None?
    ensures var a := Apply(Numbered(c.state), r, env.cfg).state;
      !Answers(IndexAfter(c.index, r), Commit(c.state, r, env).state.grants) <==>
        (&& (Overfull(a, env.cfg) || env.full(c.state.journalRecords))
         && KeptAfterDropped(a.grants, KeptGrants(a.grants, env.cfg)))
  {
    hide Sound, Apply, Commit, Indexes, IdsClimb, IdsBelow, AttemptsBelow, KeptGrants, Dropped, Overfull, Answers,
         KeptAfterDropped;
    GoodParts(c);
    CommitCases(c.state, r, env);
    ExactBeforeRetention(c, r, env.cfg);
    var index, gs := IndexAfter(c.index, r), Apply(Numbered(c.state), r, env.cfg).state.grants;
    KeptIsPart(gs, env.cfg);
    AnswersIff(index, gs, KeptGrants(gs, env.cfg));
    AnswersIff(index, gs, gs);
    NothingKeptAfterDropped(gs);
  }

  lemma {:induction false} KeptIsPart(gs: seq<Grant>, cfg: Config)
    requires IdsClimb(gs)
    ensures PartOf(KeptGrants(gs, cfg), gs) && IdsClimb(KeptGrants(gs, cfg)) && PartOf(gs, gs)
  {
    hide KeptGrants, IdsClimb;
    KeptRemains(gs, cfg);
  }

  lemma {:induction false} NothingKeptAfterDropped(gs: seq<Grant>)
    ensures !KeptAfterDropped(gs, gs)
  {
  }
}
