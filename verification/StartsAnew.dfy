// What the coordinator starts with (Coordinator::create in src/runtime/coordinator.cpp).
module StartsAnew {
  import opened Core
  import opened Grants
  import opened Store
  import opened GrantTables
  import opened Coordinators
  import opened BootFencing
  import opened Histories

  // The authority in force and what it is exercised over.
  ghost predicate SameRule(s: Durable, t: Durable) {
    && t.boot == s.boot && t.term == s.term && t.lastCommit == s.lastCommit && t.policy == s.policy
    && t.fabricGeneration == s.fabricGeneration && t.capacityGeneration == s.capacityGeneration
    && t.evidenceGeneration == s.evidenceGeneration && t.contracts == s.contracts
  }

  lemma {:induction false} EndKeepsRule(s: Durable, k: EndKind, f: Fence, env: Env)
    requires Commit(s, GrantEnded(k, f), env).status.None?
    ensures SameRule(s, Commit(s, GrantEnded(k, f), env).state)
  {
    hide Append, GrantAt, Allowed;
    AppendIsApply(s, GrantEnded(k, f), env.full(s.journalRecords), env.cfg);
  }

  lemma {:induction false} FencingKeepsRule(c: Coord, ids: seq<u64>, clock: u64, env: Env)
    requires FenceAll(c, ids, clock, env).Ok?
    ensures SameRule(c.state, FenceAll(c, ids, clock, env).value.state)
    ensures FenceAll(c, ids, clock, env).value.nextGrant == c.nextGrant
    ensures FenceAll(c, ids, clock, env).value.nextAttempt == c.nextAttempt
    decreases |ids|
  {
    hide Commit, Lookup;
    if ids != [] {
      match Lookup(c.index, c.state.grants, ids[0])
      case None => FencingKeepsRule(c, ids[1..], clock, env);
      case Some(g) =>
        if c.nextFence != 0 {
          EndKeepsRule(c.state, ByFence, BootFence(c, g, clock).fence, env);
          FencingKeepsRule(Fenced1(c, g, clock, env), ids[1..], clock, env);
        }
    }
  }

  lemma {:induction false} BootSets(s: Durable, boot: u64, term: u64, tick: u64, env: Env)
    requires Commit(s, BootAdvanced(boot, term, tick), env).status.None?
    ensures var t := Commit(s, BootAdvanced(boot, term, tick), env).state;
      SameRule(s.(boot := boot, term := term, lastCommit := tick), t)
  {
    hide Append;
    AppendIsApply(s, BootAdvanced(boot, term, tick), env.full(s.journalRecords), env.cfg);
  }

  lemma {:induction false} BootstrapsSet(s: Durable, env: Env)
    requires Bootstraps(s, env).status.None?
    ensures SameRule(
      s.(fabricGeneration := Max(1, s.fabricGeneration), capacityGeneration := Max(1, s.capacityGeneration),
         evidenceGeneration := Max(1, s.evidenceGeneration)),
      Bootstraps(s, env).state)
  {
    hide Commit;
    var a := Bootstrap(s, s.fabricGeneration == 0, FabricAdvanced(1), env);
    if s.fabricGeneration == 0 { GenerationSet(s, FabricAdvanced(1), env); }
    var b := Bootstrap(a.state, s.capacityGeneration == 0, CapacityAdvanced(1), env);
    if s.capacityGeneration == 0 { GenerationSet(a.state, CapacityAdvanced(1), env); }
    if s.evidenceGeneration == 0 { GenerationSet(b.state, EvidenceAdvanced(1), env); }
  }

  lemma {:induction false} GenerationSet(s: Durable, r: Record, env: Env)
    requires (r.FabricAdvanced? || r.CapacityAdvanced? || r.EvidenceAdvanced?) && Commit(s, r, env).status.None?
    ensures SameRule(
      match r
      case FabricAdvanced(g) => s.(fabricGeneration := g)
      case CapacityAdvanced(g) => s.(capacityGeneration := g)
      case EvidenceAdvanced(g) => s.(evidenceGeneration := g),
      Commit(s, r, env).state)
  {
    hide Append;
    AppendIsApply(s, r, env.full(s.journalRecords), env.cfg);
  }

  // A coordinator that starts does so in the next boot and the next term, every generation
  // set, with the contracts and the policy it was left, and gives identities above all that
  // were given before.
  lemma {:induction false} StartsInNewEpoch(rep: Durable, env: Env)
    requires Create(rep, env).Ok?
    ensures var s := Create(rep, env).value.state;
      && s.boot == rep.boot + 1 && s.term == rep.term + 1 && s.lastCommit == Max(1, rep.lastCommit)
      && s.fabricGeneration == Max(1, rep.fabricGeneration) && s.capacityGeneration == Max(1, rep.capacityGeneration)
      && s.evidenceGeneration == Max(1, rep.evidenceGeneration)
      && s.contracts == rep.contracts && s.policy == rep.policy
    ensures var c := Create(rep, env).value;
      && c.nextGrant == (if rep.grantHigh == U64_MAX then 0 else rep.grantHigh + 1) && c.nextAttempt == 1
  {
    hide Commit, FenceAll, Bootstraps, LiveNow, IndexOf;
    BootSets(rep, rep.boot + 1, rep.term + 1, Clock(rep), env);
    BootstrapsSet(Commit(rep, BootAdvanced(rep.boot + 1, rep.term + 1, Clock(rep)), env).state, env);
    var c := Handed(rep, env);
    FencingKeepsRule(c, LiveNow(c.state.grants), Clock(rep), env);
  }
}
