// Degraded authority: bindings, grants and their lifecycle (src/domain/authority.cpp,
// include/dmf/grant.hpp).
module Grants {
  import opened Core
  import opened Guarantees

  datatype AuthorityVector = AuthorityVector(term: u64, boot: u64, fabric: u64, capacity: u64, policy: u64,
    evidence: u64)

  datatype Binding = Binding(
    vector: AuthorityVector, contract: u64, contractGeneration: u64, subject: u64, subjectGeneration: u64, scope: u64)

  datatype GrantState = Issued | Acknowledged | Applied | Fenced | Expired | Revoked

  predicate Terminal(s: GrantState) {
    s.Fenced? || s.Expired? || s.Revoked?
  }

  // grant_transition_allowed.
  predicate Allowed(current: GrantState, next: GrantState) {
    match current
    case Issued => !next.Issued?
    case Acknowledged => !next.Issued? && !next.Acknowledged?
    case Applied => Terminal(next)
    case _ => false
  }

  // How far along its one-way lifecycle a grant is.
  function Stage(s: GrantState): nat {
    match s
    case Issued => 0
    case Acknowledged => 1
    case Applied => 2
    case _ => 3
  }

  // Legal transitions are exactly the strictly forward ones.
  lemma {:induction false} AllowedIsForward(s: GrantState, t: GrantState)
    ensures Allowed(s, t) <==> Stage(s) < Stage(t)
  {
  }

  datatype Grant = Grant(
    id: u64, binding: Binding, original: GuaranteeSet, degraded: GuaranteeSet, sequence: u64, lastAttempt: u64,
    issuedTick: u64, expiresTick: u64, lastTransition: u64, state: GrantState)
  {
    predicate Live() { !Terminal(state) }
  }

  datatype Fence = Fence(id: u64, grant: u64, prior: Binding, current: Binding, tick: u64)
}
