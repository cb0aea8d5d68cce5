// Primitives shared by every component: 64-bit bounds, checked arithmetic,
// optional values and typed failures.
module Core {

  const U16_MAX: nat := 0xFFFF
  const U32_MAX: nat := 0xFFFF_FFFF
  const U64_MAX: nat := 0xFFFF_FFFF_FFFF_FFFF

  type byte = x: nat | x < 256
  type u16 = x: nat | x <= U16_MAX
  type u32 = x: nat | x <= U32_MAX
  type u64 = x: nat | x <= U64_MAX

  datatype Option<+T> = None | Some(value: T)

  datatype ErrorCode =
    | InvalidArgument | OutOfRange | CapacityExceeded | Overflow | NotFound | AlreadyExists
    | InvalidState | Unsupported | Stale | Invalid | Corrupt | Truncated | VersionUnsupported
    | IntegrityFailure | SequenceRegression | ReplayDetected | InvalidEnum | TrailingGarbage
    | SearchLimitReached | Refused | Exhausted | Underflow

  // Why an obligation was approved, degraded or refused.
  datatype Reason =
    | NoReason | FabricCapabilityShortfall | FabricPartitioned
    | EvidenceUnknown | EvidenceStale | EvidenceConflict | EvidenceInvalid | EvidenceNotSupported
    | ProtectedObligationUnmet | PolicyNoRule | PolicyEnvelopeExceeded | PolicyRequiresProtection
    | ResourceExhausted | ScopeUnknown | NoRuleForServiceClass
    | ConcessionWithinEnvelope | OriginalObligationsSupportable

  datatype Result<+T> = Ok(value: T) | Err(error: ErrorCode)

  // An unsigned 64-bit addition that reports overflow instead of wrapping.
  function CheckedAdd(a: nat, b: nat): (r: Option<nat>) {
    if a + b > U64_MAX then None else Some(a + b)
  }

  function CheckedSub(a: nat, b: nat): (r: Option<nat>) {
    if a < b then None else Some(a - b)
  }

  function CheckedMul(a: nat, b: nat): (r: Option<nat>) {
    if a * b > U64_MAX then None else Some(a * b)
  }

  function Saturating(v: Option<nat>): (r: nat) {
    match v
    case Some(x) => x
    case None => U64_MAX
  }

  function Min(a: nat, b: nat): (r: nat) {
    if a <= b then a else b
  }

  function Max(a: nat, b: nat): (r: nat) {
    if a >= b then a else b
  }
}
