# Degraded Mode Fabric, modelled in Dafny

Degraded Mode Fabric decides which service obligations survive when a fabric's capability shrinks, commits those
decisions as fenced grants, and journals them. This project models its hard core and proves what that core promises.

- **Allocation** (`BranchAndBound`, `DensityOrder`, `Allocator`, `ScopeAllocation`, `PlanAcceptance`,
  `PlanOptimality`, `PlanReturned`, `FirstFit`, `PolicyActions`, `NonInterference`, `AdmittedService`,
  `ReferenceSolver`, `Validator`, `AcceptedPlans`, `EvidenceStates`, and the guarantee, envelope, evidence and policy
  algebra under them). The pruned search is optimal, an OPTIMAL plan agrees with exhaustive enumeration, every
  returned plan is judged by the independent validator, no contract goes without bandwidth that one ranked below it
  holds, the policy rule that comes first decides, and what is admitted is the meet of what was asked and what was
  observed.
- **Durable state** (`Store`, `StateStores`, `Closure`, `ClosureReports`, `Histories`, `Retention`, `Replay`,
  `Journal`, `RecordCodec`). Counter identities in every reachable state, what each field of the state is in terms of
  the records that led to it, retention of the newest, replay that simulates the live store, and recovery from the
  bytes of a journal cut anywhere or damaged.
- **Coordinator** (`Coordinators`, `CoordinatorRuns`, `CoordinatorRuntime`, `CallsExactly`, `GrantTables`,
  `BootFencing`, `BootConditions`, `StartsAnew`, `SweepSafety`, `Sweeps`, `SweptGrants`, `SweptExactly`; `StaleIndex`,
  `StaleReports`, `StaleBoot`, `StaleSweeps`, `ShapedRuns`). Acknowledgement, application, fencing, sweeping and
  restarts over whole runs, and what happens to them when retention moves grants under the index.
- **Bytes** (`Crc32c`, `Bytes`, `Frames`, `ByteStreams`, `Codec`, `CodecExact`, `CodecRuntime`, `GrantCodec`,
  `GrantCodecRuntime`, `DecisionCodec`). CRC-32C (the polynomial of section 12.1 of RFC 3720), the incremental frame
  decoder, and the canonical codec with its sticky-failing reader: what each writes it reads back, and what each reads
  was written.

Each operation the runtime performs by changing things is a class or a method with loops, proved equal to a pure
function of its inputs or of the old state; the results are then proved of those functions for all inputs and all
runs. `dafny verify dfyconfig.toml` checks the whole project.

## What does not hold

Thirteen things one would expect of the code are false of it. Each is kept as the code has it, with a concrete input or
run that breaks it and the condition under which it does hold.

- A returned plan is not always accepted by the validator: contracts that are inactive or out of scope get two
  entries (`InactiveContractIsRejected`). It is accepted exactly when there are none (`PlanAcceptedIffNoneIdle`).
- A valid, satisfiable request can be refused outright: a soft bandwidth guarantee on an admitted flexible contract
  makes the whole plan fail (`SoftBandwidthRefusesPlan`, exact condition `ReturnedIff`).
- The density comparator is not always an order. It orders every scope of n rigid contracts exactly when n is at most
  18,445; for every larger n there is a scope on which it runs in a circle (`ComparableIff`).
- An empty delta does not mean equal sets: softening a guarantee is invisible (`SofteningIsInvisible`, exact
  condition `EmptyDeltaMeansEqual`).
- Composing envelopes does not make them stricter, although the comment on it says so: it keeps the looser bound
  (`CompositionLoosens`). It permits only what both permit exactly when no concession is left to make or the two
  bound every kind alike (`ComposeNarrowsIff`).
- `applied <= acknowledged`, which the closure check demands, is not an invariant (`DirectApplicationIsReported`).
  The check passes exactly when the grants applied without an acknowledgement are no more than the grants acknowledged
  and never applied (`CheckPassesIff`).
- The grant index goes stale when a commit prunes and a kept grant follows a dropped one, and only then
  (`StaleExactly`). Start-up can therefore leave a grant of an earlier boot live (`BootCanLeaveGrantLive`, a real
  journal, decisions included, and its recovery; exact condition `BootEndsExactly`). Where the fence records drop
  nothing, which the recovered store shows beforehand, the condition is on that store: start-up ends everything exactly
  when there are fence identities enough and it is not the case that the boot prunes and a live grant stands behind one
  that goes (`BootEndsAllIff`).
- For the same reason a run on a new store can accept one (grant, attempt) pair twice (`SomePairIsAcceptedTwice`). In
  a run whose commits drop no grant and whose restarts leave none live, every pair is accepted at most once
  (`AcceptedOnce`).
- And for the same reason a sweep can carry over a grant that the plan does not back: it judges the grant the index
  leads to and rebinds the one it was asked for. Whatever the evaluations approve for a contract, some run on a new
  store leads to a sweep that leaves a promise live which the approval does not cover (`SomeSweepCarriesUnbacked`). From
  any index and whatever it drops on the way, a sweep carries over only what is to be carried over exactly when no turn
  of it finds a grant to carry over in place of one that is not (`SweepIsFairIff`). That is so whenever the index is
  exact and there are no more grants than are retained, or room for three records per identity, both of which the
  coordinator shows before the sweep (`SweepSurvivors`, `SweptGrantsFit`).
- The state reported for a group of evidence is not always its worst: a disagreement found later replaces an invalid
  item found earlier, so that the answer depends on the order of the publishers (`ConflictHidesInvalid`). It is the
  worst exactly when no later disagreement follows the last invalid item (`StateIsWorstIff`).
- The canonical encoding of a set is not the only string that decodes to it: its guarantees may be listed in any order,
  and nothing else is accepted (`SetDecodesFrom`). A set has one code only exactly when it has fewer than two
  guarantees (`OneCodeIff`).
- A valid policy with more than 4096 rules cannot be read back (`WidePolicyUnreadable`, exact condition
  `PolicyLosslessIff`).
- A valid grant can come back different: evidence of one group listed twice is dropped on decoding
  (`TwiceEvidencedChanges`, exact condition `GrantLosslessIff`).

## Model

| member | source | states |
|---|---|---|
| `Guarantees.ClassifyWeakening` | src/domain/guarantee.cpp:302-329 | the loop answers weakens-or-equals iff the candidate adds no kind and is nowhere stronger, stated through lookup by kind |
| `Guarantees.WeakensTransitive` | src/domain/guarantee.cpp:302-329 | weakening is transitive |
| `Guarantees.WeakensAntisymmetric` | src/domain/guarantee.cpp:302-329 | two canonical sets that weaken each other are equal |
| `Guarantees.LowerBoundFinds` | src/domain/guarantee.cpp:219-225 | on a canonical set the binary search agrees with a scan by kind |
| `Guarantees.UpsertStores` | src/domain/guarantee.cpp:195-208 | upsert changes the lookup of its own kind and of no other |
| `Guarantees.ComputeDelta` | src/domain/guarantee.cpp:387-406 | a delta exists iff the approved set weakens the original, and is then the recorded difference, withdrawals carrying the given reason |
| `Guarantees.DeltaIsExact` | src/domain/guarantee.cpp:387-406 | a delta lists every changed value and every withdrawn kind with its reason, and nothing else |
| `Guarantees.EmptyDeltaMeansEqual` | src/domain/guarantee.cpp:387-406 | sets are equal iff their delta is empty and hardness was kept |
| `Guarantees.EmptyDeltaMeansSameValues` | src/domain/guarantee.cpp:387-406 | the delta is empty iff both sets have the same values on the same kinds |
| `Guarantees.SofteningIsInvisible` | src/domain/guarantee.cpp:387-406 | two different sets with an empty delta exist |
| `Envelopes.CheckPermits` | src/domain/guarantee.cpp:491-514 | the two passes accept iff no kind is added or withdrawn, every change stays above its floor, and changes stay within the cap |
| `Envelopes.ForwardPass` | src/domain/guarantee.cpp:496-507 | the counting pass with its early exits decides the cap and the floors together |
| `Envelopes.PermitsItself` | src/domain/guarantee.cpp:491-514 | full service is inside every envelope |
| `Envelopes.ConcededIsListed` | src/domain/guarantee.cpp:491-514 | the concessions counted against the cap are those a delta lists |
| `Envelopes.ComposeMerges` | src/domain/policy.cpp:192-213 | composition succeeds, keeps per kind the bound that allows more, and takes the least of the three caps |
| `Envelopes.ComposeNarrowsIff` | src/domain/policy.cpp:192-213 | the composed envelope permits only what both its parts permit iff the cap is zero or every kind is bounded alike, a one-sided bound counting only at the strongest value |
| `Envelopes.CompositionLoosens` | src/domain/policy.cpp:192-213 | floors 10 and 5 compose to permit 20 down to 7, which the contract's envelope does not |
| `Contracts.FloorBelowDemand` | src/domain/contract.cpp:11-53 | a valid contract's bandwidth floor never exceeds its demand or the domain maximum |
| `Contracts.ValidContractIff` | src/domain/contract.cpp:11-53 | exactly which contracts are valid, bounds taken kind by kind |
| `Contracts.ValidPolicyIff` | src/domain/policy.cpp:46-161 | exactly which policies are valid, the rule loop included |
| `Contracts.SelectMeaning` | src/domain/policy.cpp:163-171 | the selected rule matches and has the least precedence among matching rules; none is selected iff none matches |
| `Contracts.SelectIgnoresOrder` | src/domain/policy.cpp:163-171 | with unique precedences the selected rule does not depend on rule order |
| `Contracts.EnvelopeExists` | src/domain/policy.cpp:215-226 | for valid inputs a missing class profile is the only way to have no envelope |
| `Evidence.AggregateState` | src/domain/evidence.cpp:236-257 | the scan with its early conflict answers Known iff the group is non-empty, all Known and of one value |
| `Evidence.KnownMeansUnanimous` | src/domain/evidence.cpp:236-268 | Known is unanimity, and the value reported is the agreed one |
| `Evidence.DeriveCapability` | src/domain/evidence.cpp:389-443 | the accumulating loop computes the derived snapshot |
| `Evidence.KnownCapability` | src/domain/evidence.cpp:112-118 | a snapshot is Known iff each of the seven kinds is unanimous and fresh, and then records exactly the agreed values |
| `Evidence.ProvesIff` | src/domain/evidence.cpp:236-277 | a kind proves a value iff its group is unanimous on it and the newest of its ticks, one that no item exceeds, is fresh |
| `Evidence.ObservedWithNewest` | src/domain/evidence.cpp:389-443 | a Known snapshot was observed at the newest tick of all items of its seven kinds |
| `Evidence.SupportIsAgreed` | src/domain/evidence.cpp:445-470 | a valid guarantee is supported by a Known snapshot iff the agreed value of the evidence kind it is judged on meets it: from above for latency, from below for the rest, any agreed durability counting as the highest level |
| `EvidenceStates.StateIsWorstIff` | src/domain/evidence.cpp:236-257 | the state of a group is its worst iff no disagreement hides an invalid item before it |
| `EvidenceStates.DisagreesMeans` | src/domain/evidence.cpp:243-249 | any two Known items of different values are a disagreement, wherever they stand |
| `EvidenceStates.ConflictHidesInvalid` | tests/dmf_test_unit_domain.cpp:209-219 | three items whose group is reported in conflict or invalid by their order alone |
| `EvidenceStates.SnapshotIsWorst` | src/domain/evidence.cpp:389-443 | the snapshot's state is the worst among its seven kinds, freshness included |
| `Evidence.DeriveRefusal` | src/domain/evidence.cpp:389-443 | derivation is refused exactly for an unset scope or generation, or a proven topology class that does not exist |
| `Assessments.Classify` | src/engine/allocator.cpp:135-167 | the first pass splits the original into its supported part and its shortfalls |
| `Assessments.Weaken` | src/engine/allocator.cpp:223-275 | the second pass succeeds iff every shortfall can be settled inside the envelope, and then yields the settled set |
| `Assessments.SettledMeaning` | src/engine/allocator.cpp:223-275 | kind by kind, the settled set is the original met with the observed capability |
| `Assessments.AssessContract` | src/engine/allocator.cpp:84-287 | the whole assessment, evidence actions included, equals its specification |
| `PolicyActions.EvidenceDecides` | src/engine/allocator.cpp:84-121 | in the plan, every live contract of the scope is answered as the policy sets for the one of the five bad evidence states the snapshot is in |
| `PolicyActions.NoProfileNoService` | src/engine/allocator.cpp:123-131 | a class without a profile is unsupported |
| `PolicyActions.RuleDecides` | src/engine/allocator.cpp:175-287 | a flexible contract that falls short is answered by the matching rule of least precedence on the lowest-ranked kind it falls short of: refuse and protect refuse it, escalate escalates it, degrade lets it contend or finds it outside its envelope; with no such rule it is unsupported |
| `PolicyActions.RigidRuleDecides` | src/engine/allocator.cpp:175-191 | a rigid contract that falls short is escalated iff that rule says so, and refused otherwise |
| `PolicyActions.SupportedMayBeServed` | src/engine/allocator.cpp:134-173 | a contract that falls short of nothing may be served whatever the rules say |
| `PolicyActions.DegradedContendsIff` | src/engine/allocator.cpp:219-287 | where the deciding rule says degrade, a contract contends iff its envelope permits the original met with the snapshot |
| `PolicyActions.ConcessionsAreCapped` | src/domain/policy.cpp:192-226 | what is protected or of a class that may not be degraded is served whole or not at all; any other gives up no more kinds than its envelope, its class and the policy each allow |
| `PolicyActions.ServiceIsNamed` | src/engine/allocator.cpp:679-712 | an entry that serves is called full iff no value asked for was given up, and otherwise degraded; its reason and its delta say so |
| `PolicyActions.IdleIsRefused` | src/engine/allocator.cpp:429-455 | every entry of an inactive or out-of-scope contract refuses it and says which of the two it is |
| `PolicyActions.InfeasibleEscalatesAll` | src/engine/allocator.cpp:497-512 | an infeasible plan serves nobody, holds nothing and escalates every contract |
| `BranchAndBound.BoundDominates` | src/engine/allocator.cpp:324-343 | no feasible completion is worth more than the fractional bound |
| `BranchAndBound.SearchIsHonest` | src/engine/allocator.cpp:294-387 | in every run, cut short or not, the incumbent fits and pruned <= nodes <= budget |
| `BranchAndBound.SearchIsOptimal` | src/engine/allocator.cpp:294-387 | a search that ends inside its budget returns the best (count, priority) of all subsets that fit, ties to the least index sequence |
| `BranchAndBound.AmpleBudgetCompletes` | src/engine/allocator.cpp:345-387 | a budget of 2^(n+1) - 1 nodes is never exhausted |
| `BranchAndBound.SortedByDensity` | src/engine/allocator.cpp:550-558 | while products are exact the sort yields descending density |
| `DensityOrder.LimitsKeepProductsExact` | src/engine/allocator.cpp:517-558 | contract limits keep every product exact for up to 18,445 rigid contracts |
| `DensityOrder.CircleIsNotTotal` | src/engine/allocator.cpp:550-558 | for every larger number, a scope within the limits on which three contracts come before one another in a circle |
| `DensityOrder.ComparableIff` | src/engine/allocator.cpp:550-558 | the comparator totally orders every scope of n rigid contracts iff n <= 18,445 |
| `BranchAndBound.RigidSearch.constructor` | src/engine/allocator.cpp:294-310 | a fresh search is the specification's initial state |
| `BranchAndBound.RigidSearch.ConsiderCurrent` | src/engine/allocator.cpp:311-322 | replaces the incumbent exactly when the specification does |
| `BranchAndBound.RigidSearch.Bound` | src/engine/allocator.cpp:324-343 | the saturating loop returns the fractional bound or the maximum |
| `BranchAndBound.RigidSearch.RunFrom` | src/engine/allocator.cpp:345-387 | the recursive, mutating search ends in the state of the pure one |
| `RigidService.SearchServesBest` | src/engine/allocator.cpp:517-584 | the contracts marked served weigh what the search says, fit, and are the best service when the search completes |
| `Certificates.CertificateIsExact` | src/engine/allocator.cpp:466-514 | the certificate is issued iff no `required` rigid contracts fit together |
| `PlanOptimality.InfeasibleIffUnreachable` | src/engine/allocator.cpp:466-514 | PROVEN_INFEASIBLE iff no `minimum_protected_served` admissible rigid contracts fit the capacity |
| `PlanOptimality.OptimalPlanServesBest` | src/engine/allocator.cpp:391-622 | an OPTIMAL plan serves the best choice of admissible rigid contracts, and at least the protected minimum |
| `PlanOptimality.ServedAlwaysFits` | src/engine/allocator.cpp:560-584 | even a cut-short search serves only admissible contracts that fit |
| `PlanOptimality.SmallRequestsComparable` | src/engine/allocator.cpp:550-558 | contract limits make any 18,445 valid contracts comparable |
| `ReferenceSolver.Measure` | src/engine/reference_solver.cpp:48-70 | the inner loop over bits computes a subset's totals, or reports the overflow |
| `ReferenceSolver.SolveOver` | src/engine/reference_solver.cpp:45-83 | the loop over masks returns the optimum over all subsets: most contracts, then most priority, then the least identity list |
| `ReferenceSolver.Solve` | src/engine/reference_solver.cpp:17-89 | for every request, repeated identities included, enumeration is refused exactly beyond its subset limit, and otherwise optimal |
| `ReferenceSolver.OneOptimum` | src/engine/reference_solver.cpp:72-80 | all optima agree on count, priority sum and identity list |
| `ReferenceSolver.OptimalPlanMatchesReference` | src/engine/reference_solver.cpp:17-89 | an OPTIMAL plan and exhaustive enumeration agree on count and priority sum |
| `Validator.CheckEntry` | src/engine/validator.cpp:116-187 | an entry draws no violation iff it is lawful |
| `Validator.CheckEntries` | src/engine/validator.cpp:95-196 | the accumulating loop draws no violation iff entries ascend, are lawful and their total is representable |
| `Validator.ValidatePlan` | src/engine/validator.cpp:48-208 | valid iff the plan satisfies the declarative acceptance predicate |
| `AcceptedPlans.AcceptedIff` | src/engine/validator.cpp:48-208 | whatever made the plan: it is accepted iff it is of this request and claims no more than its search or proof shows, its entries ascend, every contract has exactly one, each does right by its contract, and what they hold adds up to what it says and is there |
| `PlanAcceptance.PlanAcceptedIffNoneIdle` | src/engine/validator.cpp:48-208 | a returned plan is accepted by the validator iff no contract was inactive or out of scope |
| `PlanReturned.InactiveContractIsRejected` | src/engine/validator.cpp:48-208 | a concrete well-formed request with an inactive contract gets a plan, and the plan is rejected |
| `PlanReturned.FlexTotal` | src/engine/allocator.cpp:630-676 | first-fit never hands out more than it was given |
| `FirstFit.ShareIsExact` | src/engine/allocator.cpp:630-676 | in the plan, a flexible contract holds the lesser of its demand and what rigid entries and entries ranked above it leave, and lacks bandwidth iff that is below its floor |
| `FirstFit.LowerLeavesRoom` | src/engine/allocator.cpp:18-33 | what an entry holds was left for every contract ranked above it, ranked by class and priority as the policy says |
| `FirstFit.NoInversion` | src/engine/allocator.cpp:18-33 | no contract is refused for want of bandwidth held by one of its class and lower priority, of a lower class where classes go first, or of lower priority where they do not |
| `FirstFit.AdmittedIff` | src/engine/allocator.cpp:630-676 | a flexible contract is admitted iff its share reaches its floor and its envelope permits the original met with the snapshot at that share; that is what it is promised |
| `FirstFit.FullWhenItFits` | src/engine/allocator.cpp:630-676 | it is served in full whenever all of it is supported and what is left is what it asks for |
| `FirstFit.RigidIsWholeOrRefused` | src/engine/allocator.cpp:583-628 | an admissible rigid contract is served whole or refused, and the reason given is want of bandwidth iff the served rigid contracts leave less than it asks |
| `PlanReturned.BandwidthConserved` | src/engine/allocator.cpp:679-729 | the plan never allocates more than the snapshot offers, so its overflow exits are unreachable |
| `PlanReturned.ReturnedIff` | src/engine/allocator.cpp:630-729 | for prepared inputs a plan is returned iff it is infeasible or admits no flexible contract with soft bandwidth; the only error is Invalid |
| `PlanReturned.AlwaysReturned` | src/engine/allocator.cpp:391-733 | with hard bandwidth guarantees every well-formed request gets a plan |
| `PlanReturned.SoftBandwidthRefusesPlan` | src/engine/allocator.cpp:640-660 | a concrete well-formed request is refused as a whole |
| `NonInterference.OrderIrrelevant` | src/engine/allocator.cpp:415-425 | the answer does not depend on the order contracts are listed in |
| `NonInterference.FlexibleNeverDisplacesRigid` | src/engine/allocator.cpp:517-628 | adding flexible contracts changes neither the served rigid contracts nor the status |
| `NonInterference.EarlierEntriesKept` | src/engine/allocator.cpp:583-676 | adding one flexible contract changes no entry of a rigid contract or of a contract ahead of it |
| `AdmittedService.SettledIsStrongest` | src/engine/allocator.cpp:223-275 | off bandwidth, the approved value is the strongest the snapshot supports |
| `AdmittedService.VerdictMeaning` | src/engine/allocator.cpp:583-676 | a verdict admits iff its outcome authorises; admitted is supported, inside the envelope and, unless soft bandwidth was hardened, a weakening |
| `AdmittedService.EveryEntrySound` | src/engine/allocator.cpp:679-723 | every entry of every returned plan: admitted iff authorising, and then the meet of asked and observed |
| `AdmittedService.UnknownAdmitsNothing` | src/engine/allocator.cpp:84-122 | under a capability that is not Known no plan admits anything |
| `ScopeAllocation.HasRepeats` | src/engine/allocator.cpp:420-425 | finds a repeated identity in the sorted list iff there is one |
| `ScopeAllocation.AssessRequest` | src/engine/allocator.cpp:429-455 | the assessing loop, stopping at the first invalid contract |
| `ScopeAllocation.Partition` | src/engine/allocator.cpp:457-464 | splits assessments into rigid and flexible, in order |
| `ScopeAllocation.CheckMinimum` | src/engine/allocator.cpp:466-496 | the summing loop decides impossibility and writes the certificate |
| `ScopeAllocation.InfeasibleEntries` | src/engine/allocator.cpp:497-512 | the entries of an infeasible plan, sorted |
| `ScopeAllocation.PriorityScale` | src/engine/allocator.cpp:517-531 | one more than the priority sum, or its overflow |
| `ScopeAllocation.BuildItems` | src/engine/allocator.cpp:534-558 | the density-sorted items, or the overflow of a value |
| `ScopeAllocation.MarkServed` | src/engine/allocator.cpp:566-582 | exactly the selected contracts are marked and their weight is taken off |
| `ScopeAllocation.ServeOne` | src/engine/allocator.cpp:630-676 | one flexible contract against what is left |
| `ScopeAllocation.ServeInOrder` | src/engine/allocator.cpp:630-676 | the first-fit loop equals its specification |
| `ScopeAllocation.WriteEntry` | src/engine/allocator.cpp:679-712 | an entry is written iff its delta exists |
| `ScopeAllocation.WriteEntries` | src/engine/allocator.cpp:679-723 | all entries, their total and the shortfall flag |
| `ScopeAllocation.AllocateScope` | src/engine/allocator.cpp:391-733 | the whole imperative allocator computes the pure specification all results above are about |
| `Crc32c.TableStep` | include/dmf/core.hpp:60-66 | one table step is eight bit steps |
| `Crc32c.Entry` | include/dmf/core.hpp:60-66 | a table entry is its index shifted eight times |
| `Crc32c.MakeTable` | include/dmf/core.hpp:68-74 | all 256 entries |
| `Crc32c.Crc32c` | src/core/core.cpp:12-18 | the table loop equals the bit-at-a-time checksum |
| `Crc32c.Chaining` | src/core/core.cpp:12-18 | chaining through the seed is the checksum of the concatenation |
| `Crc32c.PolynomialIs` | include/dmf/core.hpp:60-66 | the constant is the reflected Castagnoli polynomial, power by power |
| `Crc32c.CheckValue` | include/dmf/core.hpp:60-66 | the checksum of the digits one to nine is the standard's check value |
| `Crc32c.BurstDetected` | src/core/core.cpp:12-18 | a change confined to four consecutive bytes always changes the checksum |
| `Crc32c.OneByteDetected` | src/core/core.cpp:12-18 | so does a change of exactly one byte |
| `Bytes.NumberOfLittle` | src/core/core.cpp:134-152 | little-endian digits read back as the number |
| `Bytes.NumberGrows` | src/core/core.cpp:134-152 | every further byte weighs 256 times the one before it |
| `Bytes.ChecksumDetects` | src/net/frame.cpp:173-193 | the checksum as written detects one changed byte |
| `Frames.ParseAllSplits` | src/net/frame.cpp:230-300 | parsing a stream can stop anywhere and be resumed on the remainder |
| `Frames.NeedMoreIsShort` | src/net/frame.cpp:27-30 | an undrained remainder is shorter than one maximal frame |
| `Frames.FrameReader.constructor` | src/net/frame.cpp:195-199 | a fresh reader is empty, good and bounded |
| `Frames.FrameReader.Push` | src/net/frame.cpp:207-228 | appends, or fails for good, exactly at the buffer bound |
| `Frames.FrameReader.Next` | src/net/frame.cpp:230-300 | answers what the one-shot parser says of the pending bytes; errors stick |
| `Frames.FrameReader.Drain` | src/net/frame.cpp:230-300 | draining yields the frames, remainder and error of the one-shot parse |
| `Frames.DecodeStream` | src/net/frame.cpp:207-300 | for every split into socket-sized chunks: the frames and error of the whole stream; the buffer bound never fires |
| `Frames.FrameRoundTrip` | src/net/frame.cpp:173-193 | an encoded frame followed by anything decodes to itself and leaves the rest |
| `Frames.CutFrameWaits` | src/net/frame.cpp:230-262 | every proper prefix of a frame waits for more |
| `Frames.DecodedIsEncoded` | src/net/frame.cpp:230-300 | whatever is taken for a frame is, byte for byte, the encoding of that frame: known type, bounded payload |
| `Frames.StreamIsItsFrames` | src/net/frame.cpp:230-300 | every stream is the encodings of the frames taken from it followed by what is left |
| `Frames.StreamRoundTrip` | src/net/frame.cpp:173-300 | the encodings of any frames, one after another, decode to exactly them |
| `Frames.RefusedIsNoFrame` | src/net/frame.cpp:230-300 | a stream that is refused begins with no encoded frame |
| `Frames.RefusalsInOrder` | src/net/frame.cpp:236-269 | a header with a good checksum is refused for its version, type, flags, reserved field or length, in that order |
| `Frames.KnownTypesAre` | src/net/frame.cpp:35-66 | the accepted types are the twenty-six message types |
| `Frames.CorruptFrameNeverDecoded` | src/net/frame.cpp:236-287 | a frame with one byte changed is always refused |
| `Grants.AllowedIsForward` | src/domain/authority.cpp:172-190 | the transition table is exactly the strictly forward moves |
| `Closure.ApplyKeeps` | src/store/state_store.cpp:297-477 | a record keeps the counter identities or changes nothing; no update stops half way |
| `Closure.RetentionSplits` | src/store/state_store.cpp:481-511 | retention only ever drops ended grants, as many as it counts |
| `Closure.PruneKeeps` | src/store/state_store.cpp:481-526 | pruning always succeeds and keeps the identities |
| `Closure.AppendKeeps` | src/store/state_store.cpp:986-1029 | an append keeps the identities; a failed one leaves counters, grants and fences alone |
| `Closure.ClosureAlways` | src/runtime/accounting.cpp:252-307 | the identities hold in every state any run reaches |
| `Closure.FreshIsSound` | src/runtime/accounting.cpp:252-307 | they hold at the start |
| `ClosureReports.RunBalances` | src/runtime/accounting.cpp:281-290 | over every run: applications plus what was acknowledged and never applied equal acknowledgements plus applications that skipped theirs |
| `ClosureReports.CheckPassesIff` | src/runtime/accounting.cpp:252-307 | in every reachable state the check passes iff grants applied unacknowledged are no more than grants acknowledged and never applied |
| `ClosureReports.AcknowledgingRunsPass` | src/runtime/accounting.cpp:252-307 | a run that acknowledges before it applies always passes |
| `ClosureReports.DirectApplicationIsReported` | src/runtime/accounting.cpp:286-290 | a legal two-record run makes that check report a violation |
| `Replay.ApplyInStep` | src/store/state_store.cpp:297-477 | one record keeps live state and replay in step |
| `Histories.DecisionsAreCounted` | src/store/state_store.cpp:423-429 | over every run without a checkpoint each decision counter grew by the number of decisions of its outcome |
| `Histories.GrantsAreCounted` | src/store/state_store.cpp:347-466 | so did every grant, fence, boot, term and torn-tail counter by the records of its kind |
| `Histories.LastSettingHolds` | src/store/state_store.cpp:325-464 | generations, boot, term and clock are those of the last record that set them |
| `Histories.LastPolicyHolds` | src/store/state_store.cpp:322-324 | so is the policy |
| `Histories.LastRegistrationHolds` | src/store/state_store.cpp:300-321 | a contract is as last registered, inactive if retired since |
| `Histories.MarksAreHighest` | src/store/state_store.cpp:334-429 | each high-water mark is the highest identity a record named |
| `Histories.TakenIff` | src/store/state_store.cpp:278-477 | a record is taken iff what it is about is there or not there yet, can be moved on, and there is room; a boot or term iff it is later |
| `Histories.EpochsClimb` | src/store/state_store.cpp:430-464 | over every run boots climb and terms never go back, from record to record |
| `Retention.PruningKeepsNewest` | src/store/state_store.cpp:481-548 | pruning keeps every live grant and the newest ended ones, and the newest fences, decisions and restorations, by tick and then identity, in identity order and to the number configured; it counts what went and changes nothing else |
| `Replay.ReplayAgrees` | src/store/state_store.cpp:803-812 | replaying any successful run succeeds and agrees with it on everything but pruned history, whose size is exactly the pruned counts |
| `Journal.ReadRecord` | src/store/state_store.cpp:727-800 | one pass of the replay loop at its running position |
| `Journal.ReplaySegment` | src/store/state_store.cpp:722-813 | the whole loop equals the scan of the remaining bytes |
| `Journal.ScanRecord` | src/store/journal.cpp:77-121 | an encoded record is taken off the front exactly |
| `Journal.TakenIsWritten` | src/store/state_store.cpp:727-800 | whatever is taken for a record is, byte for byte, the encoding of that record under the next sequence number |
| `Journal.ReplayedIsWritten` | src/store/state_store.cpp:722-813 | whatever the file holds, it begins with the encodings of the records replayed, and what follows is nothing, exactly their footer, or a record or header cut short, as the end says |
| `Journal.DamagedSegmentRefused` | src/store/state_store.cpp:722-813 | a segment with any one byte of a record changed replays exactly the records before it and is rejected |
| `Journal.DamagedFooterRefused` | src/store/state_store.cpp:741-758 | a footed segment with one byte of the footer changed is rejected after all its records |
| `Journal.RefusalsInOrder` | src/store/journal.cpp:93-121 | a record header with a good checksum is refused for its version, length or flags, in that order |
| `Journal.ScanCutRecord` | src/store/state_store.cpp:727-782 | a record cut short is torn and contributes nothing |
| `Journal.CutSegmentRecovers` | src/store/state_store.cpp:722-813 | cut anywhere, replay recovers exactly the records wholly present |
| `Journal.FootedSegmentRecovers` | src/store/journal.cpp:123-155 | a footed segment replays whole |
| `StateStores.StateStore.constructor` | src/store/state_store.cpp:609-640 | a fresh store is empty with zero counters |
| `StateStores.StateStore.LiveGrants` | src/store/state_store.cpp:76-82 | the counting loop |
| `StateStores.StateStore.FindGrant` | src/store/state_store.cpp:271-276 | the first position with the identity |
| `StateStores.StateStore.MoveGrant` | src/store/state_store.cpp:278-295 | one transition, with its refusals |
| `StateStores.StateStore.Issue` | src/store/state_store.cpp:347-361 | issuing a grant with its counters |
| `StateStores.StateStore.Report` | src/store/state_store.cpp:362-377 | acknowledgement and application with their counters |
| `StateStores.StateStore.End` | src/store/state_store.cpp:378-403 | fencing, expiry and revocation with their counters |
| `StateStores.StateStore.Rebind` | src/store/state_store.cpp:404-422 | rebinding a live grant |
| `StateStores.StateStore.ApplyRecord` | src/store/state_store.cpp:297-477 | the record dispatcher refines the pure step |
| `StateStores.StateStore.RetainGrants` | src/store/state_store.cpp:481-511 | live grants stay, the newest ended ones fill the budget |
| `StateStores.StateStore.RetainFences` | src/store/state_store.cpp:513-526 | the newest fences stay |
| `StateStores.StateStore.PruneState` | src/store/state_store.cpp:481-548 | pruning in place refines the pure one |
| `StateStores.StateStore.AppendRecord` | src/store/state_store.cpp:1001-1029 | numbering, applying and pruning one record |
| `StateStores.StateStore.RecoverSegment` | src/store/state_store.cpp:722-813 | the replay loop, decoding and applying as it reads, ends in the state of the scanned records |
| `StateStores.CrashRecovery` | src/store/state_store.cpp:722-813 | a live run's journal cut at any byte recovers a state that simulates the live state after the last whole record |
| `RecordCodec.FenceLossless` | src/codec/codec.cpp:720-761 | fence records: exact round trip with any suffix, every proper prefix fails |
| `DecisionCodec.DecisionCode` | src/codec/codec.cpp:496-568 | a valid decision reads back, before any suffix, with its evidence normalised and nothing else changed |
| `DecisionCodec.RestorationCode` | src/codec/codec.cpp:610-653 | a valid restoration evaluation reads back as it was, before any suffix |
| `DecisionCodec.DecodedDecisionIsSound` | src/domain/decision.cpp:112-143 | a decision is decoded only if identified and within what was asked; service needs authority, full service known evidence, refusal no concession |
| `DecisionCodec.DecodedRestorationIsSound` | src/domain/grant.cpp:225-257 | a restoration is decoded as proven only if evidence is known and every precondition is met |
| `DecisionCodec.CountersRead` | src/runtime/accounting.cpp:322-370 | so do the forty-five counters of a checkpoint |
| `RecordCodec.BodyDecodes` | src/store/state_store.cpp:214-266 | every payload the coordinator writes, of all twenty-one record types, decodes to the record that was applied |
| `RecordCodec.DecisionsAreWritten` | src/runtime/coordinator.cpp:336-339 | every decision with an identity has a payload that is written for it, so runs with decisions are covered |
| `RecordCodec.PayloadsRecover` | src/store/state_store.cpp:722-813 | from bytes to state, for every run whose records are what the store's decoder reads from its payloads: the journal cut at any byte replays to a state that simulates the live one after the last whole record |
| `RecordCodec.JournalRecovers` | src/store/state_store.cpp:722-813 | the same of every run whose records the coordinator encoded, decisions and restorations among them |
| `GrantTables.LookupAgreesIff` | src/runtime/evidence_store.cpp:120-130 | an index built for one vector answers for another as a scan would iff identities stand in the same places |
| `GrantTables.GrantTable.constructor` | src/runtime/evidence_store.cpp:81-90 | an empty table mirrors the empty vector |
| `GrantTables.GrantTable.Rebuild` | src/runtime/evidence_store.cpp:81-90 | for any vector: the first position of each identity and the sorted live identities; with distinct identities it mirrors the vector |
| `GrantTables.GrantTable.NoteInsert` | src/runtime/evidence_store.cpp:92-105 | refuses exactly an indexed identity or a full table, and otherwise mirrors the vector with the grant appended if it mirrored the vector before |
| `GrantTables.GrantTable.NoteTransition` | src/runtime/evidence_store.cpp:107-118 | refuses exactly an unindexed identity; an ending takes the identity off the live list; a table that mirrored the vector mirrors it after the transition |
| `GrantTables.GrantTable.Find` | src/runtime/evidence_store.cpp:120-130 | equals linear search while the table mirrors the vector |
| `Coordinators.IdAllocator.constructor` | include/dmf/ids.hpp:125-128 | starts where it is told |
| `Coordinators.IdAllocator.Allocate` | include/dmf/ids.hpp:129-135 | what is left is above what was given, or nothing is left |
| `Coordinators.IdAllocator.Observe` | include/dmf/ids.hpp:137-145 | moves past the mark and never backwards |
| `Coordinators.GrantsStay` | src/store/state_store.cpp:481-511 | pruning that drops nothing moves nothing |
| `Coordinators.KeptRemains` | src/store/state_store.cpp:481-511 | retention keeps every live grant and the identity order |
| `Coordinators.DropGuard` | src/store/state_store.cpp:1023-1029 | a commit leaves the pruned count alone iff it does not prune or its pruning drops nothing |
| `Coordinators.FenceStep` | src/runtime/coordinator.cpp:157-190 | fencing that drops no grant ends exactly the named live grant or changes no grant |
| `Coordinators.FenceOrderly` | src/runtime/coordinator.cpp:157-190 | under any index and whatever is dropped, fencing ends at most one live grant, takes out ended ones only and keeps the identity order |
| `Coordinators.ReportStep` | src/runtime/coordinator.cpp:514-586 | an acceptance is new, raises the sequence by one and consumes its attempt; a refusal accepts nothing |
| `Coordinators.ReportOrderly` | src/runtime/coordinator.cpp:514-586 | under any index a report that is accepted found a live grant with that attempt, and the identity order is kept |
| `Coordinators.AcquireStep` | src/runtime/coordinator.cpp:342-392 | an issued identity is above every one issued before, and the grant is appended |
| `Coordinators.AcquireOrderly` | src/runtime/coordinator.cpp:342-392 | the same of identities whatever retention drops |
| `Coordinators.ObtainStep` | src/runtime/coordinator.cpp:342-392 | acquiring as a whole, decision record first: what is issued is new and authorised, and the invariant is kept |
| `Coordinators.ObtainOrderly` | src/runtime/coordinator.cpp:342-392 | the same of identities whatever either record drops |
| `Coordinators.NeutralStep` | src/runtime/coordinator.cpp:90-94 | every other committed record keeps the coordinator's invariant |
| `CallsExactly.ReportExactly` | src/runtime/coordinator.cpp:514-586 | from an exact index a report is answered by the named grant's own fields, refusals in order; an accepted one moves that grant, raises its sequence and gives it a new attempt, and nothing else changes |
| `CallsExactly.AcquireExactly` | src/runtime/coordinator.cpp:354-391 | an acquisition is refused exactly while grants or identities are exhausted, and otherwise issues a new identity and attempt for what was offered |
| `CallsExactly.FenceSaysWhy` | src/runtime/coordinator.cpp:157-190 | a fence names the grant, its binding and the authority in force at the time |
| `CoordinatorRuns.IdentitiesClimb` | src/runtime/coordinator.cpp:342-392 | over every run, drops and restarts included, no grant identity is ever given out again |
| `CoordinatorRuns.AcceptedOnce` | src/runtime/coordinator.cpp:514-586 | over every run whose operations drop no grant and whose restarts leave none live, each (grant, attempt) pair is accepted at most once |
| `CoordinatorRuns.SimulatesThroughout` | src/store/state_store.cpp:722-813 | through any number of crashes, live state and replay agree on everything but pruned history |
| `CoordinatorRuns.EndedForever` | src/store/state_store.cpp:278-295 | a grant that has ended is, at every later point of every history, crashes included, unchanged or gone |
| `CoordinatorRuns.CrashLeavesRecoverable` | src/runtime/coordinator.cpp:668-690 | the replay of any live run is a state start-up accepts, with the same high-water mark and live grants |
| `BootFencing.FenceAllExact` | src/runtime/coordinator.cpp:726-746 | under any index lagging behind the vector, the fencing loop ends every live grant iff each stands in its place when its turn comes and there is a fence identity for each |
| `StartsAnew.StartsInNewEpoch` | src/runtime/coordinator.cpp:687-724 | a coordinator that starts is in the next boot and the next term, every generation set, contracts and policy as left, and gives grant identities above all given before |
| `BootFencing.BootEndsExactly` | src/runtime/coordinator.cpp:679-749 | for every recovered store: start-up leaves no earlier grant live iff each stands in its place in turn and fence identities suffice; it then starts in a good state |
| `BootFencing.BootWithoutDrops` | src/runtime/coordinator.cpp:679-749 | if no fence record drops a grant, that is: iff the boot and generation records moved no live grant and fence identities suffice |
| `BootFencing.BootEndsEarlierGrants` | src/runtime/coordinator.cpp:687-749 | if start-up drops nothing, fence identities alone decide |
| `BootFencing.RoomDropsNothing` | src/runtime/coordinator.cpp:726-746 | a store with room for its fence records drops nothing in the loop |
| `BootFencing.BootWithRoom` | src/runtime/coordinator.cpp:679-749 | so with that room, or within retention, which the store shows beforehand, the same exact condition holds |
| `BootConditions.HandedAfter` | src/runtime/coordinator.cpp:700-724 | what the boot and generation records leave of the grants, read off the recovered store: all of them, or what one pruning keeps if the store is overfull or evidence is full at one of those records |
| `BootConditions.UnmovedIff` | src/store/state_store.cpp:481-511 | pruning leaves every live grant in its place iff none stands behind one that goes |
| `BootConditions.BootEndsAllIff` | src/runtime/coordinator.cpp:679-749 | for every recovered store whose fence records will drop nothing: start-up leaves no earlier grant live iff fence identities suffice and it is not so that the boot prunes and a live grant stands behind one that goes |
| `BootFencing.DropDisplaces` | src/store/state_store.cpp:1023-1029 | a fence record that drops a grant in front of a live one still to be fenced displaces that one |
| `BootFencing.DisplacedBreaksTurn` | src/runtime/coordinator.cpp:726-746 | and a displaced grant is missed in its turn, so something stays live |
| `StaleIndex.AnswersIff` | src/runtime/evidence_store.cpp:120-130 | an exact index answers for what is kept of its vector iff no kept grant follows a dropped one |
| `StaleIndex.StaleExactly` | src/store/state_store.cpp:1023-1029 | from a good coordinator, committing a record leaves the index stale iff it prunes and retention keeps a grant that follows one it drops |
| `StaleReports.MisdirectedReport` | src/runtime/coordinator.cpp:514-586 | under a stale index a report on one grant is accepted under another grant's attempt and does not consume it |
| `StaleReports.AcquireMisdirects` | src/store/state_store.cpp:1023-1029 | issuing a seventh grant into a good coordinator that retains three leaves such an index |
| `StaleReports.PairAcceptedTwice` | src/runtime/coordinator.cpp:342-392 | from there one (grant, attempt) pair is accepted twice |
| `StaleReports.SomePairIsAcceptedTwice` | src/runtime/coordinator.cpp:514-586 | on any new store that retains three grants, two fences and four decisions or more, start-up succeeds and after any set-up some run, decisions included, accepts a pair twice |
| `ShapedRuns.FreshStarts` | src/runtime/coordinator.cpp:668-756 | start-up on a new store succeeds and leaves a good coordinator without grants |
| `StaleBoot.StaleIndexLeavesGrantLive` | src/runtime/coordinator.cpp:679-749 | with two of three grants dropped by the boot record's pruning, the live one is missed |
| `StaleBoot.BootCanLeaveGrantLive` | src/runtime/coordinator.cpp:679-749 | on any new store that retains one grant, a fence and two decisions or more, and for any set-up, there is a journal, decisions included, whose recovery restarts with fence identities to spare and a grant left live |
| `SweepSafety.PlanAffordable` | src/engine/allocator.cpp:630-729 | what a plan approves in bandwidth sums to at most what was observed |
| `SweepSafety.CarriedIsBacked` | src/runtime/coordinator.cpp:240-258 | a grant the approval still covers weakens what the current plan approves for its contract |
| `SweepSafety.SweptPromisesFit` | src/runtime/coordinator.cpp:203-258 | backed grants, one per contract, promise together no more than was observed |
| `Sweeps.TurnOutcome` | src/runtime/coordinator.cpp:208-256 | under any index and whatever is dropped, one turn touches no live grant but the one named, which is rebound exactly when what the index leads to is to be carried over for the same subject, and otherwise stands or has ended |
| `Sweeps.SweepIsFairIff` | src/runtime/coordinator.cpp:203-258 | from any index and whatever it drops, what a sweep leaves live is as it was, or rebound because it was itself to be re-evaluated and is covered, iff no turn misjudges |
| `Sweeps.SweepAdvances` | src/runtime/coordinator.cpp:203-258 | whatever it drops, a sweep keeps the coordinator in order |
| `Sweeps.ExactSweep` | src/runtime/coordinator.cpp:203-258 | a sweep from an exact index that drops nothing misjudges in no turn and ends with an exact index |
| `SweptGrants.SweepDropsNothing` | src/store/state_store.cpp:1023-1029 | a sweep from an exact index drops nothing if there are no more grants than are retained, or room for a fence, a decision and three records per identity |
| `SweptGrants.SweepSurvivors` | src/runtime/coordinator.cpp:203-258 | so under those conditions, checked before the sweep, whatever it leaves live is as it was or was rebound because the plan backs it |
| `SweptGrants.SweepSettles` | src/runtime/coordinator.cpp:203-258 | with a fence identity and three records per identity, every identity swept is afterwards not live, or its grant has not passed its tick and is bound to the vector in force |
| `SweptGrants.SweepLeavesCurrent` | src/runtime/coordinator.cpp:203-258 | both of the sweep over all live grants, every condition read off the coordinator before it |
| `SweptGrants.FairGrantsFit` | src/runtime/coordinator.cpp:203-258 | after a fair sweep, the grants it carried over on a scope, one per contract, are backed by the plan and fit the observed bandwidth |
| `SweptExactly.SweepMakesExactly` | src/runtime/coordinator.cpp:203-258 | a sweep over all live grants makes of every grant exactly what its fields and the authority in force say: expired, fenced, rebound, or untouched; conditions read before it |
| `SweptExactly.SweptInShort` | src/runtime/coordinator.cpp:208-256 | so what is live afterwards has not expired, is bound to the authority in force and was under its term, boot and policy; what was current is unchanged |
| `SweptGrants.SweptGrantsFit` | src/runtime/coordinator.cpp:203-258 | the same under conditions checked before the sweep: an exact index, and retention that drops nothing for as long as it lasts |
| `StaleSweeps.CarriedIsUnfair` | src/runtime/coordinator.cpp:203-258 | a sweep that leaves an uncovered grant live and rebound is not fair |
| `StaleSweeps.SomeSweepCarriesUnbacked` | src/runtime/coordinator.cpp:209-250 | on any new store that retains three grants, after any set-up and whatever is approved for a contract, some run leads to a sweep that carries over a promise the approval does not cover |
| `CoordinatorRuntime.Coordinator.constructor` | src/runtime/coordinator.cpp:668-685 | fresh allocators and an empty index over an opened store |
| `CoordinatorRuntime.Coordinator.CommitRecord` | src/runtime/coordinator.cpp:90-94 | one record through the store |
| `CoordinatorRuntime.Coordinator.FenceGrant` | src/runtime/coordinator.cpp:157-190 | fencing in place equals the pure step under any index, keeps the live identities exact, and keeps index and store in step unless it drops a grant |
| `CoordinatorRuntime.Coordinator.Report` | src/runtime/coordinator.cpp:514-586 | so do acknowledgement and application |
| `CoordinatorRuntime.Coordinator.Issue` | src/runtime/coordinator.cpp:354-391 | so does issuing |
| `CoordinatorRuntime.Coordinator.Acquire` | src/runtime/coordinator.cpp:342-392 | so does acquiring as a whole: the decision is recorded, refused unless it authorises, then the grant is issued |
| `CoordinatorRuntime.Coordinator.MoveFound` | src/runtime/coordinator.cpp:531-549 | the committing half of a report |
| `CoordinatorRuntime.Coordinator.Carried` | src/runtime/coordinator.cpp:240-246 | decides whether the approval still covers the grant |
| `CoordinatorRuntime.Coordinator.Reconsider` | src/runtime/coordinator.cpp:235-256 | a grant whose capability alone moved: decision recorded, then rebound or fenced |
| `CoordinatorRuntime.Coordinator.SweepGrant` | src/runtime/coordinator.cpp:208-256 | one pass of the sweep |
| `CoordinatorRuntime.Coordinator.SweepLive` | src/runtime/coordinator.cpp:203-258 | the sweep loop over live identities, mutating store and index, equals the pure sweep |
| `CoordinatorRuntime.Coordinator.Reindex` | src/runtime/coordinator.cpp:746-749 | the rebuilt index is the specified one |
| `CoordinatorRuntime.Coordinator.Bootstrap` | src/runtime/coordinator.cpp:712-724 | sets each generation never set |
| `CoordinatorRuntime.Coordinator.FenceEarlier` | src/runtime/coordinator.cpp:726-745 | the start-up fencing loop equals its specification under any index |
| `CoordinatorRuntime.CollectLive` | src/runtime/coordinator.cpp:726-729 | the live identities in vector order |
| `CoordinatorRuntime.Open` | src/runtime/coordinator.cpp:668-756 | create equals its specification on every recovered store; it leaves no live grant under exactly the stated condition, and then ends synced |
| `ByteStreams.ByteWriter.constructor` | include/dmf/core.hpp:395-400 | an empty, good writer |
| `ByteStreams.ByteWriter.Word` | src/core/core.cpp:119-152 | appends exactly the little-endian bytes, or fails for good iff they do not fit |
| `ByteStreams.ByteReader.constructor` | include/dmf/core.hpp:431-443 | a good reader at the start |
| `ByteStreams.ByteReader.Fail` | src/core/core.cpp:177-181 | the first error sticks |
| `ByteStreams.ByteReader.Word` | src/core/core.cpp:194-238 | the accumulating loop reads the number, or runs out of input; a failed reader never moves |
| `ByteStreams.ByteReader.Flag` | src/core/core.cpp:240-248 | a flag is 0 or 1, anything else fails |
| `ByteStreams.ByteReader.Enum` | include/dmf/core.hpp:479-489 | an unknown number fails, so it is never reinterpreted |
| `ByteStreams.ByteReader.Count` | src/core/core.cpp:261-270 | a count is bounded before anything is read |
| `Codec.ListReads` | src/codec/codec.cpp:58-71 | a counted list reads back iff the reader admits its length, and is refused otherwise |
| `Codec.SteadyIsLossless` | src/codec/codec.cpp:34-181 | a reader that never changes its answer on more input is lossless on what it reads back: any suffix is left, every proper prefix is truncated |
| `Codec.CodesStandApart` | src/codec/codec.cpp:34-181 | no code is a prefix of another value's code |
| `Codec.SetLossless` | src/codec/codec.cpp:53-71 | guarantee sets: exact round trip with any suffix, every proper prefix fails |
| `Codec.DecodedSetIsStable` | src/codec/codec.cpp:58-71 | whatever order guarantees arrive in, decoding yields a canonical set that reads back as itself |
| `Codec.DeltaLossless` | src/codec/codec.cpp:112-139 | the same for deltas |
| `CodecExact.SetDecodesFrom` | src/codec/codec.cpp:58-71 | a set is decoded from exactly the codes of its guarantees listed in any order, for canonical sets only |
| `CodecExact.OneCodeIff` | src/codec/codec.cpp:53-71 | a set has a single code iff it has fewer than two guarantees |
| `CodecExact.DeltaWritten` | src/codec/codec.cpp:119-139 | whatever is decoded as a delta is that delta's code |
| `CodecExact.EnvelopeListed` | src/codec/codec.cpp:164-181 | an envelope is decoded only from its bounds in some order and its cap, and is canonical |
| `CodecExact.ContractListed` | src/codec/codec.cpp:202-223 | a contract is decoded only if it is valid, and only from its own code with guarantees and bounds in some order |
| `CodecExact.BindingWritten` | src/codec/codec.cpp:357-369 | whatever is decoded as a binding is that binding's code |
| `CodecExact.RuleWritten` | src/codec/codec.cpp:779-801 | whatever is decoded as a rule is that rule's code, and a valid rule |
| `CodecExact.DecodedPolicyIsValid` | src/codec/codec.cpp:844-886 | an installed policy is decoded only if it is valid |
| `Codec.EnvelopeLossless` | src/codec/codec.cpp:158-181 | the same for envelopes |
| `Codec.ContractLossless` | src/codec/codec.cpp:187-223 | the same for contracts |
| `Codec.BindingLossless` | src/codec/codec.cpp:348-369 | the same for authority bindings |
| `Codec.PolicyReads` | src/codec/codec.cpp:844-886 | a valid policy reads back iff it has at most 4096 rules, and is refused otherwise |
| `Codec.PolicyLosslessIff` | src/codec/codec.cpp:822-886 | it is lossless under exactly that condition |
| `Codec.WidePolicyUnreadable` | src/domain/policy.cpp:99-105 | a concrete valid policy whose own code is refused |
| `Codec.RuleCode` | src/codec/codec.cpp:767-801 | a rule with its optional fields reads back, whatever follows |
| `Codec.RuleSteady` | src/codec/codec.cpp:779-801 | more input never changes what a rule reads as |
| `Codec.ProfileCode` | src/codec/codec.cpp:803-820 | so does a class profile |
| `CodecRuntime.EncodeSet` | src/codec/codec.cpp:53-56 | appends exactly the set's code, or fails iff it does not fit |
| `CodecRuntime.DecodeSet` | src/codec/codec.cpp:58-71 | the inserting loop answers what the reading function says; a failed reader stays failed |
| `CodecRuntime.EncodeDelta` | src/codec/codec.cpp:112-117 | appends exactly the delta's code |
| `CodecRuntime.DecodeDelta` | src/codec/codec.cpp:119-139 | both loops answer what the reading function says |
| `CodecRuntime.EncodeEnvelope` | src/codec/codec.cpp:158-162 | appends exactly the envelope's code |
| `CodecRuntime.DecodeEnvelope` | src/codec/codec.cpp:164-181 | answers what the reading function says |
| `CodecRuntime.EncodeContract` | src/codec/codec.cpp:187-200 | appends exactly the contract's code |
| `CodecRuntime.DecodeContract` | src/codec/codec.cpp:202-223 | answers what the reading function says, validation included |
| `CodecRuntime.EncodeRule` | src/codec/codec.cpp:767-777 | appends exactly the rule's code |
| `CodecRuntime.DecodeRule` | src/codec/codec.cpp:779-801 | answers what the reading function says, with its three optional fields |
| `CodecRuntime.EncodePolicy` | src/codec/codec.cpp:822-842 | appends exactly the policy's code |
| `CodecRuntime.DecodePolicy` | src/codec/codec.cpp:844-886 | answers what the reading function says |
| `CodecRuntime.EncodeBinding` | src/codec/codec.cpp:348-355 | appends exactly the binding's code |
| `CodecRuntime.DecodeBinding` | src/codec/codec.cpp:357-369 | answers what the reading function says |
| `CodecRuntime.Finish` | src/codec/codec.cpp:24-28 | no error and no trailing input |
| `CodecRuntime.StoreAndReload` | src/codec/codec.cpp:822-886 | encoding and decoding a valid policy through writer and reader gives it back or the capacity error, exactly by its rule count |
| `GrantCodec.EvidenceReads` | src/codec/codec.cpp:261-281 | evidence reads back normalised |
| `GrantCodec.NormalIsSettled` | src/domain/evidence.cpp:195-217 | normalising yields one item per group, groups ascending |
| `GrantCodec.SettledIsNormal` | src/domain/evidence.cpp:195-217 | and leaves such evidence alone |
| `GrantCodec.GrantCode` | src/codec/codec.cpp:655-718 | a valid grant the reader accepts reads back with its evidence normalised |
| `GrantCodec.GrantSteady` | src/codec/codec.cpp:680-718 | more input never changes what a grant reads as |
| `GrantCodec.GrantIsStorable` | src/codec/codec.cpp:680-718 | whatever reads as a grant is valid and storable |
| `GrantCodec.DecodedGrantIsSound` | src/domain/grant.cpp:62-87 | a grant is decoded only if identified, fully bound, not ended before issued, no stronger than asked, and whole where protected |
| `GrantCodec.DecodedItemIsSound` | src/domain/evidence.cpp:124-138 | evidence is decoded only if attributed and inside its kind's range |
| `GrantCodec.GrantLosslessIff` | src/codec/codec.cpp:655-718 | a valid grant is encoded without loss iff its body is storable |
| `GrantCodec.TwiceEvidencedChanges` | src/domain/grant.cpp:62-87 | a concrete valid grant decodes, without error, to a different one |
| `GrantCodecRuntime.Normalize` | src/domain/evidence.cpp:195-217 | the superseding loop over sorted items |
| `GrantCodecRuntime.EncodeEvidence` | src/codec/codec.cpp:261-264 | appends exactly the evidence's code |
| `GrantCodecRuntime.DecodeEvidence` | src/codec/codec.cpp:266-281 | answers what the reading function says |
| `GrantCodecRuntime.DecodePrecondition` | src/codec/codec.cpp:578-591 | answers what the reading function says |
| `GrantCodecRuntime.ValidateGrant` | src/domain/grant.cpp:62-87 | the first failing check of a grant |
| `GrantCodecRuntime.EncodeGrant` | src/codec/codec.cpp:655-678 | appends exactly the grant's code |
| `GrantCodecRuntime.DecodeGrant` | src/codec/codec.cpp:680-718 | answers what the reading function says, validation included |

## Left out

- Sockets, sessions, role checks, message bodies, threads and locks, file handles, text rendering, digests: I/O and formatting. The clock and the ticks of each operation are parameters.
- Snapshots, rotation and multi-segment history: recovery is of one base segment. Historical-evidence retention is left out as well; whether its bound was met is an input of each append.
- Journal byte and record accounting other than the record number: `record_journal_write` and the segment byte count cannot fail in the model.
- Runs contain only appends that succeed. An append whose record is written and then refused by `apply_record` ends the run.
- StateStores.CrashRecovery: the decoding of payloads is a parameter there; `RecordCodec.JournalRecovers` fixes it.
- RecordCodec.JournalRecovers: runs contain no accounting checkpoint, since only taking a snapshot writes one; its payload is modelled. Plans, allocation entries and capability snapshots are not journal records, and their codecs are left out.
- The reason code of a fence and the counts a sweep reports: derived from what is modelled, and nothing reads them back.
- Restoration evaluation, evidence publication (`EvidenceStore::publish`) and contract re-registration: case analyses that would add only easy members.
- The `Grant` of the store and coordinator models carries identity, binding, both guarantee sets, sequence, attempt, ticks and state; the full record is modelled in `GrantCodec`. Its decisions and restorations carry what the store reads; the full records are in `DecisionCodec`.
- CoordinatorRuns.AcceptedOnce: stated for runs that keep the index exact. Past that it can fail, as `StaleReports.SomePairIsAcceptedTwice` shows; which later runs happen to repeat no pair is not characterised.
- ClosureReports.CheckPassesIff: the plan, session and frame counters that the check also compares are not modelled; no record but a checkpoint carries them.
- SweptGrants.SweptGrantsFit: what the plan approves for a contract is one function for the whole sweep, since no record a sweep commits changes what an evaluation reads; the evaluation itself, with its identities, is a parameter.
- CoordinatorRuntime.Coordinator.Acquire: the evaluation's decision and the offer it makes are parameters; allocation and assessment are modelled on their own. The validation of the decision and of the issued grant is in `DecisionCodec` and `GrantCodec` and is not repeated.
- `std::sort` is modelled by insertion sort. Where a comparator leaves ties (idle entries of an infeasible plan, equal-tick history) the order of equal elements is that sort's.
- Exits of `allocate_scope` that cannot be reached (a failing upsert, bandwidth underflow, an overflowing total) are proved unreachable and not written as branches.
- Null request pointers are not modelled: a request always has its policy, capability and contracts.
