# Scoring core, modelled and proved

A Dafny model of the deterministic scoring programs of the repository, with proofs of what they promise.
Everything is exact integer arithmetic. `dafny verify dfyconfig.toml` checks the whole project.

| part | files | what it is about |
|---|---|---|
| Apportionment | `Hamilton.dfy` | largest-remainder allocation with its tie-break, its optimality and its unreachable errors |
| Composition | `Composition.dfy`, `CompositionBounds.dfy`, `BlendLaw.dfy`, `SingleStage.dfy`, `Compute.dfy`, `ComposeAdmission.dfy` | a pool split across sources, then across accounts; the law that determines the result; error and influence bounds; the whole guest computation and what it admits |
| Capture and policy | `Manifest.dfy`, `PolicyRoot.dfy` | the manifest codec and the source-policy root |
| Commitments | `Merkle.dfy` | the array tree, its proofs, soundness and binding |
| Reputation | `Graph.dfy`, `Bfs.dfy`, `PageRank.dfy`, `RankLaws.dfy`, `SybilIsolation.dfy`, `MassBound.dfy` | integer PageRank: who passes what to whom, isolation of unreachable accounts as a theorem about two runs, and the bound on total standing |
| Rank kernel | `DecaySearch.dfy`, `PushRank.dfy`, `PushKernel.dfy`, `PushResult.dfy`, `PushIsolation.dfy` | the production push kernel: equal to the pull form in every score, exact total with its dust, isolation of what is published |
| Founder prior | `FounderPrior.dfy` | which vouch earns a founder's prior |
| Contribution rounds | `Records.dfy`, `LastWrite.dfy`, `Reconcile.dfy`, `LiveRecords.dfy`, `Grouping.dfy`, `Eligibility.dfy`, `Discounts.dfy`, `Stage2.dfy`, `Stage2Bounds.dfy`, `Payout.dfy`, `CarveOut.dfy`, `RaterVoice.dfy` | payload codec, reconciliation of the record log, who is discounted, budgeted valuation, what each claim pays, and what one rater can move |
| Reputation experiment | `Feedback.dfy`, `FeedbackAdmission.dfy`, `Propagation.dfy`, `Division.dfy`, `ReviewerRank.dfy`, `PraiseLaws.dfy` | pair reconciliation, and the iterated propagation as the one solution of a law about the included praise |
| Event traces | `EventCodec.dfy`, `Trace.dfy`, `TraceAdmission.dfy` | the event accumulator, the trace verifier and what it accepts |
| Event serialization | `Nip01.dfy`, `Nip01Reader.dfy` | the NIP-01 serializer, and a reader that undoes it |
| Shared | `Wrappers.dfy`, `Totals.dfy`, `Ordering.dfy`, `Sequences.dfy`, `Bytes.dfy`, `FixedPoint.dfy` | sums and tallies, stable sorting, concatenations, big-endian words, fixed-point operators |

Loops that update variables are methods proved against specification functions; the promises are lemmas
about those functions. Accounts, agents and digests are natural numbers in their canonical order.
Ordered maps are iterated in ascending key order. `sort_by` and `Array.prototype.sort` are the stable
insertion sort `Ordering.SortBy`. The fixed-point scale is `FixedPoint.S`, 10^18.

Where a promise does not hold as stated, the exact condition is proved. A trust multiplier applied outside
the row keeps the mass bound exactly when it is at most the scale: `MassBound.SafeMultipliers`. Adding
islands to an empty network changes the reported iteration count: `SybilIsolation.IterationsUnchanged` says
exactly when it does not. Dividing the prior among present seeds isolates exactly when some seed is present:
`SybilIsolation.SeedDivisorIsolates`. A manifest of more than 255 sources does not parse back:
`Manifest.ParseEncoded`. A map-valued apportionment loses mass on a repeated key exactly when an overwritten
entry has weight: `Propagation.ConservedExactlyWhen`; the propagation never passes a repeated key, by
`ReviewerRank.RowsAreOk`.

`docs/concepts/algorithm.md` describes the distance search as following positive edges to other accounts.
The kernel does so (`crates/pagerank-core/src/pagerank.rs:94-123`), and `DecaySearch` models it;
`research/scoring-sim/tg.py:29-38` follows every listed edge, and `PageRank` follows that code. `PushRank`
compares the two on the network of carrying edges.

## Model

| member | source | states |
|---|---|---|
| `Hamilton.Apportion` | crates/composition-core/src/hamilton.rs:16-74 | refuses exactly the inputs the source refuses, with the same error, and otherwise returns the largest-remainder apportionment; no overflow and no residual error is reachable after the input check |
| `Hamilton.AdmissionMeaning` | crates/composition-core/src/hamilton.rs:21-32 | an input is admitted exactly when all weights are positive and add up to the positive denominator |
| `Hamilton.ApportionedExactly` | crates/composition-core/src/hamilton.rs:34-72 | with distinct keys a list of shares is the result if and only if it has the floors, the pool as its sum, and no loser that ranks before a winner |
| `Hamilton.ApportionedSum` | crates/composition-core/src/hamilton.rs:51-71 | the allocations add up to the pool |
| `Hamilton.ResidualInRange` | crates/composition-core/src/hamilton.rs:54-58 | the residual is never negative and is smaller than the number of items |
| `Hamilton.QuotaRule` | crates/composition-core/src/hamilton.rs:34-71 | every allocation is less than one unit away from its exact share, and equal to it when that is whole |
| `Hamilton.WinnerHasRemainder` | crates/composition-core/src/hamilton.rs:59-71 | only an item with a positive remainder receives an extra unit, so no allocation passes the ceiling |
| `Hamilton.LargerWeightNotLess` | crates/composition-core/src/hamilton.rs:59-71 | a larger weight never receives less than a smaller one |
| `Hamilton.Optimal` | crates/composition-core/src/hamilton.rs:16-74 | among all integer vectors that add up to the pool, the result minimises the total deviation from the exact shares |
| `Hamilton.OrderOfInputIrrelevant` | crates/composition-core/src/hamilton.rs:59-72 | with distinct keys the result does not depend on the order of the items |
| `Hamilton.ApportionIsSorted` | crates/composition-core/src/hamilton.rs:72 | the result lists exactly the input items in strictly ascending key order |
| `Hamilton.OwnTotalReproducesValues` | crates/composition-core/src/hamilton.rs:34-48 | a pool equal to the denominator gives every item back its own value |
| `Hamilton.HandOut` | crates/composition-core/src/hamilton.rs:59-71 | the in-place loop over the ranked indices gives one unit to each of the first places; its checked additions never fail |
| `Composition.BlendSources` | crates/composition-core/src/compute.rs:197-236 | the two-stage loop returns the blend, or names the first source whose quota is zero; its pool-mismatch and overflow branches are dead |
| `Composition.SourceConserves` | crates/composition-core/src/compute.rs:215-219 | the accounts of a source receive exactly its quota |
| `Composition.BlendConserves` | crates/composition-core/src/compute.rs:197-235 | the quotas add up to the pool and so do the combined balances |
| `Composition.CombinedBounds` | crates/composition-core/src/compute.rs:220-240 | every combined balance is positive and at most the pool |
| `Composition.QuotasAdmitted` | crates/composition-core/src/compute.rs:197-204 | the quota call is always admitted after the checks |
| `Composition.SourceAdmitted` | crates/composition-core/src/compute.rs:215 | so is the call that splits a positive quota |
| `Composition.AddAllocations` | crates/composition-core/src/compute.rs:220-223 | the accumulation loop posts each allocation to its account without overflow |
| `CompositionBounds.TwoStageError` | crates/composition-core/src/compute.rs:197-229 | an account held by k > 0 sources ends strictly within 2k points of its exact rational share, and an account held by none gets nothing |
| `CompositionBounds.InfluenceCap` | research/composition/simulate.ts:161-181 | replacing all entries of one source moves the output, in L1, by at most twice its quota |
| `CompositionBounds.QuotaCap` | crates/composition-core/src/compute.rs:197-204 | a quota is at most the ceiling of pool times weight over the weight scale |
| `CompositionBounds.OutputIsCanonical` | crates/composition-core/src/compute.rs:230-240 | the output is strictly ascending by account, lists exactly the positive balances, and adds up to the pool |
| `CompositionBounds.SourceOrderIrrelevant` | research/composition/reference.ts:363-365 | two policies that list the same sources in any order compose to the same result, or both to none |
| `BlendLaw.BlendKeepsLaw` | crates/composition-core/src/compute.rs:197-240 | the quotas divide the pool by the weights, every source divides its quota by the values of its entries, and the lists hold exactly the positive amounts in account order |
| `BlendLaw.BlendUnique` | crates/composition-core/src/compute.rs:197-240 | nothing but the blend satisfies that law |
| `SingleStage.NumeratorsTotal` | research/composition/simulate.ts:46-61 | the exact numerators of the single-stage alternative add up to its denominator |
| `SingleStage.OtherTotalsExact` | research/composition/simulate.ts:53 | the division of the product by one total is exact |
| `SingleStage.SingleStageNearIdeal` | research/composition/simulate.ts:62-70 | the single-stage result is within one point of the exact share |
| `SingleStage.ItemsAreHeld` | research/composition/simulate.ts:54-61 | the accounts of the single-stage form are exactly those that some source holds |
| `SingleStage.TwoStageNearSingleStage` | research/composition/simulate.ts:41-71 | for every account: if k > 0 sources hold it, the two-stage and the single-stage result differ by less than 2k + 1 points, and if none does both are nothing |
| `Compute.Compute` | crates/composition-core/src/compute.rs:61-240 | every check in source order with its own error; once the checks pass, the only failure left is a zero source quota |
| `Compute.ChecksReady` | crates/composition-core/src/compute.rs:91-195 | passing every check up to the union bound establishes all that the blend relies on |
| `Compute.CheckPolicy` | crates/composition-core/src/compute.rs:93-149 | the static policy loop returns the first violation in source order, or the carried state |
| `Compute.ValidateSourceBlob` | crates/composition-core/src/compute.rs:22-59 | the checks of one source blob in order |
| `Compute.WeightSumFits` | crates/composition-core/src/compute.rs:131-133 | the weight sum cannot overflow |
| `ComposeAdmission.CleanIsFit` | crates/composition-core/src/compute.rs:93-149 | the policy scan is clean exactly when ids ascend, snapshots differ, and every source is identified, admitted with its sole domain, required, weighted and fresh |
| `ComposeAdmission.ChecksExactly` | crates/composition-core/src/compute.rs:61-195 | the checks hand over exactly these sources if and only if the input satisfies the listed conditions on capture, policy, blobs and sizes |
| `Manifest.Encode` | crates/composition-core/src/codec.rs:95-121 | the encoder writes the header and the records in stable id order |
| `Manifest.ParseManifest` | crates/composition-core/src/codec.rs:39-93 | the parser refuses malformed input with the same error in the same order |
| `Manifest.EncodedHeader` | crates/composition-core/src/codec.rs:95-103 | magic, version, chain, block and count stand at their frozen offsets |
| `Manifest.RecordRoundTripFront` | crates/composition-core/src/codec.rs:105-111 | the first seven fields of a record stand at their frozen offsets |
| `Manifest.RecordRoundTripBack` | crates/composition-core/src/codec.rs:112-117 | and so do the following six |
| `Manifest.ParseEncoded` | crates/composition-core/src/codec.rs:39-121 | parsing an encoded manifest returns it with its sources stably sorted by id, exactly when it has at most 255 sources |
| `Manifest.EncodeParsed` | crates/composition-core/src/codec.rs:39-121 | re-encoding whatever parsed with ascending ids returns the same bytes |
| `Manifest.EncodingIgnoresOrder` | crates/composition-core/src/codec.rs:95-121 | with distinct ids the order of enumeration does not reach the bytes |
| `PolicyRoot.SourcePolicyRoot` | crates/composition-core/src/codec.rs:143-167 | the level-by-level loop with odd-node promotion computes the root of the promotion tree |
| `PolicyRoot.RootBindsPolicy` | crates/composition-core/src/codec.rs:126-167 | without collisions, equal roots mean the same source policies |
| `PolicyRoot.RootBindsFields` | crates/composition-core/src/codec.rs:126-167 | without collisions every source under a root is found under an equal root with the same id, snapshot, family, program, domain, weight, age and requirement |
| `PolicyRoot.RootIgnoresState` | crates/composition-core/src/codec.rs:126-167 | the captured state of a source does not reach the policy root |
| `Merkle.OutputRoot` | research/composition/reference.ts:222-237 | the array construction computes the root of the array tree over the sorted leaves, zero without entries |
| `Merkle.OutputProof` | research/composition/production.ts:249-273 | for every entry the collected proof folds to the output root |
| `Merkle.ProofFolds` | research/composition/production.ts:264-271 | from every array index the sibling walk folds to the root |
| `Merkle.ProofSound` | research/composition/production.ts:249-273 | without collisions, only an entry of the output folds to its root, by any proof |
| `Merkle.RootBinds` | research/composition/reference.ts:222-237 | without collisions, two outputs have the same root exactly when they are rearrangements of each other |
| `Merkle.ArrayTreeItems` | research/composition/reference.ts:229-235 | the array layout holds exactly the leaves |
| `Merkle.FoldIsMember` | research/composition/production.ts:249-273 | in any hash tree, what folds to the value of the tree is one of its items |
| `Merkle.ValueBinds` | research/composition/reference.ts:218-237 | hash trees of equal value hold the same items, whatever their shapes |
| `Merkle.SortedDigests` | research/composition/reference.ts:225-227 | sorting the leaf digests is arranging the entries by digest |
| `Bfs.BfsDistances` | research/scoring-sim/tg.py:29-38 | the queue loop returns the least hop count of every reachable node and of no other |
| `Graph.ReachableByWalk` | research/scoring-sim/tg.py:29-38 | reachable means at the end of a walk from a source |
| `Graph.ClosureIsReachable` | research/scoring-sim/tg.py:29-38 | the closure is finite and holds exactly the reachable nodes |
| `PageRank.Calculate` | research/scoring-sim/tg.py:80-135 | the nested loops compute the specified rank, its iteration count and its convergence flag; an empty network has no flag |
| `PageRank.Iterate` | research/scoring-sim/tg.py:91-130 | the iteration loop with its early stop is the recursive run |
| `PageRank.Pass` | research/scoring-sim/tg.py:92-128 | one pass computes the next scores, and its largest change is below the tolerance exactly when every reachable change is |
| `PageRank.Score` | research/scoring-sim/tg.py:93-126 | the loop over attesters adds up the flows into one recipient |
| `PageRank.ScanRow` | research/scoring-sim/tg.py:100-112 | the loop over targets totals the row and finds the weight toward the recipient |
| `PageRank.Attest` | research/scoring-sim/tg.py:98-123 | one attester contributes the damped, decayed flow of the specification |
| `PageRank.PowerOfDecay` | research/scoring-sim/tg.py:40-43 | the decay loop is the recursive power |
| `SybilIsolation.IslandsChangeNothing` | research/scoring-sim/tg.py:65-78 | adding accounts out of reach of the seeds, with any edges out of unreachable accounts, changes no score; unreachable accounts score zero; with a nonempty network the iteration count and the convergence flag stay too |
| `SybilIsolation.IslandsStayAtZero` | research/scoring-sim/tg.py:80-130 | the same agreement holds after every step, not only at the end |
| `SybilIsolation.IterationsUnchanged` | research/scoring-sim/tg.py:83-130 | the iteration count is unchanged exactly when the network was not empty, still is, or no iteration is allowed |
| `SybilIsolation.SeedDivisorIsolates` | research/scoring-sim/tg.py:59-62 | when only reached accounts are endowed, vouches for seeds are not required, the prior is divided among present seeds and there are fewer accounts than the scale, islands start at zero and change no initial score exactly when some seed is present |
| `SybilIsolation.StepMirrors` | research/scoring-sim/tg.py:91-127 | one step keeps the two runs in agreement |
| `SybilIsolation.SameDistances` | research/scoring-sim/tg.py:29-38 | edges out of unreachable nodes change no distance |
| `MassBound.InitialWithinScale` | research/scoring-sim/tg.py:45-78 | the initial scores add up to at most the scale, in every configuration |
| `MassBound.OutflowBound` | research/scoring-sim/tg.py:98-123 | an attester passes on at most the damped part of its own score |
| `MassBound.StepWithinScale` | research/scoring-sim/tg.py:91-127 | a step keeps the scores non-negative and their sum within the scale |
| `MassBound.EveryIterationWithinScale` | research/scoring-sim/tg.py:86-130 | the bound holds in every iteration, for a seed multiplier of at most the scale, one inside the row, or one without seeds to apply it to |
| `MassBound.ResultWithinScale` | research/scoring-sim/tg.py:132-135 | a nonzero normalised result lies in (S - n, S] |
| `MassBound.LargerMultiplierBreaksTheBound` | research/scoring-sim/tg.py:113-123 | with any larger multiplier outside the row one step on a network of two accounts leaves the bound |
| `MassBound.SafeMultipliers` | research/scoring-sim/tg.py:113-123 | the multipliers outside the row that keep the bound in every configuration of fractions, on every network, at every iteration, are exactly those of at most the scale |
| `RankLaws.NonSeedUnboosted` | research/scoring-sim/tg.py:104-116 | the multiplier does not touch what a non-seed passes on |
| `RankLaws.FlowOutsideRow` | research/scoring-sim/tg.py:98-123 | outside the row a seed passes on, floored step by step, its score times boosted weight over the unboosted row, decayed and damped; everybody else the same without the boost |
| `RankLaws.FlowInsideRow` | research/scoring-sim/tg.py:98-123 | inside the row the whole row of a seed is boosted, its total with it |
| `RankLaws.ScoreIs` | research/scoring-sim/tg.py:92-123 | a new score is the undamped part of the initial score and, in reach, what all accounts pass on together |
| `RankLaws.DecayByHop` | research/scoring-sim/tg.py:40-43 | seeds are not decayed, each hop multiplies once more, and accounts out of reach pass on nothing |
| `RankLaws.FartherDecaysMore` | research/scoring-sim/tg.py:40-43 | with a fractional base a farther account is decayed at least as much |
| `RankLaws.MultiplierNeedsSeedEdge` | research/scoring-sim/tg.py:80-135 | if no seed has an edge that carries, the multiplier changes nothing in the result |
| `RankLaws.InitialEverywhere` | research/scoring-sim/tg.py:45-78 | in every configuration: without a seed that holds the prior all start alike; otherwise the holders share the trust share, the other endowed accounts the rest, and nobody else starts with anything |
| `RankLaws.RunSteps` | research/scoring-sim/tg.py:86-130 | a run reports how many steps it took and returns the scores after them; the first step in which nobody in reach moved by the tolerance ends it, and without one it takes all it may |
| `DecaySearch.BfsDecays` | crates/pagerank-core/src/pagerank.rs:94-123 | carrying the decay along the search gives every reached account the power of its least distance |
| `PushRank.PushIsPull` | crates/pagerank-core/src/pagerank.rs:261-280 | pushing along hoisted, filtered ratios gives every account exactly the pull-form score of the same step |
| `PushKernel.HoistRatios` | crates/pagerank-core/src/pagerank.rs:224-253 | the hoisting loops hold, for every account, its row of ratios over the carrying, reachable targets |
| `PushKernel.PushAll` | crates/pagerank-core/src/pagerank.rs:261-280 | the push loops post every flow on top of the teleport |
| `PushKernel.MaxDelta` | crates/pagerank-core/src/pagerank.rs:291-303 | the loop finds the largest change of a reachable score |
| `PushResult.InitializeScores` | crates/pagerank-core/src/pagerank.rs:41-88 | the initial scores are those of the pull form |
| `PushResult.Iterate` | crates/pagerank-core/src/pagerank.rs:259-312 | the loop is the run of the pull form; its assertion on the total standing never fires |
| `PushResult.Normalize` | crates/pagerank-core/src/pagerank.rs:318-359 | normalisation with its dust; its subtraction never underflows |
| `PushResult.Calculate` | crates/pagerank-core/src/pagerank.rs:160-316 | the kernel fails only on an edge that leaves the node set, and otherwise returns the dusted pull-form rank |
| `PushResult.KernelIsPull` | crates/pagerank-core/src/pagerank.rs:160-359 | the kernel and the pull form agree exactly in every normalised score, the iteration count and the flag; the dust of one account is the only difference |
| `PushResult.KernelTotal` | crates/pagerank-core/src/pagerank.rs:333-358 | on every closed nonempty graph with fractional parameters the published scores are not negative and add up to exactly the scale |
| `PushResult.KernelDust` | crates/pagerank-core/src/pagerank.rs:343-358 | what normalisation lost goes to one account, the least that has a score if any has one |
| `PushRank.PulledFlow` | crates/pagerank-core/src/pagerank.rs:261-280 | one source passes on its score times weight over carrying row, decayed and damped, floored step by step |
| `PushIsolation.KernelStarts` | crates/pagerank-core/src/pagerank.rs:41-88 | the seeds share the trust share, the other accounts in their reach the rest, and nobody else starts with anything; without seeds all start alike |
| `PushIsolation.UnreachedGetNothing` | docs/concepts/algorithm.md:35-38 | an account that no seed reaches ends with nothing, rounding remainder included |
| `PushIsolation.KernelIgnoresIslands` | README.md:14-16 | accounts that no seed reaches, with any edges out of unreached accounts, change no published score, not the iteration count and not the flag |
| `FounderPrior.Reach` | research/scoring-sim/founder_prior.py:23-35 | the worklist returns what the sources reach in the graph without the banned account |
| `FounderPrior.ReachedByWalk` | research/scoring-sim/founder_prior.py:23-35 | that is what some walk from a source reaches without touching the banned account |
| `FounderPrior.R2ByWalk` | research/scoring-sim/founder_prior.py:46-48 | R2 holds exactly when a walk from any seed ends at somebody else who vouches |
| `FounderPrior.DecideR2` | research/scoring-sim/founder_prior.py:46-48 | the decision is rule R2 |
| `FounderPrior.DecideR3` | research/scoring-sim/founder_prior.py:51-56 | the decision is rule R3 |
| `FounderPrior.R3ByWalk` | research/scoring-sim/founder_prior.py:51-56 | R3 holds exactly when a walk from another seed, never through the candidate, ends at a non-seed that vouches |
| `FounderPrior.R3IgnoresUnilateralChange` | research/scoring-sim/founder_prior.py:51-56 | changing edges out of the candidate and out of accounts unreachable without it changes no R3 verdict |
| `FounderPrior.R3ResistsMinting` | research/scoring-sim/founder_prior.py:51-56 | edges out of the candidate and of newly minted accounts change no R3 verdict |
| `FounderPrior.R3Monotone` | research/scoring-sim/founder_prior.py:51-56 | further edges never take an R3 verdict away |
| `FounderPrior.RulesAreOrdered` | research/scoring-sim/founder_prior.py:42-56 | R3 implies R2 and R2 implies R1 |
| `FounderPrior.SelfCertification` | research/scoring-sim/founder_prior.py:99-108 | in every graph a founder certifies itself under R1 and R2 by one minted account, and R3 does not react |
| `FounderPrior.OneCooperatingFounderSuffices` | research/scoring-sim/founder_prior.py:134-143 | one cooperating founder defeats R3 in every graph |
| `Records.DecodeClaim` | crates/contributions-core/src/records.rs:101-135 | the decoder accepts exactly the claim layout and reads only in bounds |
| `Records.EncodeClaim` | crates/contributions-core/src/records.rs:140-197 | the encoder writes head, strings and arrays in the layout of the Solidity contract ABI |
| `Records.HeadValues` | crates/contributions-core/src/records.rs:167-177 | the five head words say offset of title, content hash, and offsets of uri, contributors and shares |
| `Records.ArraysRead` | crates/contributions-core/src/records.rs:180-195 | contributors and shares lie at their offsets, length first, item by item |
| `Records.ClaimRoundTrip` | crates/contributions-core/src/records.rs:101-197 | decoding inverts encoding exactly when the lists match and are not empty, some share is nonzero, and the last offset fits 32 bits; every other encoding is skipped |
| `Records.DecodedShares` | crates/contributions-core/src/records.rs:117-134 | on any bytes, a decoded claim has one share a contributor, 160-bit contributors, 32-bit shares, and a positive share sum below 2^64 |
| `Records.ScoreRoundTrip` | crates/contributions-core/src/records.rs:200-232 | responses and valuations come back exactly when their number is admitted |
| `Records.CleanMeaning` | crates/contributions-core/src/records.rs:53-74 | a word with clean leading bytes is one whose number fits the narrower type |
| `Records.ReadItems` | crates/contributions-core/src/records.rs:122-129 | the array loop returns the items exactly when all words are present and clean |
| `Reconcile.Reconcile` | crates/contributions-core/src/reconcile.rs:46-117 | the filter, the sort by time and place, and the overwriting loops compute the live state |
| `Reconcile.LatestWins` | crates/contributions-core/src/reconcile.rs:52-58 | a live entry is what its one winning record wrote: kept, and latest by time, then by place in the log |
| `Reconcile.LiveKeys` | crates/contributions-core/src/reconcile.rs:60-114 | a key is live exactly when some kept record writes it |
| `Reconcile.WinnerExists` | crates/contributions-core/src/reconcile.rs:52-58 | every live key has a winning record |
| `Reconcile.EntriesAreOrdered` | crates/contributions-core/src/reconcile.rs:52-58 | sorting pairs of time and place is a stable sort by time |
| `Reconcile.RevocationIsDeletion` | crates/contributions-core/src/reconcile.rs:48-57 | a revocation anywhere in the log is the same as striking every record of its uid |
| `Reconcile.InterleavingIrrelevant` | crates/contributions-core/src/reconcile.rs:52-58 | permuting the log while keeping the order of records of the same second changes nothing |
| `Reconcile.AnyOrderOfDistinctTimes` | crates/contributions-core/src/reconcile.rs:52-58 | with distinct times any reordering of the log changes nothing |
| `Reconcile.LiveClaimShares` | crates/contributions-core/src/reconcile.rs:67-87 | a live claim lies in the round, and its shares add up to its positive total below 2^64 |
| `Reconcile.PartialSharesBounded` | crates/contributions-core/src/reconcile.rs:72-76 | no intermediate share sum leaves that range |
| `Reconcile.LiveResponse` | crates/contributions-core/src/reconcile.rs:96-103 | a live response is 1 or 2, from a contributor of a live claim |
| `Reconcile.LiveValuation` | crates/contributions-core/src/reconcile.rs:105-110 | a live valuation is at most 100, on a live claim |
| `Reconcile.ConsentFollowsLastResponse` | crates/contributions-core/src/reconcile.rs:123-135 | the last response of a contributor decides its consent, even against its own claim |
| `LiveRecords.LiveClaimExactly` | crates/contributions-core/src/reconcile.rs:46-87 | a claim is live exactly when a record that no revocation names claims its uid inside the round and decodes |
| `LiveRecords.LiveClaimAsWritten` | crates/contributions-core/src/reconcile.rs:72-87 | a live claim has the attester and time of its last record, and every account holds exactly the sum of the shares listed for it |
| `LiveRecords.LiveResponseExactly` | crates/contributions-core/src/reconcile.rs:96-103 | a response is live exactly when a standing record of a listed contributor answers a live claim |
| `LiveRecords.LiveValuationExactly` | crates/contributions-core/src/reconcile.rs:105-110 | a valuation is live exactly when a standing record values a live claim |
| `LiveRecords.LiveValuationAsWritten` | crates/contributions-core/src/reconcile.rs:105-110 | and it is the score of the last such record |
| `LiveRecords.SilenceAcceptsOwnClaim` | crates/contributions-core/src/reconcile.rs:123-134 | whoever never answered has accepted the claim it attested and no other |
| `LiveRecords.LastAnswerDecides` | crates/contributions-core/src/reconcile.rs:123-134 | whoever answered is taken at the last answer |
| `Eligibility.DecideEligibility` | crates/contributions-core/src/compute.rs:124-170 | the loops select exactly the valuations that pass the filters, in key order, with their discounts, and the raters who cast them |
| `Eligibility.CoClaims` | crates/contributions-core/src/compute.rs:128-137 | the nested loops collect exactly the pairs of contributors that share a claim |
| `Eligibility.SkippedValuationInert` | crates/contributions-core/src/compute.rs:143-153 | adding or changing a valuation that is skipped changes no eligible valuation |
| `Stage2.RunStage2` | crates/contributions-core/src/compute.rs:184-265 | the loops compute budgets, claim scores, contributor weights and the combined weights as specified |
| `Stage2.AddScores` | crates/contributions-core/src/compute.rs:200-211 | the score loop skips raters without a budget and discounts after the budget |
| `Stage2.AddWeights` | crates/contributions-core/src/compute.rs:213-228 | the nested loop posts every nonzero attributed and consented part |
| `Stage2.CombineSide` | crates/contributions-core/src/compute.rs:247-262 | one side of the carve-out posts its amount in proportion to its own mass, nothing without mass |
| `Discounts.ConflictMeaning` | crates/contributions-core/src/compute.rs:128-159 | a rater is conflicted exactly when some live claim lists it with another account that is a contributor of the rated claim |
| `Discounts.CountingEntry` | crates/contributions-core/src/compute.rs:138-170 | every live valuation of somebody else's claim by a rater of enough standing has exactly one entry, with its score, and the discount exactly for the conflicted |
| `Discounts.EntriesCount` | crates/contributions-core/src/compute.rs:138-170 | there is no other entry |
| `Discounts.ParticipantsCount` | crates/contributions-core/src/compute.rs:161 | who takes part is who cast such a valuation |
| `Discounts.ClaimScoreIsGiven` | crates/contributions-core/src/compute.rs:192-211 | a claim's score is the sum of what its counting valuations give: reputation times score over the rater's own scores, discounted, floored step by step |
| `Discounts.CollaboratorsDiscounted` | crates/contributions-core/src/compute.rs:154-211 | a rater whose counting valuations are all of collaborators' claims gives away at most the discounted part of its reputation |
| `Discounts.OutsidersHeardInFull` | crates/contributions-core/src/compute.rs:154-211 | a rater without a conflict gives away its whole reputation but for truncation |
| `Payout.ClaimPays` | crates/contributions-core/src/compute.rs:213-228 | a scored claim pays each contributor its consented share, floored step by step, and nobody else anything |
| `Payout.WeightIsEarned` | crates/contributions-core/src/compute.rs:213-228 | a contributor's weight is what it earns from all scored claims together |
| `Payout.RefusalPaysNothing` | crates/contributions-core/src/reconcile.rs:126 | whoever refuses a claim earns nothing from it |
| `Payout.SilentNomineeCapped` | crates/contributions-core/src/reconcile.rs:127-133 | a nominee who never answers earns at most the unaccepted part of the claim's score |
| `Payout.AcceptancePaysInFull` | crates/contributions-core/src/reconcile.rs:125-130 | whoever accepts, and the silent attester, earns the whole share |
| `Payout.AcceptedClaimPaysOut` | crates/contributions-core/src/compute.rs:221-226 | a claim that all its contributors accept pays out its score but for less than score / scale + 1 a contributor |
| `Payout.AcceptedRoundPaysOut` | crates/contributions-core/src/compute.rs:213-228 | with every scored claim accepted the contributors receive the claim scores but for that truncation |
| `CarveOut.EvaluatorFraction` | crates/contributions-core/src/compute.rs:230-239 | the evaluators' fraction is exact in basis points, and more than the whole is the whole |
| `CarveOut.EvaluatorsReceive` | crates/contributions-core/src/compute.rs:253-262 | evaluators with reputation receive their fraction but for less than one unit each |
| `CarveOut.RoundCombined` | crates/contributions-core/src/compute.rs:241-262 | every account receives its part of the contributors' side, by its weight, and of the evaluators' side, by its reputation if it took part |
| `Stage2Bounds.BudgetIsSum` | crates/contributions-core/src/compute.rs:192-196 | a budget is the sum of the rater's own eligible scores |
| `Stage2Bounds.RaterWithinReputation` | crates/contributions-core/src/compute.rs:198-211 | the contributions of a rater together are at most its reputation |
| `Stage2Bounds.ScoresWithinReputation` | crates/contributions-core/src/compute.rs:198-211 | the claim scores together are at most the reputation of the participants |
| `Stage2Bounds.WeightsWithinScores` | crates/contributions-core/src/compute.rs:213-228 | the contributor weights together are at most the claim scores |
| `Stage2Bounds.CombinedBounds` | crates/contributions-core/src/compute.rs:230-262 | the combined weights are at most the scale, and with mass on both sides miss it by less than one unit a contributor and one a participant |
| `Stage2Bounds.EveryLogKeepsBounds` | crates/contributions-core/src/compute.rs:268-288 | for every record log and every non-negative reputation the whole chain of bounds holds |
| `RaterVoice.ScaleInvariance` | crates/contributions-core/src/compute.rs:192-211 | multiplying all scores of one rater by a positive factor changes no stage-2 result |
| `RaterVoice.RaterLocality` | crates/contributions-core/src/compute.rs:124-211 | any change of one rater's valuations moves the claim scores, in L1, by at most twice its reputation |
| `RaterVoice.SkippedValuationChangesNothing` | crates/contributions-core/src/compute.rs:143-153 | a self-valuation, or one by a rater below the minimum, changes no stage-2 result |
| `Feedback.Decide` | research/erc8004-reputation/reference.ts:516-609 | the loops give every record the decision of the simple rule and list the included records once each, in canonical order |
| `Feedback.OneVoicePerPair` | research/erc8004-reputation/reference.ts:567-591 | at most one record is included for each reviewer and target |
| `Feedback.EveryPairSpokenFor` | research/erc8004-reputation/reference.ts:567-591 | every pair with an eligible record has an included one |
| `Feedback.EnumerationIrrelevant` | research/erc8004-reputation/reference.ts:516 | the included list does not depend on the order of the input |
| `Feedback.ExcludedIsInert` | research/erc8004-reputation/reference.ts:519-565 | a record excluded for a reason could as well be absent |
| `Propagation.Apportion` | research/erc8004-reputation/reference.ts:448-480 | the map-valued apportionment fails exactly when the weights add up to nothing; its residual check is dead |
| `Propagation.ConservedExactlyWhen` | research/erc8004-reputation/reference.ts:479 | stored in a map, the allocations of every pool add up to it exactly when, of two entries for one key, the earlier has no weight |
| `Propagation.RepeatedKeyLosesMass` | research/erc8004-reputation/reference.ts:479 | two entries for one key keep only the weight of the later one |
| `Propagation.DistinctKeysConserve` | research/erc8004-reputation/reference.ts:448-480 | with distinct keys the map adds up to the pool |
| `ReviewerRank.RowsAreOk` | research/erc8004-reputation/reference.ts:684-689 | because one record speaks for each pair, no row names a target twice |
| `Propagation.StepConserves` | research/erc8004-reputation/reference.ts:690-728 | one iteration keeps the masses non-negative and their sum at exactly the scale |
| `Propagation.PropagationConserves` | research/erc8004-reputation/reference.ts:690-728 | so does every iteration |
| `Propagation.Propagate` | research/erc8004-reputation/reference.ts:660-728 | the loop fails only for want of prior weight; the conservation failure is unreachable |
| `ReviewerRank.Run` | research/erc8004-reputation/reference.ts:499-728 | from raw records to masses: with prior weight the result adds up to the scale and follows, by the law of `ReviewerRank.Reached`, from the praise in the included records |
| `Division.SharedDivides` | research/erc8004-reputation/reference.ts:448-480 | the map-valued apportionment gives every key the floor of its proportion or one more, uses up the pool, and lets nobody who gets one more stand behind somebody who does not |
| `Division.DivisionUnique` | research/erc8004-reputation/reference.ts:448-480 | no other map divides the pool so |
| `Division.DivisionIsNear` | research/erc8004-reputation/reference.ts:448-480 | every part is less than one unit away from its proportion |
| `ReviewerRank.StepMoves` | research/erc8004-reputation/reference.ts:690-728 | one iteration divides the damped part of the scale into budgets by the masses, every budget by its praise or by the prior, and the rest by the prior |
| `ReviewerRank.MassesReached` | research/erc8004-reputation/reference.ts:672-728 | after every iteration the masses are those of the law |
| `PraiseLaws.PraiseIsPassedOn` | research/erc8004-reputation/reference.ts:700-715 | a reviewer with positive included feedback passes its whole budget to those it praised and nothing to anybody else, each within one unit of its proportion of the praise |
| `PraiseLaws.RestReturnsToPrior` | research/erc8004-reputation/reference.ts:700-715 | a node without returns its budget to the prior, within one unit of the weights |
| `PraiseLaws.BudgetsAreDamped` | research/erc8004-reputation/reference.ts:668-699 | the budgets add up to the scale times numerator over denominator, each within one unit of its node's proportion of the masses |
| `PraiseLaws.UnpraisedEndsAtZero` | research/erc8004-reputation/reference.ts:684-728 | an agent that is no reviewer and that no positive included record names ends with nothing |
| `PraiseLaws.FeedbackDecides` | research/erc8004-reputation/reference.ts:499-728 | the law has one solution: the records determine the masses |
| `FeedbackAdmission.IncludedExactly` | research/erc8004-reputation/reference.ts:516-609 | a record is included exactly when it passes every test on registries, cutoff, target, tag, unit, decimals, attribution, reviewer, self-feedback, range and revocation, and no later such record has the same reviewer and target |
| `EventCodec.BuildHeads` | research/erc8004-completeness/reference.ts:178-196 | the loop computes both accumulator heads |
| `EventCodec.TopicsInjective` | research/erc8004-completeness/reference.ts:108-116 | the topic count makes the topic vector unambiguous |
| `EventCodec.PreimageInjective` | research/erc8004-completeness/reference.ts:123-133 | the source preimage determines the topics and the data |
| `EventCodec.LeafLayout` | research/erc8004-completeness/reference.ts:148-176 | the ten words of an event leaf, in their order |
| `EventCodec.FoldLayout` | research/erc8004-completeness/reference.ts:135-141 | a fold is the head so far, then the leaf |
| `EventCodec.HeadBinds` | research/erc8004-completeness/reference.ts:135-196 | two histories of one length with one head are equal, unless two of the hashed strings collide |
| `EventCodec.PreimageHeadBinds` | research/erc8004-completeness/reference.ts:184-185 | the preimage commitment alone determines every raw payload, unless two of the hashed strings collide |
| `Trace.VerifyTrace` | research/erc8004-completeness/reference.ts:261-351 | the verifier returns the first rejection in the order of its checks, events included, and accepts otherwise |
| `Trace.AcceptedExactly` | research/erc8004-completeness/reference.ts:261-351 | it accepts exactly the conforming traces |
| `Trace.CheckEvents` | research/erc8004-completeness/reference.ts:284-331 | the loop with the map of running implementations reports the first faulty event |
| `TraceAdmission.AcceptedIsLawful` | research/erc8004-completeness/reference.ts:261-351 | a trace is accepted exactly when the checkpoint is the policy's, every event is contiguous, of the pair, in range and available, and every registry is activated first and runs approved code only |
| `Trace.CheckpointLayoutFront` | research/erc8004-completeness/reference.ts:198-224 | the first seven words of a checkpoint, in their order |
| `Trace.CheckpointLayoutBack` | research/erc8004-completeness/reference.ts:225-234 | and the last seven |
| `Trace.DigestBinds` | research/erc8004-completeness/reference.ts:198-234 | a digest determines its checkpoint |
| `Trace.CheckpointBindsHistory` | research/erc8004-completeness/reference.ts:236-351 | a trace accepted against the checkpoint of another trace is that trace |
| `Trace.DigestBindsHistory` | research/erc8004-completeness/reference.ts:261-351 | traces accepted under one digest are one trace |
| `Trace.OrdinaryEventsRunApprovedCode` | research/erc8004-completeness/reference.ts:308-331 | an ordinary event of an accepted trace carries the approved code hash of its registry's latest activation or upgrade |
| `Trace.FirstEventActivates` | research/erc8004-completeness/reference.ts:309-329 | in an accepted trace the activation of a registry is exactly its first event, and nothing is recovered |
| `Nip01.Serialize` | research/nostr/bench_common.rs:76-110 | the loops write the serialization |
| `Nip01.Escape` | research/nostr/bench_common.rs:21-40 | the escape loop writes the code of every byte |
| `Nip01.EscapedReadsBack` | research/nostr/bench_common.rs:21-40 | escaping can be undone for every byte string, and the closing quote is unmistakable |
| `Nip01.HexInjective` | research/nostr/bench_common.rs:42-48 | hexadecimal writing is injective |
| `Nip01.ListDecodable` | research/nostr/bench_common.rs:91-105 | lists of distinguishable elements are distinguishable, at any nesting |
| `Nip01.SerializationInjective` | research/nostr/bench_common.rs:76-110 | equal serializations mean equal key, time, kind, nested tags and content, whatever the length of the keys |
| `Nip01Reader.ShortestLiteral` | research/nostr/bench_common.rs:21-40 | what is written for a byte is its shortest string literal, and with lower-case digits the only one so short |
| `Nip01Reader.SerializedReadsBack` | research/nostr/bench_common.rs:76-110 | a reader of the array returns key, time, kind, tags and content of every serialization |

## Left out

- Hash functions: `Merkle` and `PolicyRoot` take two abstract functions on unbounded digests, assumed free of collisions with leaf and pair preimages apart; `EventCodec` and `Trace` take one function from bytes to 256-bit words, assumed free of collisions on the strings actually hashed.
- Digest comparisons in `compute` (capture commitment, CID, SHA-256, output root, policy manifest) are boolean inputs of `Compute`; `Params::validate` is taken to have passed, and the journal and output encodings after the blend are not part of this model.
- The canonical score blob decoder (`crates/composition-core/src/blob.rs`) is represented by its contract: ascending accounts with positive 128-bit values.
- Compute.Compute: does not model a failing conversion or an overflow of platform-sized counters, which 32-bit bounds on the input sizes exclude; its errors drop the payloads that the source carries, such as the address of a duplicate snapshot or the id of a stale source.
- PushResult.Calculate: does not model a row whose weights overflow 256 bits, nor the counts of nodes, edges and out-degree that the kernel reports beside the scores.
- The weighted-prior rank program: a separate recurrence, described apart from the standard one.
- Stage2.RunStage2: does not model the width of U256 intermediates; the bounds of `Stage2Bounds` keep every sum within reputation, which the scale bounds.
- Stage 1 of a contribution round: the reputation is an arbitrary non-negative map, and the final pool distribution (`distribute_points_generic`) is not part of this model.
- Eligibility.DecideEligibility: does not model the list of skipped valuations with their reasons, which only feeds an audit view.
- Records.DecodeClaim: does not model the memory that the decoder reserves before it reads an array.
- Reconcile.Reconcile: the payload bytes are decoded by the model of `records.rs`; signature and resolver checks that precede the log are not part of this model.
- Feedback.Decide: does not model the parsing of decimal strings or the shape checks of `validate`, of which only unique record ids are used; agent keys are numbers in canonical order.
- Direct scores, ranks, metrics, leave-one-out reports and recommendation text of the reputation experiment: presentation around the two modelled parts.
- Trace.VerifyTrace: does not model upper and lower case of hexadecimal strings; addresses and hashes are numbers.
- `attributeFeedback`: a replay of wallet updates by agent, which would add only another last-write-wins map.
- Nip01.Serialize: does not model UTF-8 validity of the strings; any bytes are allowed, which is more general.
- `verify_event`, `verify_audit` and signature checks: foreign cryptography.
- `policy_manifest_encoded`, `params_encoded`, `journal_encoded`, `base32LowerNoPad`: fixed encodings without a decoder in the repository.
- Deployment scripts, guest build scripts, network clients, databases and the frontend.
- Float simulations and probes under `research/scoring-sim`.
