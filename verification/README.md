# Sprax blockchain: a verified model

A Dafny model of the Sprax node's core and of the properties it is built for: the BFT consensus
engine and its driver, the weighted proposer schedule, the replicated ledger with its store, the
staking keeper, the Merkle root, the explorer index and the 18-decimal amounts of the wallet.
`dafny verify dfyconfig.toml` checks all of it.

## How it is built

Code that changes state in place is a class whose methods are proved equal to a function on values
(`ensures State() == Spec(old(State()))`); what must hold over whole runs is proved about those
functions, as lemmas over sequences of calls, events or writes.

| module | what it models |
|---|---|
| `Basics`, `Sums`, `Sorting`, `Encoding` | amounts, identifiers, finite sums, stable sorting, big-endian words |
| `ValidatorSets` | quorum arithmetic with `u64` wrap-around, `select_proposer` with saturating `i64` |
| `Engine`, `EngineRules`, `EngineRuns` | vote tallies, quorum search, lock, commit certificates; what one vote does; every run of engine calls |
| `Driver`, `Reactions` | one consensus driver as a reaction to events; each reaction, and whose blocks it votes for |
| `Honesty`, `Exhaustion` | what an honest driver never does, and the limit of that |
| `Protocol`, `Penalties` | a cluster of honest drivers and Byzantine votes: agreement, finalized blocks, evidence and its punishment |
| `FourNodes`, `Staleness`, `Stamping` | runs of four validators in which agreement and finalization fail, and the exact limits |
| `DriverLedger` | the ledger that the driver sees is the ledger modelled below |
| `ChainTypes`, `Executor` | accounts, blocks, store writes; transaction execution |
| `Merkle` | the level-by-level Merkle root |
| `Ledger`, `Admission` | genesis, mempool, mining, applying, commit signatures, reopening; what is let in, condition by condition |
| `Contents` | what the ledger holds over every life of a node: genuine transactions, index entries, everybody's turn in a block |
| `LedgerRuns` | every run of ledger operations, crashes and restarts: hash links, crash points, indexes |
| `Replication`, `ChainRuns` | mining against replaying, supply, nonces, catch-up |
| `Crashes`, `Incidents` | when a crash or a refused block is harmless for the accounts; three runs in which something is lost |
| `MetaStore` | the byte-keyed metadata map as four tables |
| `Staking`, `KeeperRules` | the keeper; what each call requires and does |
| `StakingRuns`, `StakingLife` | its books over every sequence of calls; jail and tombstone |
| `ActiveSets`, `Powers` | the choice of the active set; its members, order and powers in terms of stake |
| `Indexer` | secondary indexes and pages |
| `Decimal` | printing and parsing of SPRX amounts |

Hash functions, the state root and the signature check are parameters (`Crypto`, or a `Hash`
argument); no injectivity is assumed of them. An account or validator address and a 32-byte digest
are the big-endian numbers of their bytes. In `Protocol`, signatures are attribution: a vote whose
signature verifies was signed by the validator it names.

## What came out differently from the documentation

* Locks do not protect agreement here: every attempt clears them and no vote reads them. What does
  is that an honest driver has the block in its ledger before it prevotes it, so its next attempt is
  at a greater height. A block whose header height is not above the ledger is accepted unchecked
  (`ledger.rs:355-358`), and for such blocks agreement fails: `Staleness.AgreementExactly` shows that
  two distinct blocks can both be committed at vote height `h` if and only if one of them has a header
  height below `h` and a chain of acceptable blocks passes both heights. The witness runs keep to what
  a block hash fixes: proposer, height, parent and acceptability.
* A node finalizes whatever block its ledger holds at the height, but the certificate is for the block
  with the precommit quorum, and the reactive precommit goes there too. Two honest nodes can finalize
  different blocks (`Stamping.DifferentFinalizedBlocks`); a finalized block is a committed one if and
  only if it is the one its signatures are for (`Protocol.FinalizedIsCommittedExactly`).
* The round is a `u32` that wraps. Attempts advance exactly as long as it does not
  (`Honesty.AttemptsAdvance`); a driver that attempts one height 2^32 times can equivocate
  (`Exhaustion.ExhaustedRoundEquivocates`).
* The quorum threshold doubles the total in `u64`. It means "more than two thirds" exactly for totals
  below 2^63 (`ValidatorSets.QuorumMeansTwoThirds`).
* `execute_transaction` is described as atomic. A credit that overflows 128 bits leaves the debit and
  earlier credits behind. It is atomic if and only if every recipient's balance after the debit plus
  what it receives stays below 2^128 (`Executor.AtomicExactly`). When that fails while mining, and only
  then, replicas cannot replay the block (`Replication.ReplayExactly`,
  `Incidents.OverflowSplitsReplicas`).
* `apply_block` writes accounts before it checks the roots. A refused block leaves the accounts as they
  were exactly if it is empty or its first transaction is refused (`Crashes.LateRefusalKeepsAccounts`,
  `Incidents.RefusedBlockStays`). Theorems that need it speak of clean runs: no block refused after its
  execution had begun.
* A crash after account writes but before the block's height is recorded brings back the old chain with
  newer accounts; it is harmless if and only if no account was written after the last recorded height
  (`Crashes.CrashHarmlessExactly`, `Incidents.CrashLosesTransfer`).
* `undelegate` lowers the delegation before it can fail on the validator's tokens. What such a call
  takes away is counted as lost in the books of `StakingRuns.Accounting`; `StakingRuns.DelegationLost`
  is a run in which it happens.
* The end of a jail term is computed in `u64`; the term is served in full if and only if that does not
  overflow (`StakingLife.FullTermExactly`).
* Validators with equal stake are chosen by the iteration order of a hash map when they compete for the
  last places, and only then (`ActiveSets.ChoiceDetermined`).
* A Merkle root binds a list only together with its length (`Merkle.LengthsClash`).

## Model

| member | source | states |
|---|---|---|
| ValidatorSets.QuorumMeansTwoThirds | crates/sprax-consensus/src/validator.rs:83-91 | the threshold means strictly more than two thirds of the power if and only if the total is below 2^63 |
| ValidatorSets.QuorumsShareHonest | crates/sprax-consensus/src/validator.rs:83-91 | with at most a third of the power Byzantine any two quorums share an honest validator |
| ValidatorSets.QuorumHasHonest | crates/sprax-consensus/src/validator.rs:83-91 | no quorum is all Byzantine |
| ValidatorSets.ValidatorSet.SelectProposer | crates/sprax-consensus/src/validator.rs:94-119 | the loops bump everybody, take the last maximum and charge it, as the schedule function says |
| ValidatorSets.SelectExactly | crates/sprax-consensus/src/validator.rs:94-119 | the proposer has the greatest sum of priority and power, the last of several |
| ValidatorSets.MachineExactly | crates/sprax-consensus/src/validator.rs:94-119 | the saturating operations and the cast to `i64`, for all arguments |
| ValidatorSets.SelectMoves | crates/sprax-consensus/src/validator.rs:94-119 | one selection raises each priority by its power and lowers the chosen one by the total, without saturating |
| ValidatorSets.SelectKeepsBalance | crates/sprax-consensus/src/validator.rs:94-119 | priorities stay above minus the total and sum to zero |
| ValidatorSets.ScheduleShare | crates/sprax-consensus/src/validator.rs:94-119 | after k selections a priority is its start plus k times its power less the total once per turn |
| ValidatorSets.ScheduleBounds | crates/sprax-consensus/src/validator.rs:94-119 | from zero priorities: bounds (-W, (n-1)W], zero sum, no saturation if nW is below 2^63, turns below k·w/W + 1 and not far below k·w/W |
| ValidatorSets.ZeroPowerNeverChosen | crates/sprax-consensus/src/validator.rs:94-119 | a validator without power has no turn, ever |
| ValidatorSets.ExactProportion | crates/sprax-consensus/src/validator.rs:94-119 | when W divides k·w for all, everybody had exactly k·w/W turns and all priorities are zero again |
| ValidatorSets.FullCycle | crates/sprax-consensus/src/validator.rs:94-119 | W selections give each validator as many turns as it has power and restore the start |
| ValidatorSets.RefreshUnchanged | crates/sprax-consensus/src/engine.rs:80-92 | refreshing with an unchanged set keeps every priority |
| ValidatorSets.RefreshKeepsSchedule | crates/sprax-consensus/src/engine.rs:80-92 | a rebuilt set before every selection leaves every state of the schedule as it is, for any powers and priorities |
| ValidatorSets.RefreshKeepsTurns | crates/sprax-consensus/src/engine.rs:80-92 | and every turn |
| ValidatorSets.RefreshedProportion | crates/sprax-consensus/src/engine.rs:80-92 | when W divides k·w for all, the refreshed schedule too gives exactly k·w/W turns and returns to its start |
| EngineRules.RefreshExactly | crates/sprax-consensus/src/engine.rs:80-92 | a refreshed set has the new members and powers; known validators keep their priority, newcomers bring their own |
| Engine.UniqueQuorum | crates/sprax-consensus/src/engine.rs:249-322 | per height and round at most one choice, nil included, has a quorum |
| Engine.BftConsensusEngine.SetValidatorSet | crates/sprax-consensus/src/engine.rs:80-92 | known validators keep their priority, nothing else of the engine changes |
| Engine.BftConsensusEngine.BeginHeight | crates/sprax-consensus/src/engine.rs:112-123 | a height starts without lock, valid block and votes |
| Engine.BftConsensusEngine.Propose | crates/sprax-consensus/src/engine.rs:136-156 | proposers outside the set are refused, otherwise the hash is recorded for the height and round |
| EngineRules.ProposeExactly | crates/sprax-consensus/src/engine.rs:136-156 | recorded, with the prevote step, exactly for members of the set |
| Engine.BftConsensusEngine.PowerByChoice | crates/sprax-consensus/src/engine.rs:249-268 | the accumulated powers are the tallies of the choices, in whatever order the votes are visited |
| Engine.BftConsensusEngine.HasPrevoteQuorum | crates/sprax-consensus/src/engine.rs:249-268 | true exactly when some block or nil has a prevote quorum |
| Engine.BftConsensusEngine.BlockWithQuorum | crates/sprax-consensus/src/engine.rs:271-322 | the scan finds the block with quorum if there is one, independently of the iteration order |
| Engine.BftConsensusEngine.Prevoted | crates/sprax-consensus/src/engine.rs:159-203 | first vote per key wins and the answer is whether some choice has a quorum; with sound powers a quorum sets lock and valid block and moves the step |
| EngineRules.PrevoteExactly | crates/sprax-consensus/src/engine.rs:159-203 | counted exactly for the current position by a member; first vote kept; the answer is whether more than two thirds back a block or nil; a block's majority locks it with the round |
| Engine.BftConsensusEngine.AggregateCommitSignatures | crates/sprax-consensus/src/engine.rs:325-343 | collects and sorts exactly the precommits for the block |
| Engine.BftConsensusEngine.Precommitted | crates/sprax-consensus/src/engine.rs:206-246 | counts the precommit; signatures returned certify a block with quorum, with sound powers exactly the certificate of the quorum block |
| EngineRules.PrecommitExactly | crates/sprax-consensus/src/engine.rs:206-246 | counted and stored like a prevote, the commit step exactly with an answer |
| EngineRules.PrecommitAnswer | crates/sprax-consensus/src/engine.rs:206-246 | signatures exactly when more than two thirds back a block, and then all its precommits by ascending address |
| Engine.BftConsensusEngine.CertifiedSignatures | crates/sprax-consensus/src/engine.rs:230-246 | the certificate of the block with a precommit quorum, if there is one |
| Engine.BftConsensusEngine.FindConflictingVote | crates/sprax-consensus/src/engine.rs:100-109 | finds a stored vote of the same validator, position and type for another choice, exactly when there is one |
| Engine.CertificateIsSorted | crates/sprax-consensus/src/engine.rs:325-343 | certificates are strictly ascending by address |
| EngineRuns.ReachableEngine | crates/sprax-consensus/src/engine.rs:112-246 | in every run votes stay under their keys; while the set is not replaced in mid-height voters are active and a lock names the block with prevote quorum at the locked round |
| EngineRuns.ConflictsAreEquivocations | crates/sprax-consensus/src/engine.rs:100-109 | what is returned as a conflict is valid equivocation evidence, and every stored equivocating vote is found |
| EngineRuns.CertificateSound | crates/sprax-consensus/src/engine.rs:206-246 | returned signatures are strictly sorted, from active validators that precommitted one hash, with more than two thirds of the power |
| EngineRuns.CertificatesOnlyGrow | crates/sprax-consensus/src/engine.rs:206-246 | later precommits of the round return certificates for the same block that contain the earlier ones |
| Driver.ConsensusDriver.BeginHeight | crates/sprax-node/src/consensus_driver.rs:120-160 | next height, next round, refreshed set, proposer chosen |
| Driver.ConsensusDriver.CastVote | crates/sprax-node/src/consensus_driver.rs:397-414 | a vote is sent and counted by the own engine |
| Driver.ConsensusDriver.CastNilPrevote | crates/sprax-node/src/consensus_driver.rs:271-277 | a nil prevote ends the attempt |
| Driver.ConsensusDriver.MaybeCastReactivePrecommit | crates/sprax-node/src/consensus_driver.rs:376-395 | at most one precommit per attempt, for the block with prevote quorum, which may finalize the height |
| Driver.ConsensusDriver.FinalizeHeight | crates/sprax-node/src/consensus_driver.rs:416-427 | the signatures are stamped on whatever block the ledger holds at the height |
| Driver.ConsensusDriver.ReceivePrecommitVote | crates/sprax-node/src/consensus_driver.rs:361-371 | a precommit is counted, and a certificate finalizes the height |
| Driver.ConsensusDriver.ProposeAsLocal | crates/sprax-node/src/consensus_driver.rs:179-207 | mining extends the own ledger before the prevote |
| Driver.ConsensusDriver.AwaitProposal | crates/sprax-node/src/consensus_driver.rs:209-269 | skips other heights and rounds, applies before prevoting, nil otherwise |
| Driver.ConsensusDriver.HandleInboundVote | crates/sprax-node/src/consensus_driver.rs:310-374 | a verified vote is checked for equivocation, which is reported, then counted; it may trigger the precommit or finalize |
| Driver.ConsensusDriver.ProcessVotesUntilFinalized | crates/sprax-node/src/consensus_driver.rs:279-308 | the loop counts votes of this height and round until finalized or out of votes |
| Driver.ConsensusDriver.RunOneHeight | crates/sprax-node/src/consensus_driver.rs:120-177 | a whole attempt is a sequence of the events that the theorems quantify over |
| Driver.AttemptIsEvents | crates/sprax-node/src/consensus_driver.rs:120-177 | the attempt with its two receive loops equals the run of its events |
| Reactions.StartExactly | crates/sprax-node/src/consensus_driver.rs:120-160 | a start: the ledger's next height, round zero or one more in 32 bits, cleared votes and lock, the proposer that the schedule chooses from the refreshed set |
| Reactions.LocalExactly | crates/sprax-node/src/consensus_driver.rs:179-207 | the own turn and nothing else lets a mined block into the ledger; it is prevoted by a member |
| Reactions.ProposalExactly | crates/sprax-node/src/consensus_driver.rs:209-269 | for the current attempt: a block of the awaited proposer that the ledger takes is prevoted; any other proposal gets exactly one nil prevote and leaves the ledger alone |
| Reactions.OtherProposal | crates/sprax-node/src/consensus_driver.rs:222-240 | proposals of other heights, rounds or phases change nothing |
| Reactions.TimeoutsExactly | crates/sprax-node/src/consensus_driver.rs:271-308 | a missing proposal gets a nil prevote, an undecided round ends silently |
| Reactions.VoteExactly | crates/sprax-node/src/consensus_driver.rs:279-374 | only votes of the attempt by members count; they never touch the ledger and trigger at most one precommit |
| Reactions.PrecommitExactly | crates/sprax-node/src/consensus_driver.rs:376-395 | the precommit is sent exactly when there was none in this attempt and a block has a prevote quorum, and for such a block |
| Reactions.VotesForDuty | crates/sprax-node/src/consensus_driver.rs:242-249 | over every run each prevoted block was made by the proposer that the schedule chose for that height and round |
| Reactions.LedgerForDuty | crates/sprax-node/src/consensus_driver.rs:242-260 | over every run an announcement or the own mining appends only a block of the proposer on duty |
| Honesty.AttemptsAdvance | crates/sprax-node/src/consensus_driver.rs:120-145 | (height, round) grows strictly with an attempt if and only if the round counter is not exhausted, and changes with nothing else |
| Honesty.HonestNeverEquivocates | crates/sprax-node/src/consensus_driver.rs:120-177 | no two votes of a driver run without an exhausted round counter are equivocation evidence; at one height it prevotes one block that is not outdated |
| Exhaustion.ExhaustedRoundEquivocates | crates/sprax-node/src/consensus_driver.rs:120-145 | with 2^32 attempts at one height a run exists whose driver votes twice in one round |
| Protocol.ReachableInv | crates/sprax-node/src/consensus_driver.rs:120-269 | in every reachable cluster engines hold signed votes only and precommits rest on prevote quorums |
| Protocol.Agreement | crates/sprax-node/src/consensus_driver.rs:120-269 | no two distinct blocks of header height at least h gather prevote quorums at h, in any rounds of any run |
| Protocol.CommitNeedsPrevotes | crates/sprax-node/src/consensus_driver.rs:376-395 | a precommit quorum implies a prevote quorum for that block in that round |
| Protocol.CommitAgreement | crates/sprax-node/src/consensus_driver.rs:376-395 | blocks of header height at least h committed at h are equal |
| Protocol.StampIsCommitted | crates/sprax-node/src/consensus_driver.rs:416-421 | signatures that an honest node has written are for a hash with a quorum of signed precommits at that height |
| Protocol.FinalizedIsCommittedExactly | crates/sprax-node/src/consensus_driver.rs:416-421 | unless the certified block is outdated, a finalized block is committed if and only if it is the certified one |
| Protocol.FinalizedAgreement | crates/sprax-node/src/consensus_driver.rs:416-421 | of two honest nodes that finalized a height, one with signatures that match its block, both hold the same block if and only if the other's match too |
| Protocol.ReachableLedgers | crates/sprax-core/src/ledger.rs:351-475 | ledgers of honest nodes stay linked chains of acceptable blocks |
| Protocol.EvidenceNamesByzantine | crates/sprax-node/src/consensus_driver.rs:331-353 | what a driver reports is a valid equivocation and never names a validator with an honest driver |
| Protocol.EquivocationReported | crates/sprax-node/src/consensus_driver.rs:331-353 | a counted vote that equivocates with a stored one is always reported |
| Penalties.PunishesTheGuilty | crates/sprax-node/src/consensus_driver.rs:331-353 | over every run the keeper leaves every validator with an honest driver as it was and tombstones every validator that is reported |
| Staleness.OutdatedBlockIsCommitted | crates/sprax-core/src/ledger.rs:351-370 | for every outdated block and every other block that a chain passes some run with less than a third Byzantine power commits both, with announcements as the block hashes fix them |
| Staleness.AgreementExactly | crates/sprax-core/src/ledger.rs:351-370 | two distinct blocks can both be committed at h if and only if one has a header height below h and chains of acceptable blocks reach h and pass both heights |
| Staleness.CommitNeedsChain | crates/sprax-core/src/ledger.rs:351-370 | a committed block rests on a ledger of acceptable blocks that passes its height |
| Stamping.DifferentFinalizedBlocks | crates/sprax-node/src/consensus_driver.rs:376-427 | for every chain and two competing successors of one proposer some run with less than a third Byzantine power has two honest nodes finalize different blocks |
| DriverLedger.ApplyIsApplyProposal | crates/sprax-core/src/ledger.rs:351-475 | `apply_block` accepts, skips or refuses as the driver expects and leaves the hashes it expects, for every ledger and block |
| DriverLedger.MineAppends | crates/sprax-core/src/ledger.rs:267-348 | mining appends a block of the next height, this proposer and the old tip as parent |
| DriverLedger.CommitStampsAnyBlock | crates/sprax-core/src/ledger.rs:504-519 | recording signatures succeeds for every stored height, changes no hash, and does not look at what they sign |
| Executor.ExecuteTransaction | crates/sprax-core/src/executor.rs:91-170 | makes exactly the writes of the execution function and returns its outcome |
| Admission.OutcomeExactly | crates/sprax-core/src/executor.rs:35-170 | executed if and only if authentic, of this chain, without zero transfers, at the sender's nonce, covered, below 2^128 and with room at every recipient; every error belongs to the first condition that fails; the receipt field by field |
| Admission.AccountsExactly | crates/sprax-core/src/executor.rs:128-158 | the balance, nonce and hashes of every account after an executed transaction, in numbers |
| Executor.TransferCost | crates/sprax-core/src/executor.rs:112-121 | the loop sums the transfers and fails on overflow |
| Executor.CreditMessages | crates/sprax-core/src/executor.rs:143-158 | the loop credits in order and stops at the first overflow |
| Executor.ExecutesExactly | crates/sprax-core/src/executor.rs:91-158 | a transaction that passes the checks executes if and only if every recipient has room for all it receives |
| Executor.AtomicExactly | crates/sprax-core/src/executor.rs:91-158 | a failure leaves the accounts as they were, and success costs exactly the fee, if and only if no recipient overflows |
| Executor.AllOrNothing | crates/sprax-core/src/executor.rs:112-158 | with a total below 2^128: failure changes nothing, success lowers the total by exactly the fee, and success is decided by the checks alone |
| Executor.ExecuteTotal | crates/sprax-core/src/executor.rs:112-158 | for any total: success costs the fee, a credit overflow costs more, other failures nothing |
| Executor.ExecutionEffect | crates/sprax-core/src/executor.rs:128-158 | for every account: sender pays transfers and fee and its nonce moves on, receivers get what was sent, nothing else changes |
| Executor.ExecuteWrites | crates/sprax-core/src/executor.rs:128-158 | replaying the writes on the store gives the accounts |
| Merkle.MerkleRoot | crates/sprax-crypto/src/hasher.rs:59-86 | the loop ends and equals the recursive tree that repeats the last node of odd levels |
| Merkle.RootExactly | crates/sprax-crypto/src/hasher.rs:59-86 | in bytes: zero for none, the digest for one, hash of left then right for two, and in general the root of the hashed pairs with the last repeated at an odd end |
| Merkle.RootBindsList | crates/sprax-crypto/src/hasher.rs:59-86 | equal roots of lists of one length mean equal lists or an explicit hash collision |
| Merkle.LengthsClash | crates/sprax-crypto/src/hasher.rs:59-86 | for any two positive lengths and any hash some lists of these lengths share a root |
| Merkle.RepeatedLastSameRoot | crates/sprax-crypto/src/hasher.rs:59-86 | repeating the last digest of an odd list keeps its root |
| Encoding.BigEndianRoundTrip | crates/sprax-storage/src/memory.rs:77-82 | fixed-width big-endian bytes read back as the number |
| Encoding.FirstByteWeighs | crates/sprax-storage/src/memory.rs:77-82 | the first byte is the most significant |
| Ledger.ChainLedger.constructor | crates/sprax-core/src/ledger.rs:34-66 | genesis accounts, block, hash index and height are written in this order |
| Contents.InitExactly | crates/sprax-core/src/ledger.rs:34-66 | exactly the granted accounts, and every field of the genesis block |
| Ledger.ChainLedger.SubmitTransaction | crates/sprax-core/src/ledger.rs:211-264 | refused if indexed, pending or not executable now, else appended |
| Admission.SubmitExactly | crates/sprax-core/src/ledger.rs:211-264 | accepted if and only if neither included nor pending, genuine, at the nonce and covered; each refusal tied to its condition; nothing but the mempool changes |
| Ledger.ChainLedger.ExecutePending | crates/sprax-core/src/ledger.rs:287-306 | the mining loop executes, indexes and keeps the valid ones, drops the others |
| Ledger.ChainLedger.ExecuteAll | crates/sprax-core/src/ledger.rs:400-413 | the applying loop stops at the first rejection and leaves its writes |
| Ledger.ChainLedger.MineBlock | crates/sprax-core/src/ledger.rs:267-348 | block, state, indexes, mempool and the order of writes of mining |
| Admission.MineExactly | crates/sprax-core/src/ledger.rs:267-348 | the block holds exactly the pending transactions that execute in turn; every header field; the mempool is empty |
| Contents.FirstOfSenderMined | crates/sprax-core/src/ledger.rs:287-306 | with balances below 2^128 in all, the first pending transaction of a sender that could execute now is in the block |
| Contents.SubmittedIsMined | crates/sprax-core/src/ledger.rs:211-348 | a transaction accepted while its sender has none pending is in the next block |
| Ledger.ChainLedger.ApplyBlock | crates/sprax-core/src/ledger.rs:351-475 | skip, early refusal, late refusal with its leftovers, or commit |
| Admission.ApplyExactly | crates/sprax-core/src/ledger.rs:351-475 | skipped, refused at once, applied or refused late, each if and only if its conditions on height, chain, parent, execution in turn, state root, transactions root and receipts root hold |
| Contents.IndexExactly | crates/sprax-core/src/ledger.rs:267-475 | a mined or applied block adds exactly its transactions to the index, with receipt and height |
| Ledger.ChainLedger.DropIndexed | crates/sprax-core/src/ledger.rs:466-472 | exactly the indexed transactions leave the mempool |
| Admission.PendingAfterApply | crates/sprax-core/src/ledger.rs:466-472 | after an applied block exactly those remain pending that were and are not indexed, in order and as often |
| Ledger.ChainLedger.ApplyBlocksBatch | crates/sprax-core/src/ledger.rs:478-485 | applies in order, counts, stops at the first error |
| Contents.ManyExactly | crates/sprax-core/src/ledger.rs:478-485 | succeeds if and only if every block is applied or skipped in its turn, and then counts all |
| Ledger.ChainLedger.RecordCommit | crates/sprax-core/src/ledger.rs:504-519 | only the commit signatures of an existing block change |
| Contents.CommitExactly | crates/sprax-core/src/ledger.rs:504-519 | the signatures of one block change, and nothing else in memory |
| Ledger.ChainLedger.GetBlocksRange | crates/sprax-node/src/service.rs:224-235 | the loop returns the stored part of the range |
| Contents.RangeExactly | crates/sprax-node/src/service.rs:224-235 | exactly the existing blocks of the range, in order |
| Ledger.ChainLedger.ReadBack | crates/sprax-core/src/ledger.rs:85-134 | reopening reads blocks and indexes back, fails exactly when a block is missing |
| LedgerRuns.RunDurable | crates/sprax-core/src/ledger.rs:34-66 | every run keeps the chain hash-linked, the hash index that of the chain, the transaction index and the store in agreement on the chain's transactions, and every crash point safe |
| LedgerRuns.LiveDurable | crates/sprax-core/src/ledger.rs:66-134 | the same over every run interleaved with crashes after any write and restarts |
| Contents.NothingForged | crates/sprax-core/src/ledger.rs:211-475 | over every life of a node, crashes included, all pending and all chain transactions are authentic, of this chain and without zero transfers |
| Contents.StoredHashesFind | crates/sprax-core/src/ledger.rs:136-151 | after every run the stored hash index has exactly the hashes of the chain, each leading to a block with that hash |
| LedgerRuns.CrashRecovers | crates/sprax-core/src/ledger.rs:136-166 | in every such state, cut after any write: a recorded height means reopening succeeds with a hash-linked initial part of the chain |
| LedgerRuns.RestartRestores | crates/sprax-core/src/ledger.rs:85-134 | reopening restores blocks and hash index, and the index entries of chain transactions |
| LedgerRuns.RestartIndexExact | crates/sprax-core/src/ledger.rs:85-134 | the whole index comes back if and only if it has no leftovers of refused blocks |
| Crashes.CrashHarmlessExactly | crates/sprax-core/src/ledger.rs:267-348 | for every cut of a clean run without overflow that records a height: the recovered accounts are those of the recovered chain if and only if no account was written after the last recorded height |
| Crashes.PartChanges | crates/sprax-core/src/ledger.rs:287-306 | any non-empty part of the writes of a block changes the accounts, below the last nonce |
| Crashes.LateRefusalKeepsAccounts | crates/sprax-core/src/ledger.rs:400-453 | a late refusal leaves the accounts unchanged if and only if the block is empty or its first transaction is refused |
| Incidents.CrashLosesTransfer | crates/sprax-core/src/ledger.rs:287-345 | genesis, submit, mine, crash after the debit: the genesis chain comes back with the sender charged and the recipient unpaid |
| Incidents.RefusedBlockStays | crates/sprax-core/src/ledger.rs:400-453 | genesis and a block with a wrong state root: refused, but the transfer is carried out and cannot be submitted any more |
| Incidents.OverflowSplitsReplicas | crates/sprax-core/src/executor.rs:143-158 | genesis, submit, mine with a full recipient: an empty block, a charged sender, and a replica that keeps the balance and refuses the block unless the roots coincide |
| Replication.MineTotal | crates/sprax-core/src/ledger.rs:287-306 | mining lowers the total by the executed fees, and by more exactly if a transaction overflows |
| Replication.ReplayExactly | crates/sprax-core/src/ledger.rs:267-348 | replaying the mined transactions gives the same accounts, receipts and writes if and only if none overflowed |
| Replication.MinedBlockApplies | crates/sprax-core/src/ledger.rs:351-475 | a replica at the same point accepts the block and reaches the same point if and only if no transaction overflowed |
| Replication.ReplicasAgree | crates/sprax-core/src/ledger.rs:351-475 | with a total below 2^128 it always does, with the same receipts, whatever was dropped |
| Replication.LateRefusalWritesNothing | crates/sprax-core/src/ledger.rs:400-453 | a late refusal writes nothing to the store if and only if the block is empty or its first transaction is refused |
| Replication.NonceOrder | crates/sprax-core/src/executor.rs:104-141 | of two chain transactions of a sender the later has the larger nonce if and only if the earlier nonce is not the largest `u64` |
| Replication.OnePerSender | crates/sprax-core/src/ledger.rs:287-306 | of pending transactions not ahead of their senders mining takes one per sender |
| ChainRuns.RunSupply | crates/sprax-core/src/executor.rs:112-158 | over every run the total is the genesis total less all executed fees |
| ChainRuns.AccountsFollowChain | crates/sprax-core/src/ledger.rs:267-475 | in clean runs: no overflow, accounts are those the chain leads to, and total is genesis less chain fees are equivalent |
| ChainRuns.SameChainSameAccounts | crates/sprax-core/src/ledger.rs:267-475 | nodes with the same chain have the same accounts |
| ChainRuns.CatchUp | crates/sprax-core/src/ledger.rs:478-485 | any range from at or below the own next height to the other's tip leads to the other's chain and accounts; known blocks change nothing |
| ChainRuns.RunsCatchUp | crates/sprax-node/src/service.rs:224-235 | the same for any two clean runs from one genesis |
| ChainRuns.RestartExact | crates/sprax-core/src/ledger.rs:72-134 | after a clean run reopening yields the memory state with an empty mempool |
| ChainRuns.RunNonces | crates/sprax-core/src/executor.rs:104-141 | in chain order each sender's nonces are 0, 1, 2, … and its account holds the next |
| ChainRuns.PendingNotAhead | crates/sprax-core/src/ledger.rs:211-264 | in every run no pending nonce exceeds its sender's |
| ChainRuns.MinedSingle | crates/sprax-core/src/ledger.rs:267-306 | a mined block never holds two transactions of one sender, except at the largest nonce |
| MetaStore.KeyInjective | crates/sprax-storage/src/memory.rs:77-94 | keys of the four families never collide |
| MetaStore.PutRow | crates/sprax-storage/src/memory.rs:96-157 | a put changes the row it is meant for and no other |
| MetaStore.MemKVStore.PutHeight | crates/sprax-storage/src/memory.rs:97-102 | sets the height, leaves the tables |
| MetaStore.MemKVStore.GetHeight | crates/sprax-storage/src/memory.rs:104-110 | returns the height put last; the bytes always have the width it needs |
| MetaStore.MemKVStore.PutBlock | crates/sprax-storage/src/memory.rs:112-117 | sets one block, leaves all else |
| MetaStore.MemKVStore.GetBlock | crates/sprax-storage/src/memory.rs:119-125 | returns the block put last at that height |
| MetaStore.MemKVStore.PutBlockHashIndex | crates/sprax-storage/src/memory.rs:127-133 | sets one hash entry, leaves all else |
| MetaStore.MemKVStore.GetHeightByHash | crates/sprax-storage/src/memory.rs:135-145 | returns the height put last for that hash |
| MetaStore.MemKVStore.PutTxIndex | crates/sprax-storage/src/memory.rs:147-152 | sets one transaction entry, leaves all else |
| MetaStore.MemKVStore.GetTxIndex | crates/sprax-storage/src/memory.rs:154-156 | returns the entry put last for that hash |
| Staking.StakingKeeper.RegisterValidator | crates/sprax-consensus/src/staking.rs:144-192 | refuses known validators and small stakes, else registers with self-delegation |
| Staking.StakingKeeper.DelegateTokens | crates/sprax-consensus/src/staking.rs:195-240 | raises tokens, shares and delegation, stopping half way on overflow |
| Staking.StakingKeeper.UndelegateTokens | crates/sprax-consensus/src/staking.rs:243-291 | lowers delegation first, then the validator, then queues with a completion height in 64 bits |
| Staking.StakingKeeper.PunishEquivocation | crates/sprax-consensus/src/staking.rs:294-326 | slashes, jails and tombstones once |
| Staking.StakingKeeper.PunishDowntime | crates/sprax-consensus/src/staking.rs:329-361 | counts misses, slashes and jails at the threshold until a height in 64 bits |
| Staking.StakingKeeper.Release | crates/sprax-consensus/src/staking.rs:364-393 | unjails unless tombstoned or before the end of the term |
| KeeperRules.RegisterExactly | crates/sprax-consensus/src/staking.rs:144-192 | succeeds exactly for unknown validators with the minimal stake |
| KeeperRules.DelegateExactly | crates/sprax-consensus/src/staking.rs:195-240 | succeeds exactly for known validators, neither tombstoned nor unbonded, without overflow; what rises and what stays |
| KeeperRules.UnjailExactly | crates/sprax-consensus/src/staking.rs:364-393 | succeeds exactly when known, not tombstoned and past the term |
| KeeperRules.EquivocationExactly | crates/sprax-consensus/src/staking.rs:294-326 | the condition of each answer, the slashed amount and the new record |
| KeeperRules.DowntimeExactly | crates/sprax-consensus/src/staking.rs:329-361 | the condition of each answer, the slashed amount and the new record |
| KeeperRules.AllStaked | crates/sprax-consensus/src/staking.rs:144-192 | over every sequence of calls all validators have registered with the minimal stake |
| KeeperRules.TombstonedGetsNothing | crates/sprax-consensus/src/staking.rs:195-240 | once tombstoned, a validator's stake never grows and every delegation to it is refused without effect |
| StakingRuns.Accounting | crates/sprax-consensus/src/staking.rs:144-361 | per validator over every call sequence that fits: tokens + queued + slashed is the stake put in, shares are tokens + slashed and delegations + lost, delegation shares equal balances |
| StakingRuns.UnfitBreaksBooks | crates/sprax-consensus/src/staking.rs:211-218 | a delegation keeps the books if and only if it does not overflow the shares after raising the tokens |
| StakingRuns.SmallStakesFit | crates/sprax-consensus/src/staking.rs:195-240 | everything fits while less than 2^128 is offered to each validator |
| StakingRuns.NeverSlashed | crates/sprax-consensus/src/staking.rs:144-361 | without slashing tokens, shares and delegations are equal |
| StakingRuns.UndelegateExactly | crates/sprax-consensus/src/staking.rs:243-291 | succeeds if and only if balance and tokens cover the amount; the exact effect of success and of both kinds of failure |
| StakingRuns.UndelegateUnslashed | crates/sprax-consensus/src/staking.rs:243-291 | for never-slashed validators it succeeds if and only if the balance covers the amount |
| StakingRuns.DelegationLost | crates/sprax-consensus/src/staking.rs:243-291 | register, slash, undelegate: the call fails, nothing is queued and the delegation is gone |
| StakingLife.MissedBelowThreshold | crates/sprax-consensus/src/staking.rs:329-361 | the missed count stays below the threshold if and only if the threshold is positive |
| StakingLife.TombstoneForever | crates/sprax-consensus/src/staking.rs:294-393 | tombstoned validators stay tombstoned and jailed after any calls |
| StakingLife.PunishedOnce | crates/sprax-consensus/src/staking.rs:294-326 | slashed for equivocation once if tombstoned, never otherwise |
| StakingLife.JailHolds | crates/sprax-consensus/src/staking.rs:364-393 | a jail term is served under any calls but an unjail at or after its end |
| StakingLife.DowntimeServed | crates/sprax-consensus/src/staking.rs:329-393 | active again only through an unjail at or after the recorded end of the term |
| StakingLife.FullTermExactly | crates/sprax-consensus/src/staking.rs:329-393 | the full duration is served whatever the unjail height if and only if the end does not overflow 64 bits |
| ActiveSets.TopByTokens | crates/sprax-consensus/src/staking.rs:396-417 | the allowed number of eligible validators, each once, none left out has more tokens than one taken |
| Powers.ChosenExactly | crates/sprax-consensus/src/staking.rs:396-417 | the chosen are active with stake; an active validator with stake is left out only if all places are taken by validators with no less |
| Powers.PowerExactly | crates/sprax-consensus/src/staking.rs:396-417 | the power is the number of whole SPRX at stake, one for less than one SPRX, cast to 64 bits |
| Powers.PowerMonotone | crates/sprax-consensus/src/staking.rs:396-417 | more stake never means less power, below the cast |
| Powers.TotalExactly | crates/sprax-consensus/src/staking.rs:396-417 | members by ascending address with priority zero; the total is the sum of their powers in 64 bits |
| Powers.SetExists | crates/sprax-consensus/src/staking.rs:396-417 | without overflow a set exists if and only if somebody is active with stake and there are places |
| Powers.TieGoesToGreatest | crates/sprax-consensus/src/validator.rs:94-119 | with equal powers the greatest address proposes first |
| ActiveSets.TombstonedNeverActive | crates/sprax-consensus/src/staking.rs:396-417 | a tombstoned validator is in no later active set |
| ActiveSets.ActiveSetUsable | crates/sprax-consensus/src/staking.rs:396-417 | the set has distinct addresses and zero priorities, and sound quorums if and only if the powers stay below 2^63 |
| ActiveSets.TieExactly | crates/sprax-consensus/src/staking.rs:396-417 | for every iteration order a tie falls on the cut if and only if some stake has fewer validators above it and more at or above it than there are places |
| ActiveSets.ChoiceDetermined | crates/sprax-consensus/src/staking.rs:396-417 | the choice is independent of the iteration order if and only if no stake is contested in that sense |
| ActiveSets.ActiveSetDetermined | crates/sprax-consensus/src/staking.rs:396-417 | so is the validator set that is built from it |
| Indexer.PutByHeight | crates/sprax-indexer/src/storage.rs:41-47 | the ordered map stays ascending and holds the new block in place of one of its height |
| Indexer.IndexStore.AddBlock | crates/sprax-indexer/src/storage.rs:41-47 | both block indexes are updated |
| Indexer.IndexStore.AddTx | crates/sprax-indexer/src/storage.rs:50-80 | all transaction indexes are updated, the recipient's only if it is not the sender |
| Indexer.HeightListComplete | crates/sprax-indexer/src/storage.rs:59-63 | after any insertions the list of a height holds its transactions in order of insertion |
| Indexer.HeightByHashComplete | crates/sprax-indexer/src/storage.rs:41-47 | a block hash leads to the height of the block inserted last under it |
| Indexer.Interleaved | crates/sprax-indexer/src/storage.rs:41-80 | transactions and blocks inserted in any order do not touch each other's indexes |
| Indexer.PagesComplete | crates/sprax-indexer/src/storage.rs:119-194 | pages at 0, L, 2L, … concatenate to the reversed list and say "more" exactly before its end |
| Indexer.AddressPagesComplete | crates/sprax-indexer/src/storage.rs:167-194 | after any insertions an address's pages are the reverse of the inserted transactions filtered by sender or recipient, each as inserted last under its hash |
| Indexer.LatestIsItself | crates/sprax-indexer/src/storage.rs:50-80 | if no hash is inserted twice these are the transactions themselves |
| Indexer.TxPagesComplete | crates/sprax-indexer/src/storage.rs:144-164 | after any insertions all transactions in reverse order of insertion |
| Indexer.BlockPagesComplete | crates/sprax-indexer/src/storage.rs:119-141 | after any insertions blocks by descending height, for each height the one inserted last |
| Decimal.ParseWhole | packages/sprax-wallet-core/src/transaction.ts:16-28 | digits without a point are whole SPRX |
| Decimal.ParseIsFloor | packages/sprax-wallet-core/src/transaction.ts:16-28 | for any digits around the point the result is the floor of the value in atto |
| Decimal.RoundTrip | packages/sprax-wallet-core/src/transaction.ts:16-41 | parsing a printed non-negative amount gives it back |
| Decimal.RoundTripExactly | packages/sprax-wallet-core/src/transaction.ts:16-41 | over all integers it comes back if and only if it is not negative, has no fraction, or a fraction of exactly 17 digits |
| Decimal.NodePrintsAlike | crates/sprax-types/src/amount.rs:73-83 | the node prints what the wallet prints plus the unit, and the wallet reads it back |

## Left out

- Engine.BftConsensusEngine.Prevoted: the exact new lock and step are stated for a total power below 2^63; beyond it the threshold wraps, several blocks can have a quorum and which one is found depends on the iteration order of a hash map; `ActiveSets.ActiveSetUsable` says when a set is below.
- Engine.BftConsensusEngine.Precommitted: the exact certificate is stated under the same bound; beyond it only that some block with quorum is certified.
- Driver.ConsensusDriver.HandleInboundVote: the methods of the driver are tied to their functions under the same bound on the total power.
- Driver.ConsensusDriver.RunOneHeight: requires a refreshed set with at least one validator, which the keeper's sets have.
- EngineRuns.ReachableEngine: the part about locks and active voters is for runs that start a height right after replacing the validator set, as the driver does.
- Protocol.Agreement: the validator set is fixed, every driver runs once and attempts no height 2^32 times; the round counter is not persisted, so a restarted driver may vote again.
- Crashes.CrashHarmlessExactly: supposes that no account of the recovered chain has the largest nonce, because there a debit need not change the nonce.
- Admission.MineExactly: the timestamp is unbounded, so a parent time within two seconds of 2^64 is not modelled.
- Slash fractions: the floating-point products are arbitrary functions of the tokens.
- Networking, timeouts and locks: messages arrive in any order, running out of messages is the timeout; nothing is claimed about liveness.
- JSON encoding: blocks and index entries are values in the ledger's store and byte strings in `MetaStore`; write errors of the store do not occur.
- The account part of the key-value store and the flat state root: the store holds accounts by address, the root is a parameter.
- History pruning: it removes blocks that reopening needs, so the restart theorems are about unpruned stores.
- Evidence received by gossip, validator descriptions and commissions, the transaction's key type: they would only add fields.
- Account and validator records of the explorer, its search and statistics: plain lookups.
- Virtual machine, faucet, RPC, command line, keyring, configuration, web applications: outside the core.
