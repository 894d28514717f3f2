# Platform: a verified model

Platform is a validator network for Bittensor subnets. Validators reach consensus on a shared chain
state, run challenges in Docker containers, turn the scores those challenges report into weights, and
submit the weights to the Subtensor chain, usually by committing to a hash first and revealing later.

This project models the parts of that code where mistakes are easy and expensive, and proves what they
are meant to guarantee. `dafny verify dfyconfig.toml` checks all of it.

## What is modelled

| module | subject |
|---|---|
| `WeightSubmission`, `WeightSubmissionSafety`, `WeightSubmissionEpochs`, `SaltCodec` | the weight submitter: commit-reveal over chain calls that may fail, with a write-through state file and crashes |
| `MechanismWeights` | the in-memory per-mechanism weight manager |
| `WeightArithmetic`, `HotkeyConversion` | scores to normalised weights to u16 values to a total of 65535 |
| `Consensus`, `ConsensusSafety`, `ConsensusAgreement` | the PBFT engine of one validator, a network of them with faulty members, and when it agrees |
| `Chain`, `ValidatorSyncing` | the chain state, and its reconciliation with the metagraph |
| `Lifecycle`, `Orchestrator` | the two container reconcilers |
| `Bincode`, `StateVersioning` | state files: layouts, version detection, migration |
| `Routes`, `Commitment`, `SchemaGuard` | route matching, the sort-then-hash commitment, FNV-1a |

Code that updates fields is a class whose methods are proved against functions on values; the promises
are then proved about those functions, mostly by induction over whole runs. Whatever the code does not
control is a parameter or a step of the run: results of chain and Docker calls, hash-map iteration
orders, the moment of a crash, messages and their order.

In the consensus engine proposal, prepare and commit signatures cover the same three values (view, sequence
number, hash), so the model has one kind of vote.

A chain call has three outcomes: accepted, rejected, and accepted by the chain but reported to the
caller as failed. A crash is any prefix of the effects of an operation, followed by a reload of the file.

## Idealisations

- Floating point is real arithmetic; casts to integers floor, and the values cast are already in range.
- SHA-256 and sr25519 are uninterpreted. A chain state hash stands for the summary it was taken of, a
  commit hash for its preimage, and a signature that verifies was made by its signer.
- File writes succeed, and the file holds the value rather than its JSON text.
- Block heights, sequence numbers and totals of stake or weight do not reach 2^64, except where a width is modelled
  (the u32 sum of the burn fill, the u16 weights, the lengths and halves in state files, FNV-1a).
- Strings in state files are byte strings; the fields between the validators and the registered hotkeys
  are one value with a lawful codec of its own.

## Where the code and its description differ

The model follows the code in each case.

- A comment in `new_epoch` says unrevealed commits are kept; the code keeps them only if the epoch
  entered is the committed one. The standard (non-mechanism) commit does not set the committed epoch,
  so over a restart it is kept only next to a mechanism batch of the same epoch (`RestartRestores`,
  `StandardCommitLostOnRestart`).
- Persisting is described as keeping commits over restarts. A commit whose reveal was prepared is off the file
  before the call, so it is lost if the process stops in between or the call is rejected (`RevealOutcome`,
  `StandardRevealOutcome`).
- A metagraph sync can give a validator a stake below the minimum the chain state asks for
  (`BoundsAfterSync`).
- Two challenges whose names differ only in case and spaces take each other's container (`NamesCollide`).
- The default consensus threshold is described as "50%+1". Rounding up one half of the active
  validators gives a majority only for odd numbers (`HalfIsMajority`).
- The state hash is not refreshed when a metagraph sync removes validators and admits none
  (`UpdateState`, `HashGoesStale`).
- A raw state file of epoch 0 is taken for a versioned one and does not load (`RawStateLoadsExactly`).
- A sync reports a challenge as unchanged, or succeeds without a call, although its container is not
  running, when an earlier update or removal failed half-way (`SyncRuns` and `FailedUpdateStops`,
  `FailedRemovalStrands`, `AbortedSyncStaysStopped`).
- The engine is described as Byzantine fault tolerant with n = 3f + 1. It does not remember what it voted
  for: it votes for every proposal of the current leader and carries nothing into a new view. So honest
  engines count among the validators that sign two hashes; one faulty leader suffices for two decisions
  in one view (`FaultyLeaderSplitsView`), and none at all for two in different views
  (`HonestViewsDisagree`). Agreement holds exactly if leaders are bound to one hash for a sequence
  number (`AgreementExactly`).
- A fault tolerance of f = (n - 1) / 3 with quorums of 2f + 1 is described for n = 3f + 1; for other n
  two quorums can share f validators or fewer (`QuorumsOverlapExactly`).

## Model

| member | source | states |
|---|---|---|
| SaltCodec.HexRoundTrip | crates/bittensor-integration/src/weights.rs:142-162 | decoding the hex form of any byte string (two lower-case digits per byte, section 8 of RFC 4648) gives the bytes back |
| SaltCodec.ChunkRoundTrip | crates/bittensor-integration/src/weights.rs:142-162 | regrouping the little-endian bytes of any u16 salt gives the salt back |
| SaltCodec.SaltRoundTrip | crates/bittensor-integration/src/weights.rs:142-162 | the salt read back for a reveal is exactly the salt the commit was made with |
| SaltCodec.SaltExample | crates/bittensor-integration/src/weights.rs:158-162 | a salt in its stored form: low byte first, high digit first |
| WeightSubmission.WeightSubmitter.constructor | crates/bittensor-integration/src/weights.rs:202-224 | a new submitter holds what the state file held (or the default) and stands in epoch 0 |
| WeightSubmission.WeightSubmitter.SetEpoch | crates/bittensor-integration/src/weights.rs:252-276 | entering another epoch discards what is pending unless it was committed in that epoch, and writes the file; entering the same epoch does nothing |
| WeightSubmission.WeightSubmitter.SubmitWithCommitReveal | crates/bittensor-integration/src/weights.rs:323-407 | performs, in order, exactly the memory, file and chain effects specified: reveal the pending commit after clearing and persisting it, or commit and remember it only if the chain accepted |
| WeightSubmission.WeightSubmitter.ForceReveal | crates/bittensor-integration/src/weights.rs:446-454 | reveals the pending standard commit if there is one and reports nothing to do otherwise |
| WeightSubmission.WeightSubmitter.BatchCalls | crates/bittensor-integration/src/weights.rs:617-667 | one commit call per batch entry, in order |
| WeightSubmission.WeightSubmitter.StorePending | crates/bittensor-integration/src/weights.rs:682-687 | each entry becomes pending under its mechanism, a later entry for the same mechanism replacing an earlier one |
| WeightSubmission.WeightSubmitter.SubmitMechanismBatch | crates/bittensor-integration/src/weights.rs:603-696 | the whole batch goes out in one call; only after acceptance are the entries remembered, the epoch marked committed and the file written |
| WeightSubmission.WeightSubmitter.RevealPendingMechanismCommits | crates/bittensor-integration/src/weights.rs:699-754 | drains and persists before the first reveal, stops at the first failing reveal, and records the revealed epochs only if all succeeded, for any drain order |
| WeightSubmission.StopsAfter | crates/bittensor-integration/src/weights.rs:718-745 | the loop that reveals one by one and stops at the first error sends exactly the specified prefix of calls |
| WeightSubmission.ApplyReveals | crates/bittensor-integration/src/weights.rs:699-754 | what a batch reveal adds up to: mechanism commits cleared in memory and file, the landed reveals appended to the chain |
| WeightSubmissionSafety.DrainedOnce | crates/bittensor-integration/src/weights.rs:706-712 | draining the pending map in any order puts each pending commit in flight exactly once |
| WeightSubmissionSafety.OpSafe | crates/bittensor-integration/src/weights.rs:252-754 | between any two effects of any operation, whatever memory or file could still reveal has been committed once more than revealed |
| WeightSubmissionSafety.StepSafe | crates/bittensor-integration/src/weights.rs:252-754 | the invariant survives a completed operation and a crash after any number of its effects followed by a restart from the file |
| WeightSubmissionSafety.RevealsMatchCommits | crates/bittensor-integration/src/weights.rs:56-754 | over every run with failing calls and crashes: at every point of the chain no submission (target, uids, weights, salt, version key) has been revealed more often than it was committed, so each reveal repeats an earlier commit and no commit is revealed twice |
| WeightSubmissionEpochs.ExecState | crates/bittensor-integration/src/weights.rs:252-754 | between operations memory and file agree, and hold the state the operation is meant to reach |
| WeightSubmissionEpochs.PendingBelongsToEpoch | crates/bittensor-integration/src/weights.rs:97-111 | over every run whose sessions start with set_epoch of a non-zero epoch: pending mechanism commits imply committed_epoch = current epoch, and each is keyed by its mechanism and carries that epoch |
| WeightSubmissionEpochs.SessionStart | crates/bittensor-integration/src/weights.rs:252-264 | after the first set_epoch(e) of a session the pending commits belong to the current epoch if and only if e is not 0, or nothing was pending, or epoch 0 was the committed one |
| WeightSubmissionEpochs.RestartRestores | crates/bittensor-integration/src/weights.rs:56-111 | a restart and set_epoch of the same epoch restore pending mechanism commits, committed_epoch and last_revealed_epoch exactly; the standard pending commit survives if and only if committed_epoch is that epoch or there was none |
| WeightSubmissionEpochs.StandardCommitLostOnRestart | crates/bittensor-integration/src/weights.rs:97-111 | concrete case: a standard commit of epoch 5 is on the chain, and after a restart nothing is left to reveal it |
| WeightSubmissionEpochs.StandardCommitThenReveal | crates/bittensor-integration/src/weights.rs:323-407 | two accepted calls commit and then reveal the first one's weights, leaving nothing pending in memory or file |
| WeightSubmissionEpochs.RevealMarksEpochs | crates/bittensor-integration/src/weights.rs:747-751 | after an accepted batch reveal exactly the mechanisms revealed are marked, each with the epoch of its commit |
| WeightSubmissionEpochs.RevealSendsPending | crates/bittensor-integration/src/weights.rs:699-754 | an accepted batch reveal sends every pending commit and leaves none pending |
| WeightSubmissionEpochs.RestartStillReveals | crates/bittensor-integration/src/weights.rs:603-754 | accepted batch, crash, restart, set_epoch of the same epoch, accepted reveal: what each mechanism last committed is revealed |
| WeightSubmissionEpochs.RevealOutcome | crates/bittensor-integration/src/weights.rs:699-754 | wherever a batch reveal stops: a commit is still pending after a restart if and only if the drain was not persisted, and on the chain if and only if the loop got to it and the call was not rejected; otherwise it is lost |
| WeightSubmissionEpochs.StandardRevealOutcome | crates/bittensor-integration/src/weights.rs:446-454 | likewise for the standard commit: lost if the process stops between the file and the call, or the call is rejected |
| WeightSubmissionEpochs.BatchOutcome | crates/bittensor-integration/src/weights.rs:603-696 | after any batch a mechanism it does not name has a commit pending if and only if it had before, the same one, in memory and in the file; a batch that is not accepted changes neither; an accepted one leaves the standard commit and the revealed epochs alone |
| WeightSubmissionEpochs.BatchRecords | crates/bittensor-integration/src/weights.rs:682-687 | after an accepted batch the last entry of each mechanism is pending with its hash, UIDs, weights, version key and salt, under the current epoch |
| WeightSubmissionEpochs.TwoBatchesReveal | crates/bittensor-integration/src/weights.rs:603-754 | two accepted batches and an accepted reveal: a commit only the first batch named is sent, and so is the second batch |
| WeightSubmissionEpochs.EpochEntered | crates/bittensor-integration/src/weights.rs:97-111 | set_epoch(e) keeps every pending commit as it is if e is the current or the committed epoch, and otherwise drops them all; the committed epoch and the revealed ones stay, and the file agrees |
| WeightSubmissionEpochs.StandardCommitOutcome | crates/bittensor-integration/src/weights.rs:323-379 | an accepted standard commit is pending with its hash, contents and salt under the current epoch, and nothing else changes; one that is not accepted changes nothing |
| MechanismWeights.MechanismWeightManager.SubmitMechanismWeights | crates/bittensor-integration/src/weights.rs:1191-1326 | skips recorded epochs; otherwise submits directly, reveals the pending commit after removing it, or commits and remembers |
| MechanismWeights.MechanismWeightManager.RevealAllPending | crates/bittensor-integration/src/weights.rs:1405-1418 | reveals in any key order, stopping at the first error; success leaves nothing pending |
| MechanismWeights.MechanismWeightManager.ResetEpochTracking | crates/bittensor-integration/src/weights.rs:1421-1423 | forgets the recorded epochs and nothing else |
| MechanismWeights.SubmitKeeps | crates/bittensor-integration/src/weights.rs:1200-1359 | a submission keeps the invariant: a pending commit is the last chain event of its mechanism and newer than anything recorded for it |
| MechanismWeights.RevealAllKeeps | crates/bittensor-integration/src/weights.rs:1405-1418 | so does a reveal of everything, wherever it stops |
| MechanismWeights.EveryRun | crates/bittensor-integration/src/weights.rs:1166-1423 | over every run in a fixed mode: each reveal repeats the most recent commit of its mechanism with no commit or reveal of it in between, and between resets the epochs recorded per mechanism strictly increase |
| MechanismWeights.DirectOncePerEpoch | crates/bittensor-integration/src/weights.rs:1191-1261 | an accepted direct submission counts for its epoch and a further one for it is skipped |
| MechanismWeights.CommitThenReveal | crates/bittensor-integration/src/weights.rs:1264-1359 | two accepted submissions commit and then reveal the weights of the first; a third for that epoch is skipped |
| MechanismWeights.EveryMixedRun | crates/bittensor-integration/src/weights.rs:1166-1423 | with the mode chosen anew for each call: reveals still repeat the latest commit of their mechanism, and recorded epochs strictly increase if and only if no call reveals a commit whose epoch was overtaken |
| MechanismWeights.ModeSwitchReordersEpochs | crates/bittensor-integration/src/weights.rs:1200-1225 | such a run: a switch to direct and back records epoch 7 and then epoch 5 |
| MechanismWeights.AcceptedSubmission | crates/bittensor-integration/src/weights.rs:1191-1359 | in either mode an accepted submission goes through if and only if nothing is recorded for the mechanism since the last reset or what is recorded is of an earlier epoch; what it then logs and leaves pending, case by case |
| MechanismWeights.FailedSubmission | crates/bittensor-integration/src/weights.rs:1200-1359 | a submission that is not accepted records nothing; a commit whose reveal failed is gone |
| MechanismWeights.RevealAllSends | crates/bittensor-integration/src/weights.rs:1405-1418 | a reveal of everything in which each call is accepted sends and records each pending commit |
| MechanismWeights.RevealAllStops | crates/bittensor-integration/src/weights.rs:1405-1418 | the first error ends the loop: the commits after it, and no others, are still pending, unchanged |
| MechanismWeights.RevealsAllExactly | crates/bittensor-integration/src/weights.rs:1405-1418 | the loop runs to the end if and only if every call is accepted |
| MechanismWeights.ResetOpens | crates/bittensor-integration/src/weights.rs:1421-1423 | after a reset no epoch counts as recorded, and what was pending still is |
| WeightArithmetic.ScoresNormalised | crates/challenge-sdk/src/weights.rs:52-67 | non-negative scores with a positive total become weights in [0, 1], in proportion, adding up to exactly 1 |
| WeightArithmetic.NoScoresNoWeights | crates/challenge-sdk/src/weights.rs:52-67 | there are no weights if and only if the total is not positive |
| WeightArithmetic.NormalizeWeights | crates/challenge-sdk/src/weights.rs:36-49 | with a positive total the result is proportional and adds up to 1; otherwise nothing changes |
| WeightArithmetic.ConvertAssignments | crates/bittensor-integration/src/weights.rs:799-818 | each assignment is either resolved, in order, to its UID and floored weight, or listed as unresolved |
| WeightArithmetic.ResolvedEntry | crates/bittensor-integration/src/weights.rs:799-818 | each resolved assignment gives one output entry, its UID and floored weight side by side, directly behind those of the resolved assignments before it |
| WeightArithmetic.UnresolvedEntry | crates/bittensor-integration/src/weights.rs:799-818 | each other assignment is listed by its hotkey, in order |
| WeightArithmetic.ResolvedWithinTotal | crates/bittensor-integration/src/weights.rs:799-818 | flooring never creates weight, whatever the lookup resolves |
| WeightArithmetic.FillWithBurn | crates/bittensor-integration/src/weights.rs:820-846 | computes the fill specified, with the u32 sum and the saturating addition of the code |
| WeightArithmetic.AccumulatorExact | crates/bittensor-integration/src/weights.rs:828 | the u32 sum is exact for every list of n weights if and only if n <= 65537 |
| WeightArithmetic.FillTotal | crates/bittensor-integration/src/weights.rs:820-846 | the filled total is max(65535, sum), 65535 for the empty list, and the saturating addition never saturates |
| WeightArithmetic.FillKeepsOthers | crates/bittensor-integration/src/weights.rs:830-840 | only the first burn entry may change; every other entry keeps UID and weight |
| WeightArithmetic.FillShape | crates/bittensor-integration/src/weights.rs:820-846 | an entry for UID 0 is added if and only if the weights fall short and there is none; weights that do not fall short stay as they are |
| WeightArithmetic.FillIdempotent | crates/bittensor-integration/src/weights.rs:820-846 | filling twice is filling once |
| WeightArithmetic.ScoresFillExactly | crates/bittensor-integration/src/weights.rs:1362-1368 | scores to weights, conversion with any lookup, burn fill: the values handed to the chain total exactly 65535 |
| HotkeyConversion.Accumulate | crates/bittensor-integration/src/challenge_weight_collector.rs:205-234 | the first loop gathers per UID the sum of its floored weights, the burn weight and the number of unresolved hotkeys |
| HotkeyConversion.ConvertHotkeys | crates/bittensor-integration/src/challenge_weight_collector.rs:194-276 | the loops compute the specified conversion |
| HotkeyConversion.ConvertShape | crates/bittensor-integration/src/challenge_weight_collector.rs:205-275 | the vectors align, UIDs strictly ascend with UID 0 only first, the other UIDs are exactly those some entry resolves to, each with min(65535, sum of its floored weights) |
| HotkeyConversion.OrderIrrelevant | crates/bittensor-integration/src/challenge_weight_collector.rs:205-275 | permuting the input leaves the output unchanged |
| HotkeyConversion.AssignedIsMinerTotal | crates/bittensor-integration/src/challenge_weight_collector.rs:205-237 | accumulating per UID loses nothing: over all UIDs it is the sum of every resolved entry |
| HotkeyConversion.BurnFitsBesideMiners | crates/bittensor-integration/src/challenge_weight_collector.rs:236-266 | for arbitrary inputs a burn entry beside resolved UIDs never takes the total above 65535 |
| HotkeyConversion.BurnEntry | crates/bittensor-integration/src/challenge_weight_collector.rs:236-266 | for arbitrary inputs: the burn entry stands alone with 65535 if nothing resolves, otherwise it is the floored burn weight as far as it fits beside the sum of all resolved entries, and absent if that is 0 |
| HotkeyConversion.FlooringLoss | crates/bittensor-integration/src/challenge_weight_collector.rs:210-234 | each resolved entry loses less than one unit to flooring |
| HotkeyConversion.MassConserved | crates/bittensor-integration/src/challenge_weight_collector.rs:194-276 | non-negative weights totalling 1 with k resolved entries give a total in (65535 - (k + 1), 65535], and exactly 65535 when k = 0 |
| Consensus.ConsensusEngine.constructor | crates/p2p-consensus/src/consensus.rs:156-176 | a new engine is in view 0, next sequence 1, without round or decisions |
| Consensus.ConsensusEngine.CreateProposal | crates/p2p-consensus/src/consensus.rs:205-281 | only the leader of the view, and only the sudo key for a configuration update, starts a round; the current round is replaced |
| Consensus.ConsensusEngine.HandleProposal | crates/p2p-consensus/src/consensus.rs:284-379 | refuses another view, another sequence, a proposer who is not the leader, a wrong hash, a bad signature or an unauthorised configuration update, in that order; otherwise starts the round with the own prepare vote |
| Consensus.ConsensusEngine.CreatePrePrepare | crates/p2p-consensus/src/consensus.rs:382-427 | only the leader of the named view signs a pre-prepare |
| Consensus.ConsensusEngine.HandlePrepare | crates/p2p-consensus/src/consensus.rs:477-570 | a vote counts once, and only for the view, sequence and hash of the round and from a registered validator; at the quorum the engine commits |
| Consensus.ConsensusEngine.HandleCommit | crates/p2p-consensus/src/consensus.rs:611-717 | likewise for commits; at the quorum in the prepared phase the decision is stored, the sequence advances and the round ends |
| Consensus.ConsensusEngine.EnterView | crates/p2p-consensus/src/consensus.rs:1066-1073 | a view change sets the view and drops the round |
| ConsensusSafety.StepSound | crates/p2p-consensus/src/consensus.rs:205-717 | one operation keeps its engine sound, signs only what the leader of that view signed, and decides only with a certificate |
| ConsensusSafety.EveryDecisionCertified | crates/p2p-consensus/src/consensus.rs:611-717 | over every network run (faulty validators, lost and repeated messages, restarts, arbitrary view changes): each decision carries a quorum of distinct signers, the decider among them, of exactly its view, sequence and data hash, configuration updates are the sudo key's own, and decisions are numbered 1, 2, 3, ... without a gap |
| ConsensusSafety.DecisionsArePermanent | crates/p2p-consensus/src/consensus.rs:702-715 | a stored decision never changes until its engine restarts |
| ConsensusSafety.DecisionsFollowLeader | crates/p2p-consensus/src/consensus.rs:284-717 | however many validators are faulty, no engine decides what the leader of that view did not sign |
| ConsensusAgreement.BoundLeadersAgree | crates/p2p-consensus/src/consensus.rs:284-717 | however many validators are faulty, if the leaders of two views (or of one) are bound to one hash for a sequence number, its decisions in those views agree |
| ConsensusAgreement.ConflictingRun | crates/p2p-consensus/src/consensus.rs:205-1073 | with three honest validators or more, whether or not there are faulty ones: for any two hashes, in one view or in a view and a later one, there is a run without restarts, entering only higher views that a quorum asked for, in which two honest engines decide one each and nobody signs anything else for that sequence number |
| ConsensusAgreement.AgreementExactly | crates/p2p-consensus/src/consensus.rs:205-1073 | with three honest validators or more and any number of faulty ones (so with at most f of n >= 4): decisions of a sequence number in two views, or in one, agree in every run in which the leaders keep to a rule on what they sign, if and only if the rule leaves one hash; the same for runs without restarts that enter only higher views a quorum asked for |
| ConsensusAgreement.HonestViewsDisagree | crates/p2p-consensus/src/consensus.rs:720-1073 | with all validators honest, no restart, and engines entering only higher views that a quorum asked for, proposals of different data for one sequence number in different views both get decided: a new view carries nothing over |
| ConsensusAgreement.FaultyLeaderSplitsView | crates/p2p-consensus/src/consensus.rs:284-379 | with one faulty validator of n >= 4, leading the view, honest engines decide two hashes in one view, and an honest decider signed both |
| ConsensusSafety.ConflictNeedsDoubleSigners | crates/p2p-consensus/src/consensus.rs:477-717 | two decisions of one view and sequence with different hashes come with at least 2 * quorum - n validators that signed two hashes, honest ones included |
| ConsensusSafety.QuorumsOverlapExactly | crates/p2p-consensus/src/validator.rs:312-326 | any two quorums of 2f + 1 share more than f validators if and only if n = 3f + 1 (or n = 0) |
| ConsensusSafety.ConflictInvolvesHonest | crates/p2p-consensus/src/validator.rs:312-326 | with n = 3f + 1 active validators and at most f faulty, conflicting decisions in one view always come with an honest validator that signed both hashes and a leader that did |
| Consensus.LeadersRotate | crates/p2p-consensus/src/validator.rs:366-373 | view v < n is led by entry v of the list of active validators, and view v + n by the leader of view v |
| Consensus.EachLeadsOnce | crates/p2p-consensus/src/validator.rs:366-379 | in any n consecutive views every active validator leads exactly one |
| Consensus.NextViewIsLed | crates/p2p-consensus/src/validator.rs:388-403 | the next view computed for a validator is led by it, and it is the only one among the next n; there is none if and only if the validator is not active |
| Consensus.StakesDetermineLeaders | crates/p2p-consensus/src/validator.rs:296-310 | the list of leaders, by stake and then hotkey, is determined by the stakes of the active validators: the order a hash map yields them in does not matter |
| Consensus.ProposalTakenExactly | crates/p2p-consensus/src/consensus.rs:284-379 | a proposal is taken if and only if it passes every check; otherwise nothing changes |
| Consensus.ProposalIsTaken | crates/p2p-consensus/src/consensus.rs:205-379 | what a leader proposes, every engine at the same view and sequence number takes, with the same content and the same vote |
| Consensus.PrePrepareOutcome | crates/p2p-consensus/src/consensus.rs:382-427 | exactly the leader of the named view signs a pre-prepare; it is noted in the round and changes nothing else |
| Consensus.PrepareCountsOnce | crates/p2p-consensus/src/consensus.rs:477-570 | a prepare vote counts if and only if it is a registered validator's valid vote for exactly this round and the first one; otherwise nothing changes |
| Consensus.CommitCountsOnce | crates/p2p-consensus/src/consensus.rs:611-717 | likewise for commit votes; a decision holds the votes counted |
| ValidatorSyncing.RemoveUnregistered | crates/bittensor-integration/src/validator_sync.rs:185-193 | the removal loop leaves exactly the registered validators and the sudo key, in any order, and counts the others |
| ValidatorSyncing.VisitOne | crates/bittensor-integration/src/validator_sync.rs:196-226 | one turn of the second loop: skip a banned hotkey, refresh a changed stake, or add a newcomer while there is room |
| ValidatorSyncing.AddAndRefresh | crates/bittensor-integration/src/validator_sync.rs:196-226 | the whole second loop with its three counters |
| ValidatorSyncing.UpdateState | crates/bittensor-integration/src/validator_sync.rs:170-230 | new validator map and counters for any iteration orders; the state hash is current afterwards if and only if everybody is kept, or there is room beside those kept and somebody new to admit |
| ValidatorSyncing.AdmitsSomeone | crates/bittensor-integration/src/validator_sync.rs:196-226 | somebody is admitted, in every order, if and only if there is a newcomer and any room |
| ValidatorSyncing.HashGoesStale | crates/bittensor-integration/src/validator_sync.rs:185-193 | a sync that only removes leaves the hash of the old summary |
| ValidatorSyncing.Accounting | crates/bittensor-integration/src/validator_sync.rs:170-230 | total = old - removed + added, and everyone left is in the metagraph or is the sudo key |
| ValidatorSyncing.FinalRecords | crates/bittensor-integration/src/validator_sync.rs:196-226 | in any order: who is kept and not banned ends with the metagraph stake, with its activity taken over only if the stake differed; banned or unlisted ones keep their record; newcomers meet the minimum stake |
| ValidatorSyncing.LastEntryCounts | crates/bittensor-integration/src/validator_sync.rs:180-183 | a hotkey is in the map if and only if some entry of the metagraph list has it, active or not, and its value is the last such entry |
| ValidatorSyncing.RemovedExactly | crates/bittensor-integration/src/validator_sync.rs:180-193 | a validator is removed if and only if the list passed in has no entry for it and it is not the sudo key |
| ValidatorSyncing.EntryTaken | crates/bittensor-integration/src/validator_sync.rs:180-226 | the last entry for a hotkey decides: a validator already there takes over its stake and activity if the stake differs and it is not banned, and keeps its record otherwise; a newcomer starts with its stake |
| ValidatorSyncing.Counts | crates/bittensor-integration/src/validator_sync.rs:196-226 | those updated are the unbanned, listed validators with another stake, those skipped the banned ones listed, and of the newcomers as many are added as there is room for |
| ValidatorSyncing.SecondSyncIdle | crates/bittensor-integration/src/validator_sync.rs:170-230 | a second call with the same metagraph and ban set removes, adds and updates nobody and changes nothing, in any order, even when capacity was hit |
| ValidatorSyncing.BoundsAfterSync | crates/bittensor-integration/src/validator_sync.rs:196-226 | a sync keeps the capacity bound; it keeps the minimum stake if and only if the metagraph gives no validator already there, unless banned, less than the minimum |
| ValidatorSyncing.OrderIndependence | crates/bittensor-integration/src/validator_sync.rs:196-226 | the final map is the same for all iteration orders if and only if there is room for every newcomer or no room at all |
| Chain.ChainState.constructor | crates/core/src/state.rs:111-130 | a fresh state, with its hash taken |
| Chain.ChainState.AddValidator | crates/core/src/state.rs:172-186 | refuses too little stake and a full table; otherwise inserts and rehashes |
| Chain.ChainState.RemoveValidator | crates/core/src/state.rs:189-195 | removes and rehashes only if present |
| Chain.ChainState.AddChallenge | crates/core/src/state.rs:219-222 | inserts and rehashes |
| Chain.ChainState.RemoveChallenge | crates/core/src/state.rs:225-231 | removes and rehashes only if present |
| Chain.ChainState.AddJob | crates/core/src/state.rs:239-242 | appends to the queue and rehashes |
| Chain.ChainState.ClaimJob | crates/core/src/state.rs:245-259 | takes the first unassigned job off the queue, running and assigned to the claimant, and rehashes; nothing changes if there is none |
| Chain.ChainState.IncrementBlock | crates/core/src/state.rs:262-265 | one block more, rehashed |
| Chain.RunFifo | crates/core/src/state.rs:239-259 | over every run the unassigned jobs added are those taken, then those still queued, in order |
| Chain.EveryRun | crates/core/src/state.rs:111-265 | over every run from new: the state hash is current, validators fit the capacity and meet the minimum stake, and jobs are conserved and handed out at most once, first in first out |
| Chain.HalfIsMajority | crates/core/src/state.rs:213-216 | with a threshold of one half the number required is a strict majority of the active validators if and only if that number is odd |
| Chain.ThresholdIsCeiling | crates/core/src/state.rs:213-216 | the number required is the least integer not below the share of the active validators |
| Chain.AddValidatorOutcome | crates/core/src/state.rs:172-186 | a record is added or replaced if and only if there is room and the stake suffices; nothing else changes but the hash |
| Chain.RemoveValidatorOutcome | crates/core/src/state.rs:189-195 | exactly the named validator goes |
| Chain.ChallengeOutcome | crates/core/src/state.rs:219-231 | an addition and a removal touch exactly the named challenge |
| Chain.HeightCountsBlocks | crates/core/src/state.rs:262-265 | over every run the height grows by the number of increments |
| Chain.HashMovesExactly | crates/core/src/state.rs:144-165 | the state hash changes with an operation if and only if that adds or takes away a validator, a challenge or a job, or a block: a record replaced in place does not move it |
| Lifecycle.LifecycleManager.Add | crates/challenge-orchestrator/src/lifecycle.rs:38-53 | pull, then start, which takes the container name from whoever runs under it; both maps change only if both succeed |
| Lifecycle.LifecycleManager.Update | crates/challenge-orchestrator/src/lifecycle.rs:56-82 | stops and removes the old container first, then pulls and starts, taking the container name; on any error both maps stay as they were |
| Lifecycle.LifecycleManager.Remove | crates/challenge-orchestrator/src/lifecycle.rs:85-97 | the instance is forgotten first, the configuration only after Docker succeeded |
| Lifecycle.LifecycleManager.Restart | crates/challenge-orchestrator/src/lifecycle.rs:100-109 | updates from the stored configuration, and fails without one |
| Lifecycle.LifecycleManager.RestartUnhealthy | crates/challenge-orchestrator/src/lifecycle.rs:112-132 | restarts each unhealthy instance, in any order, going on after errors, and returns the outcome for each id |
| Lifecycle.LifecycleManager.StopAll | crates/challenge-orchestrator/src/lifecycle.rs:197-207 | removes each recorded instance, going on after errors, and returns the outcome for each id |
| Lifecycle.LifecycleManager.Sync | crates/challenge-orchestrator/src/lifecycle.rs:135-194 | removal phase, then target phase, with the five result lists, under any Docker outcomes |
| Lifecycle.EveryRun | crates/challenge-orchestrator/src/lifecycle.rs:38-207 | from empty maps, over every run with arbitrary failures: every recorded instance has a configuration with the same image |
| Lifecycle.RunSeparate | crates/challenge-orchestrator/src/lifecycle.rs:38-207 | over every run in which Docker hands out fresh ids, no container is recorded for two challenges |
| Lifecycle.SyncAccounts | crates/challenge-orchestrator/src/lifecycle.rs:135-194 | under any failures the five lists together hold every target id as often as it is a target, every stale id once, and nothing else |
| Lifecycle.SyncReachesTarget | crates/challenge-orchestrator/src/lifecycle.rs:135-194 | after an error-free sync the configured ids are the target ids, each with the image last asked for |
| Lifecycle.SyncIdleAtTarget | crates/challenge-orchestrator/src/lifecycle.rs:155-182 | at the target a sync makes no Docker call and changes nothing if and only if no two targets disagree on an image |
| Lifecycle.SyncRecords | crates/challenge-orchestrator/src/lifecycle.rs:155-182 | after an error-free sync a target has an instance recorded if and only if it had one before or its configuration was missing or had another image |
| Lifecycle.SyncRuns | crates/challenge-orchestrator/src/lifecycle.rs:135-194 | after an error-free sync the container of a target runs if and only if the sync started it, or it ran before and was left alone, and no later start in the sync took its name; what the sync starts is read off the targets and the images configured before |
| Lifecycle.LastStart | crates/challenge-orchestrator/src/lifecycle.rs:155-182 | the last target of an id that asks for another image than the one known by then; none after it does |
| Lifecycle.StartTakesName | crates/challenge-orchestrator/src/docker.rs:686-701 | a start runs its challenge and stops another one exactly if that one runs under the same container name |
| Lifecycle.NamesCollide | crates/challenge-orchestrator/src/docker.rs:686-701 | two new challenges of one container name, without any failure: the sync reports both as added and the first one does not run |
| Lifecycle.TermBench | crates/challenge-orchestrator/src/docker.rs:686-690 | the names Term Bench and term-bench give one container name |
| Lifecycle.FailedUpdateStops | crates/challenge-orchestrator/src/lifecycle.rs:56-82 | an update that stops the old container and then fails leaves both maps as they were and nothing running; syncs to the configured images do not start it again, a restart does |
| Lifecycle.SyncReports | crates/challenge-orchestrator/src/lifecycle.rs:147-182 | an error-free sync lists the stale challenges as removed and each target as added, updated or unchanged, if and only if its configuration was missing, had another image, or had that image |
| Lifecycle.FailedRemovalStrands | crates/challenge-orchestrator/src/lifecycle.rs:85-97 | a removal that fails half-way forgets the instance and keeps the configuration, and an error-free sync that wants the same image records no instance and reports the challenge unchanged |
| Lifecycle.RemovalStops | crates/challenge-orchestrator/src/lifecycle.rs:85-97 | after a removal whose stop succeeded the container of the challenge runs under no name, every other container goes on, and the configuration is kept if and only if a call failed |
| Lifecycle.ReportedRemovalStops | crates/challenge-orchestrator/src/lifecycle.rs:197-207 | each challenge that stop_all reports as removed has its container stopped and its configuration forgotten; an error keeps the configuration |
| Lifecycle.StopAllOutcome | crates/challenge-orchestrator/src/lifecycle.rs:197-207 | afterwards no instance is recorded, no container that was not recorded is stopped and none is started |
| Lifecycle.SyncStops | crates/challenge-orchestrator/src/lifecycle.rs:147-153 | after an error-free sync the container of every challenge listed as removed runs under no name |
| Lifecycle.AdditionOutcome | crates/challenge-orchestrator/src/lifecycle.rs:38-53 | an addition succeeds if and only if pull and start do; then configuration, instance and running container are those asked for, otherwise both maps stay |
| Lifecycle.ReportedRestartRuns | crates/challenge-orchestrator/src/lifecycle.rs:112-132 | each restart reported as successful leaves its new container running under its configured name, unless a later restart of the loop takes that name |
| Lifecycle.RestartsAreIndependent | crates/challenge-orchestrator/src/lifecycle.rs:112-132 | a restart succeeds if and only if the challenge is configured (recorded or not) and its own Docker calls succeed, whatever became of the others |
| Lifecycle.SyncErrsExactly | crates/challenge-orchestrator/src/lifecycle.rs:147-182 | failures stay where they happen: a target is among the errors if and only if it has to be started and one of its own calls fails, a stale challenge if and only if its own removal fails |
| Lifecycle.RunKeyed | crates/challenge-orchestrator/src/lifecycle.rs:38-207 | over every run each configuration is kept under its own challenge |
| Orchestrator.ChallengeOrchestrator.UpdateChallenge | crates/challenge-orchestrator/src/lib.rs:216-241 | stops the old container if any, pulls, starts, taking the container name, and records; an error leaves the map as it was |
| Orchestrator.ChallengeOrchestrator.RemoveChallenge | crates/challenge-orchestrator/src/lib.rs:244-257 | forgets the instance before the Docker calls |
| Orchestrator.ChallengeOrchestrator.SyncChallenges | crates/challenge-orchestrator/src/lib.rs:275-304 | removals, then additions and replacements, ending at the first Docker error |
| Orchestrator.OkMeansAtTarget | crates/challenge-orchestrator/src/lib.rs:275-304 | a sync that reports success leaves the instance map with exactly the targets, each with the image last asked for |
| Orchestrator.SelfHealing | crates/challenge-orchestrator/src/lib.rs:275-304 | from every instance map, one left by an aborted sync included, a call without failures succeeds and leaves the map with exactly the targets |
| Orchestrator.SyncRuns | crates/challenge-orchestrator/src/lib.rs:216-304 | after a successful sync the container of a target runs if and only if the sync started it, or it ran before and was left alone, and no later start in the sync took its name |
| Orchestrator.NamesCollide | crates/challenge-orchestrator/src/lib.rs:275-304 | two new challenges of one container name: the sync succeeds, records both, and the first one does not run |
| Orchestrator.SyncSeparate | crates/challenge-orchestrator/src/lib.rs:216-304 | with fresh ids no sync, aborted or not, records one container for two challenges |
| Orchestrator.AbortedSyncStaysStopped | crates/challenge-orchestrator/src/lib.rs:216-241 | a sync that fails after stopping the old container leaves it recorded and stopped, and every later sync back to the recorded images succeeds without a Docker call |
| Orchestrator.SilentAtTarget | crates/challenge-orchestrator/src/lib.rs:275-304 | with the targets recorded a sync makes no Docker call if and only if no two targets disagree on an image |
| Orchestrator.DropOutcome | crates/challenge-orchestrator/src/lib.rs:244-257 | a removal whose stop succeeded leaves the container of the challenge running under no name and every other container as it was |
| Orchestrator.SyncStops | crates/challenge-orchestrator/src/lib.rs:275-304 | after a successful sync the container of every challenge that is no target any more runs under no name |
| StateVersioning.CoreRoundTrip | crates/core/src/state_versioning.rs:117-131 | decoding the encoding of the fields common to all layouts gives them back, for every order the maps are written in |
| StateVersioning.SaveThenLoad | crates/core/src/state_versioning.rs:50-80 | a state saved with its version loads as itself |
| StateVersioning.LoadVersion2 | crates/core/src/state_versioning.rs:186-208 | a version 2 file loads as its migration |
| StateVersioning.LoadVersion1 | crates/core/src/state_versioning.rs:135-160 | a version 1 file loads as its migration |
| StateVersioning.OtherVersionsRefused | crates/core/src/state_versioning.rs:215-246 | any other version is refused |
| StateVersioning.TotalStakeAnyOrder | crates/core/src/state.rs:203-210 | the total stake does not depend on the order the validators are walked in |
| StateVersioning.TotalStakeWithout | crates/core/src/state.rs:203-210 | a validator adds its stake to the total if it is active, and nothing otherwise |
| Bincode.Layout | crates/core/src/state_versioning.rs:50-80 | examples of the format: low byte first, u64 length prefixes, one tag byte |
| StateVersioning.MigrationPreserves | crates/core/src/state_versioning.rs:98-110 | a migration keeps every field of every validator and of the state, hence total stake and number of active validators |
| StateVersioning.RawHeader | crates/core/src/state_versioning.rs:260-288 | the start of a raw state read as a version header: the high half of the height and the low half of the epoch are the declared length |
| StateVersioning.RawStateLoads | crates/core/src/state_versioning.rs:260-288 | raw current bytes below 4 GiB with epoch not 0 modulo 2^32 are never taken for a versioned state and load as their state |
| StateVersioning.RawStateOutcome | crates/core/src/state_versioning.rs:260-288 | for every height, epoch and length: raw current bytes are taken for a versioned state if the declared length does not exceed what follows the header, and load as their state otherwise |
| StateVersioning.RawStateLoadsExactly | crates/core/src/state_versioning.rs:260-288 | they load if the declared length exceeds what follows, and are refused if not and the low half of the height is no supported version or there is no data; below height 2^32 and 4 GiB they load if and only if the epoch is not 0 modulo 2^32 |
| StateVersioning.RawVersion2Loads | crates/core/src/state_versioning.rs:272-276 | raw version 2 bytes without validators are the current bytes of their migration and load as it (epoch not 0 modulo 2^32, below 4 GiB) |
| StateVersioning.RawVersion1Loads | crates/core/src/state_versioning.rs:278-282 | raw version 1 bytes without validators fail the two later layouts and load as their migration (same bounds) |
| Routes.Matches | crates/challenge-sdk/src/routes.rs:213-238 | the loop computes the specified match |
| Routes.MatchMeans | crates/challenge-sdk/src/routes.rs:213-238 | there is a match exactly when every fixed part is equal, and then each parameter of the pattern has a value captured from the path |
| Routes.MatchExactly | crates/challenge-sdk/src/routes.rs:213-238 | a route matches if and only if the method is the same, the paths have as many parts and the fixed parts are equal; a parameter has the value of the last part of its name |
| Routes.MatchRebuilds | crates/challenge-sdk/src/routes.rs:213-238 | substituting the parameters into the pattern rebuilds the path if and only if repeated parameter names met equal parts (with distinct names, always) |
| Routes.SubstitutedMatches | crates/challenge-sdk/src/routes.rs:213-238 | a path made by substitution matches with exactly those values if and only if the substituted parts hold no slash |
| Routes.RouteRegistry.RegisterAll | crates/challenge-sdk/src/routes.rs:446-453 | appends the routes in order |
| Routes.RouteRegistry.FindRoute | crates/challenge-sdk/src/routes.rs:456-467 | the scan computes the specified answer |
| Routes.FindIsFirst | crates/challenge-sdk/src/routes.rs:456-467 | the answer is the first registered route that matches; none if and only if none matches |
| Routes.LaterRoutesIrrelevant | crates/challenge-sdk/src/routes.rs:446-467 | later registrations never change an answer |
| Commitment.SortSorts | crates/challenge-sdk/src/weights.rs:20-22 | the sorted copy is sorted and a permutation of the input |
| Commitment.LeMeans | crates/challenge-sdk/src/weights.rs:20-22 | the order is that of a dictionary: a prefix first, otherwise the first differing byte decides |
| Commitment.SortStable | crates/challenge-sdk/src/weights.rs:20-22 | entries with equal hotkeys keep their order |
| Commitment.CreateCommitment | crates/challenge-sdk/src/weights.rs:17-33 | the bytes fed to the hasher are those of the sorted entries, then the secret |
| Commitment.SortedUnique | crates/challenge-sdk/src/weights.rs:20-22 | a sorted list without conflicting entries is determined by its elements |
| Commitment.OrderIndependence | crates/challenge-sdk/src/weights.rs:17-33 | the bytes hashed are the same for every order of the list if and only if no hotkey is listed with two different weights |
| Commitment.InputBinds | crates/challenge-sdk/src/weights.rs:17-33 | with hotkeys of one length, two lists give the same bytes under one secret if and only if they are the same after sorting, and then they are permutations of each other |
| Commitment.EntriesMerge | crates/challenge-sdk/src/weights.rs:24-27 | hotkeys are fed without their length: any two entries give the bytes of one entry with a longer hotkey |
| Commitment.SecretBinds | crates/challenge-sdk/src/weights.rs:17-33 | the input ends with the secret, behind bytes that do not depend on it; for one list two secrets give the same input if and only if they are equal |
| Commitment.TwoEntries | crates/challenge-sdk/src/weights.rs:17-33 | two entries, in either order: the smaller hotkey first, each followed by its weight, then the secret |
| SchemaGuard.ConstHash | crates/core/src/schema_guard.rs:30-40 | the loop computes the 64-bit FNV-1a fold (section 2 of draft-eastlake-fnv) |
| SchemaGuard.StepBijective | crates/core/src/schema_guard.rs:34-38 | for each byte the step is a bijection on 64-bit states, with its inverse |
| SchemaGuard.FoldInjective | crates/core/src/schema_guard.rs:30-40 | over any fixed suffix, different starting states never meet |
| SchemaGuard.OneByteChangesHash | crates/core/src/schema_guard.rs:30-40 | strings of equal length that differ in exactly one byte hash differently |
| SchemaGuard.EditIsReported | crates/core/src/schema_guard.rs:126-193 | the registered strings pass, and any edit of one byte is reported as a mismatch of the type edited |
| SchemaGuard.PassesExactly | crates/core/src/schema_guard.rs:126-193 | the check passes if and only if the version is registered with the hashes of both strings |
| SchemaGuard.PublishedValues | crates/core/src/schema_guard.rs:30-40 | the hashes of the empty string and of "a" are those published in draft-eastlake-fnv |

## Left out

- View changes: timeouts, prepared proofs and the messages by which a quorum's wish reaches an engine are not modelled. The safety results let an engine move to any view at any time; the conflicting runs use only higher views that a quorum of validators asked for.
- Validator set changes during a consensus run, heartbeats, stale validators and stake-weighted voting: the committee is fixed.
- DHT, replication, gossip, epoch manager and weight aggregation: network plumbing and further state machines.
- Docker, broker, HTTP and RPC code: calls that may fail, with a container id as result and the set of running containers as state.
- Direct and CRv4 (timelock) submission in `WeightSubmitter`: they keep no state between calls beyond what the chain holds.
- Metagraph fetch, SS58 decoding and hotkey lookup: a fixed partial function from hotkeys to UIDs.
- Wall-clock time stamps, logging, environment variables, builders, error texts and configuration defaults.
- NaN and rounding of f64.
- Unversioned version 1 and 2 files that hold validators: which layout a trial decoding accepts depends on the bincode form of every nested type.
- Lifecycle.LifecycleManager.Sync: configurations are compared by image, as in the code; the other settings are one opaque string.
- StateVersioning.RawStateLoadsExactly: when the low half of the height is 1, 2 or 3 and the declared data is there, what is decoded depends on the bytes of the opaque fields; `RawStateOutcome` says which bytes they are.
- ConsensusAgreement.AgreementExactly: does not cover networks with fewer than three honest validators; the direction from the rule to agreement (`BoundLeadersAgree`) holds for every number.
- Docker: a failed stop leaves a container running and a failed start starts none; container names are lower-cased as ASCII.
- ConsensusSafety.ConflictNeedsDoubleSigners: assumes every engine's own hotkey is registered, since an engine counts its own vote without looking itself up.
