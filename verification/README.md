# Alamo

Alamo is a solo merge-mining pool: miners work on a parent chain (Litecoin) and every share may at
the same time be a block of an auxiliary chain (Dogecoin). This project models what the pool
promises and proves it of the model.

* **Blocks from bytes.** `Encode`, `Header`, `Transaction`, `Merkle`, `Target`, `Work`, `Coinbase`
  and `AuxPow` build byte strings as the pool does and read them back with independent parsers.
  `SlotAssignment` and `AuxTree` settle what the aux tree search returns: the slot generator's
  multiplier is odd, so collisions depend on the chain ids alone and the search always ends at
  nonce 0. `AuxCheck` is the aux node's view of a proof, starting from the candidate's bytes.
  `BlockTheorems` and `Candidates` show that every aux candidate passes it, and that parent and aux
  blocks hold what their headers commit to and pay the right scripts.
* **Sessions.** `Session` is the connection as a state machine, `Connection` the object that
  implements it, `Validate`, `Jobs` and `Vardiff` its parts. `SessionSteps`, `SessionRuns`,
  `SessionSafety`, `SessionSeen`, `SessionReports`, `SameHeader`, `SessionVardiff` and
  `SessionDifficulty` are about every run: no share twice under one job, who is registered and paid,
  what is stale, what is reported, which difficulty counts and when and where it moves
  (`Retargeting`).
  `TwoJobRuns` follows the runs that get two works and submit a share for the job of each.
* **Templates.** `TemplateStream` polls one node, `MergedStream` joins the chains, `TagBudget` is the
  coinbase prefix and the limit on the pool's tag. `OldTip` feeds a session what a lost flush leaves.
* **Accounting.** `Ledger` holds the tables, `LiveStats` the figures in memory, `Publisher` the loop
  between them. `Accounting` proves the live figures to be what a restart would show; `Rounds`
  proves that work is conserved and when a round can be in debt; `LiveSessions` says which sessions a
  worker has.
* **On their own.** `Retention`, `RetentionRuns` and `HourlyMeans` (tiered downsampling),
  `NaturalOrder` (worker names).
* `Pipeline` connects the parts end to end.

Where the program works in place the model does: byte buffers, the difficulty estimator, the
connection, the template source, the merger, the tables, the live figures and the queue are
classes, and loops are loops, each proved against a specification function that the theorems are
about. `sha256d` and scrypt are arbitrary total functions to 32 bytes (`Hashes`); nothing rests on
collision resistance. Difficulty, work and sample means are `real` where the program has `f64`.
Clock readings, node answers and whether a database write succeeds are inputs.

What the proofs found in the code:

* The aux tree's nonce never matters (`SlotsCollideIff`), although the comment in
  crates/alamo-core/src/auxpow.rs:104 says that a wider tree makes unlucky nonces rarer.
* Building aux jobs panics if two configured aux chains carry the same chain id (`BuildPanicsIff`), as
  they do when one coin is configured under two spellings of its key (`TwoSpellingsPanic`).
* Solo, the longest tag the settings accept is one byte too long from height 2^23 on
  (`SoloBudgetIff`): the budget counts one opcode byte, a push of 76 bytes or more takes two. The
  session is then closed instead of getting a job.
* At the single height 0x6d6dbefa the height push itself is the merged-mining magic
  (`PrefixHoldsMagicIff`, `MagicIsFirstIff`), and a node that looks for the first magic is misled.
* An aux node that wants the magic to occur only once can be put off by a magic in the committed root
  or in the extranonce, half of which the miner chooses (`AuxBlockMagics`, `MinerCanBreakProof`).
* A job's set of seen shares, which crates/alamo-stratum/src/job.rs:36 calls shares already accepted,
  grows with every well-formed share, accepted or not (`SeenGrowsIff`, `SeenIsEntered`;
  `RejectedYetEntered` is a share that shows it). So a share of low difficulty is a duplicate when it
  comes again (`ResubmittedIsDuplicate`); nothing is lost by it, since its hash is the same.
* No share is accepted twice under one job id, but after a refresh of the same work one and the same
  header is accepted once under each of two ids (`AcceptedUnderTwoIds`). `SameHeaderTwiceIff` says
  exactly when: the same share on jobs made of the same work, or else two strings that were hashed
  for the two Merkle roots differ and have one SHA-256d.
* An aux coinbase without a tag has a script too short for consensus up to height 16
  (`PrefixLongEnoughIff`).
* A share that meets a chain's target but not its job's is rejected for low difficulty, and the block
  with it (`BlocksFoundIff`). That can happen exactly if the job is harder than the chain
  (`BlockCanBeLostIff`), as with the default difficulty on the easiest chain
  (`DefaultJobOnEasyChain`).
* The clean flag can be lost if the merger skips a clean template (`SkippedFlush`; `FlagRightIff` says
  exactly when). Shares for jobs on the old tip then go on being accepted (`OldTipAccepted`).
* A failed flush before an operator command can part the live figures from the tables;
  `StepRefinesIff` says exactly when, `FailedFlushThenReset` and `FailedFlushThenRemove` are runs that
  do it.
* After a start that cannot read the tables the live total misses all earlier work, and a round can
  be in debt until the clamp hides it (`RoundNeverNegative`, `FailedLoadIndebts`).
* The share that wins a block is normally still queued when the block is recorded, and so counts
  towards the next round (`RoundOpensWithQueue`).
* An hourly sample is the mean of its raw samples, whatever their values, exactly if its five-minute
  buckets held equally many (`HourlyRowExactIff`, `UnequalCountsShiftTheMean`).

## Model

| member | source | states |
|---|---|---|
| Encode.WriteVarint | crates/alamo-core/src/encode.rs:4-20 | appends exactly the CompactSize form of the number |
| Encode.VarintRoundTrip | crates/alamo-core/src/encode.rs:4-47 | at any position of any byte string, reading where a CompactSize was written gives the number back and consumes `varint_len` bytes |
| Encode.PushData | crates/alamo-core/src/encode.rs:50-68 | appends the push opcode of the data's length and the data |
| Encode.PushRoundTrip | crates/alamo-core/src/encode.rs:50-68 | an independent script reader finds the pushed data and its end, for every length below 2^32 |
| Encode.ScriptNumBytesLoop | crates/alamo-core/src/encode.rs:84-103 | the byte loop with its sign fix-up gives the sign-magnitude form of the number |
| Encode.ScriptNumRoundTrip | crates/alamo-core/src/encode.rs:84-103 | the bytes denote the number, and no shorter byte string would: the last byte is needed for magnitude or sign |
| Encode.WriteScriptNum | crates/alamo-core/src/encode.rs:71-81 | appends the one-byte opcode for -1 to 16 and a push of the script number otherwise |
| Encode.ScriptNumPushRoundTrip | crates/alamo-core/src/encode.rs:71-103 | reading the pushed number back from a script gives it, for every i64 |
| Merkle.MerkleRoot | crates/alamo-core/src/merkle.rs:74-84 | the level-by-level loop computes the recursively defined root (last node duplicated at odd levels) |
| Merkle.BranchAt | crates/alamo-core/src/merkle.rs:58-71 | the climbing loop collects the recursively defined branch of the leaf |
| Merkle.CoinbaseBranch | crates/alamo-core/src/merkle.rs:15-33 | the loop over levels with an unknown first node gives the steps computed without the coinbase |
| Merkle.RootFromBranchAt | crates/alamo-core/src/merkle.rs:44-55 | the loop over steps and index bits is the fold of the leaf through the branch |
| Merkle.BranchFoldsToRoot | crates/alamo-core/src/merkle.rs:42-84 | for every non-empty leaf list and every index, folding the leaf through its branch gives the root |
| Merkle.CoinbaseStepsIsBranchZero | crates/alamo-core/src/merkle.rs:11-33 | the steps stored without knowing the coinbase are the branch of leaf 0, whatever the coinbase |
| Merkle.CoinbaseFoldsToRoot | crates/alamo-core/src/merkle.rs:15-42 | for every list of other transactions, folding any coinbase hash through the stored steps gives the root over the coinbase and all of them |
| Merkle.RootIsFoldAtZero | crates/alamo-core/src/merkle.rs:36-55 | `root_from_branch` is `root_from_branch_at` with index 0 |
| Merkle.SmallRoots | crates/alamo-core/src/merkle.rs:74-84 | the roots over one, two and three leaves in full |
| Merkle.BranchLength | crates/alamo-core/src/merkle.rs:58-71 | with 2^k leaves every branch has length k |
| SlotAssignment.SlotsCollideIff | crates/alamo-core/src/auxpow.rs:38-48 | for every nonce, all u32 ids and every height below 32, two slots collide if and only if the ids are congruent modulo 2^height: the nonce never matters |
| SlotAssignment.LcgSeparates | crates/alamo-core/src/auxpow.rs:42-48 | one wrapping LCG step keeps two states congruent modulo 2^height if and only if they were |
| SlotAssignment.MultiplierCancels | crates/alamo-core/src/auxpow.rs:42-48 | the odd multiplier cancels modulo every 2^height up to 32 |
| SlotAssignment.SlotClosedForm | crates/alamo-core/src/auxpow.rs:40-48 | the slot is the two steps taken on whole numbers, without any wrapping, modulo the tree size |
| AuxTree.VersionKeepsChainId | crates/alamo-core/src/auxpow.rs:29-38 | reading the chain id back from a stamped version gives the id if and only if it is a sign-extended 16-bit number, and stamping twice is stamping once |
| AuxTree.VersionBits | crates/alamo-core/src/auxpow.rs:29-33 | a stamped version keeps the low byte, has the auxpow flag alone in the next, and the id's low half above them |
| AuxTree.VersionIdsApart | crates/alamo-core/src/auxpow.rs:34-38 | two ids read from versions, negative ones included, are equal if and only if they agree modulo 2^16 |
| AuxTree.DistinctSlotsIffApart | crates/alamo-core/src/auxpow.rs:103-117 | the slots of a nonce are distinct if and only if the ids are pairwise incongruent modulo the tree size |
| AuxTree.ApartFits | crates/alamo-core/src/auxpow.rs:98-102 | n pairwise incongruent ids need 2^height at least n (pigeonhole) |
| AuxTree.Build | crates/alamo-core/src/auxpow.rs:89-137 | the height and nonce search with its duplicate scan terminates and returns nonce 0 at the least height that keeps the ids apart, or the error |
| AuxTree.Search | crates/alamo-core/src/auxpow.rs:98-136 | the outer loop finds the least height at or above its start that keeps the ids apart |
| AuxTree.TryNonces | crates/alamo-core/src/auxpow.rs:104-134 | of the 64 nonces the first succeeds or none does |
| AuxTree.FindDuplicate | crates/alamo-core/src/auxpow.rs:93-97 | reports the first id that occurred before |
| AuxTree.LeastFromStart | crates/alamo-core/src/auxpow.rs:98 | starting at the next power of two of the chain count skips no usable height |
| AuxTree.BuildSucceedsIff | crates/alamo-core/src/auxpow.rs:86-137 | building succeeds if and only if there is a chain and height 30 keeps the ids apart; the tree then is the one of nonce 0 at the least such height |
| AuxTree.BuildFailsWith | crates/alamo-core/src/auxpow.rs:89-137 | building fails as empty without chains, as a duplicate for exactly the first id that stood before, and as too many if no height up to 30 keeps distinct ids apart |
| AuxTree.VersionIdsBuild | crates/alamo-stratum/src/session.rs:431-435 | for ids read from versions building fails only on a duplicate id, and the tree has at most 2^16 leaves |
| AuxTree.BuiltTreeProves | crates/alamo-core/src/auxpow.rs:50-71 | in every built tree size = 2^height, the slots are distinct and the expected ones, every branch has length height and folds its chain's hash at its slot to the root |
| AuxTree.SingleChainTree | crates/alamo-core/src/auxpow.rs:139-150 | building a tree for one chain gives exactly the tree `single` makes |
| AuxTree.WriteCommitment | crates/alamo-core/src/auxpow.rs:152-162 | fills the 44 bytes: magic, reversed root, size and nonce |
| AuxTree.CommitmentInjective | crates/alamo-core/src/auxpow.rs:152-162 | a commitment determines root, size and nonce |
| Header.WriteHeader | crates/alamo-core/src/header.rs:29-38 | fills the 80 bytes field by field |
| Header.HeaderRoundTrip | crates/alamo-core/src/header.rs:28-54 | deserializing a serialized header gives it back, negative versions included |
| Header.HeaderOnto | crates/alamo-core/src/header.rs:40-54 | every 80 bytes are the serialization of the header they deserialize to |
| Transaction.MeasureTx | crates/alamo-core/src/auxpow.rs:246-267 | the cursor walk over inputs and outputs gives the length found by the recursive reader |
| Transaction.TxLenMeasures | crates/alamo-core/src/auxpow.rs:246-267 | on any legacy transaction followed by any bytes `tx_len` is exactly the transaction's length |
| Transaction.PlainRoundTrip | crates/alamo-core/src/coinbase.rs:92-102 | an independent transaction parser reads a legacy serialization back, at any position |
| Transaction.SegwitRoundTrip | crates/alamo-core/src/coinbase.rs:109-134 | and a marker-flag-witness serialization (BIP144) with its one witness item, giving the same transaction |
| Target.ToCompact | crates/alamo-core/src/target.rs:34-49 | the size and mantissa updates, with the sign-bit shift, compute the compact form |
| Target.SizeIsSignedLen | crates/alamo-core/src/target.rs:34-49 | the byte length corrected by the sign-bit test is the length of the number with a sign bit |
| Target.SignNeverSet | crates/alamo-core/src/target.rs:30-49 | the sign bit is never set, for all 2^256 targets |
| Target.CompactMonotone | crates/alamo-core/src/target.rs:30-49 | encoding preserves order |
| Target.DecodeOfEncode | crates/alamo-core/src/target.rs:20-49 | re-decoding keeps exactly the leading bytes: the value rounded down to its unit |
| Target.RoundsDown | crates/alamo-core/src/target.rs:20-49 | re-decoding rounds down with relative error below 2^-15 |
| Target.CompactFixesDecoded | crates/alamo-core/src/target.rs:20-49 | decode, encode, decode equals decode for all 2^32 bit patterns, with shifts that truncate the word or lose bits at the top |
| Target.FromDifficultyAntitone | crates/alamo-core/src/target.rs:52-63 | a higher difficulty never gives a larger target |
| Target.AcceptsByDifficulty | crates/alamo-core/src/target.rs:52-76 | a hash that meets a difficulty's target achieves that difficulty, as far as the fixed-point form can express it, to within 2^-32, and one that achieves it meets the target |
| Target.Diff1Is | crates/alamo-core/src/target.rs:17-49 | the difficulty-1 target is 0xffff at bit 208, and the compact form of that is 0x1d00ffff, both ways |
| Work.ShareTargets | crates/alamo-core/src/algo.rs:35-52 | a scrypt share target at stratum difficulty 65536 d is the SHA-256d one at d, which is the target of network difficulty d; at difficulty 1 they are 65536 times and once the difficulty-1 target |
| Work.ComputeMerkleBranch | crates/alamo-core/src/work.rs:62-66 | only the branch changes, to the one for the template's transactions |
| Work.RootCoversTransactions | crates/alamo-core/src/work.rs:62-71 | the header root computed from the stored branch is the Merkle root over the coinbase and every template transaction |
| Work.AssembleBlock | crates/alamo-core/src/work.rs:82-99 | appends header, auxpow, count, coinbase, every transaction in order and the payload |
| Coinbase.Build | crates/alamo-core/src/coinbase.rs:42-91 | builds both halves around the extranonce, or fails on an empty payout or a scriptSig over 100 bytes |
| Coinbase.CoinbaseSized | crates/alamo-core/src/coinbase.rs:42-91 | the length written in front of the scriptSig is right if and only if the commitment is shorter than 76 bytes (the code counts one opcode byte) |
| Coinbase.SerializeIsPlain | crates/alamo-core/src/coinbase.rs:92-107 | the concatenated halves are the legacy serialization of one coinbase transaction: the txid preimage |
| Coinbase.WriteForBlock | crates/alamo-core/src/coinbase.rs:118-134 | inserts marker, flag and witness into those bytes exactly when there is a witness commitment |
| Coinbase.BlockFormIsSegwit | crates/alamo-core/src/coinbase.rs:109-134 | the block form is the BIP144 serialization of the same transaction with the 32-byte reserved value as witness |
| AuxPow.Write | crates/alamo-core/src/auxpow.rs:200-217 | appends the wire form field by field |
| AuxPow.LenIsLength | crates/alamo-core/src/auxpow.rs:182-217 | `len` is the number of bytes written |
| AuxPow.DecodeForTest | crates/alamo-core/src/auxpow.rs:269-308 | the cursor decoder computes the recursive one |
| AuxPow.ProofRoundTrip | crates/alamo-core/src/auxpow.rs:182-217 | for every proof over a legacy coinbase, any branches and any trailing bytes, decoding gives the same fields and consumes exactly `len` bytes |
| AuxCheck.PushedCommitmentCommits | crates/alamo-core/src/auxpow.rs:450-475 | a commitment pushed behind any prefix passes the script check for every chain proven by its tree: reversed root after the magic, size = 2^length, index = the expected slot |
| AuxCheck.CommitmentIsFirstMagic | crates/alamo-core/src/auxpow.rs:463-466 | the commitment's magic is the first in the scriptSig if and only if the prefix holds none |
| AuxCheck.OnlyMagicIff | crates/alamo-core/src/auxpow.rs:152-162 | the commitment's magic is the only one in the scriptSig if and only if neither the prefix, nor the committed root, nor the extranonce holds one: no window runs from one part into the next, since size and nonce bytes never occur in the magic |
| AuxCheck.ScriptSigRoundTrip | crates/alamo-core/src/auxpow.rs:490-496 | the scriptSig cut out of a serialized coinbase is its first input's script |
| Jobs.BuildAuxJobs | crates/alamo-stratum/src/session.rs:397-442 | the two loops build exactly the placed drafts and the commitment, an error, or the panic |
| Jobs.BuildPanicsIff | crates/alamo-stratum/src/session.rs:431-435 | building panics if and only if every coinbase can be built and two aux templates the session has a payout for carry the same chain id |
| Coins.TwoSpellingsPanic | crates/alamo-coins/src/lib.rs:87-94 | one coin configured under two spellings: both keys are valid, and every job build then panics, whatever versions the nodes ask for |
| Coins.BuiltinIff | crates/alamo-coins/src/lib.rs:87-94 | a coin is found exactly under its key in any mix of cases |
| Coins.DogeVersion | crates/alamo-coins/src/doge.rs:27-29 | Dogecoin blocks are mined under chain id 98 with the auxpow flag |
| Jobs.BuiltAuxSound | crates/alamo-stratum/src/session.rs:403-441 | every aux job is built from a template of the work and the first payout for its coin, and one tree behind the commitment proves all of them |
| Validate.Validate | crates/alamo-stratum/src/validate.rs:29-133 | makes the checks in order, enters the share before the difficulty check, and collects the candidates |
| Validate.AcceptedIff | crates/alamo-stratum/src/validate.rs:36-79 | a share is accepted if and only if its job is not stale, extranonce2 has four bytes, ntime is in range (up to 7200 s ahead), it was not seen and its hash meets the job's target: the scrypt hash of the header on a scrypt job, its SHA-256d on the other; accepted shares are entered; and which reason each other share is rejected for |
| Validate.ShareAchieves | crates/alamo-core/src/algo.rs:50-58 | in stratum units, a share meeting a job's target achieves the job's difficulty and one achieving it meets the target, as far as the fixed-point form can express it |
| Validate.SeenGrowsIff | crates/alamo-stratum/src/validate.rs:36-79 | `seen` grows if and only if the share is well-formed, and without an acceptance if and only if it is and misses the job's target; duplicates are the timely shares already in it |
| Validate.RejectedYetEntered | crates/alamo-stratum/src/validate.rs:53-79 | on any job just sent a first share can be rejected for low difficulty and entered; the same share again is then a duplicate |
| Validate.CollectAux | crates/alamo-stratum/src/validate.rs:98-126 | the loop yields one candidate per aux job that is not stale and whose target is met, in order |
| Validate.AuxCandidateOrigin | crates/alamo-stratum/src/validate.rs:98-126 | every aux candidate comes from such an aux job |
| Validate.BlocksFoundIff | crates/alamo-stratum/src/validate.rs:74-132 | a well-formed share yields blocks if and only if it meets the job's own target and some chain's, and then one for every chain whose target it meets |
| Validate.EasyJobLosesNothing | crates/alamo-stratum/src/validate.rs:74-132 | no block of a chain is lost while the job's target is no harder than the chain's |
| Validate.BlockCanBeLostIff | crates/alamo-stratum/src/validate.rs:74-132 | a well-formed share can lose a parent block, for some hash values, if and only if the job is harder than the parent chain; an aux block if and only if it is harder than the aux chain |
| Validate.DefaultJobOnEasyChain | crates/alamo-stratum/src/config.rs:37-46 | the default difficulty of 65536 on a chain with bits 0x207fffff is such a job |
| BlockTheorems.ParentBlockAgrees | crates/alamo-stratum/src/validate.rs:58-97 | read back from its bytes alone, a parent block holds all template transactions and a version 1 coinbase with one input, which spends output 0xffffffff of the zero hash under a script of at most 100 bytes that starts with the template's prefix and ends with the session's extranonce, and which pays the whole value to the payout script beside the witness commitment; its header's root is the Merkle root of the stripped coinbase's txid and theirs |
| BlockTheorems.AuxBlockAccepted | crates/alamo-stratum/src/validate.rs:98-126 | an outside checker that decodes the block's bytes accepts its proof: coinbase in the parent tree, aux hash folding to the committed root, expected slot, branch length, and scrypt or SHA-256d of the parent header within the block's own bits |
| BlockTheorems.AuxBlockAgrees | crates/alamo-stratum/src/session.rs:408-427 | after the proof the block holds its own coinbase, with the one null input under the template's prefix, paying the whole value to the session's script for the coin, and the template's transactions, under its header's root |
| BlockTheorems.ProofIsShares | crates/alamo-stratum/src/validate.rs:98-110 | the proof's parent header is the header the miner hashed, the hash beside it is that header's, and its coinbase script ends with the session's extranonce |
| BlockTheorems.AuxBlockMagics | crates/alamo-stratum/src/validate.rs:102-110 | the magic occurs once in the coinbase an aux node reads from the block if and only if neither prefix, nor committed root, nor extranonce holds it |
| BlockTheorems.MinerCanBreakProof | crates/alamo-stratum/src/validate.rs:53-60 | a miner that chooses the magic as extranonce2 puts a second one in every aux proof |
| Candidates.CandidateGood | crates/alamo-stratum/src/validate.rs:81-132 | every candidate of every share on any job a session sends is a good parent or aux block: its own header has the template's version, previous hash and bits, the share's time and nonce (an aux block's the template's time) and the reported hash; the paying body stands right behind header and proof; and worker, address, value, time and both difficulties are reported as they are |
| TagBudget.WritePrefix | crates/alamo-coins/src/template.rs:91-95 | writes the BIP34 height push, then the tag's push if there is a tag |
| TagBudget.HeightReadsBack | crates/alamo-coins/src/template.rs:91-95 | the height reads back from the front of any coinbase script |
| TagBudget.PrefixLongEnoughIff | crates/alamo-coins/src/template.rs:91-95 | the prefix, which is all of an aux coinbase's script, has the two bytes consensus wants if and only if there is a tag or the height is above 16 |
| TagBudget.BudgetIs | crates/alamo/src/settings.rs:179-189 | the longest tag is 86 bytes solo and 41 beside a commitment |
| TagBudget.MergeBudgetSuffices | crates/alamo/src/settings.rs:179-189 | with any accepted tag both coinbases can be built at every height below 2^31 when merge mining |
| TagBudget.SoloBudgetIff | crates/alamo/src/settings.rs:179-189 | solo, building fails if and only if the height is at least 2^23 and the tag has the full 86 bytes |
| TagBudget.PrefixHoldsMagicIff | crates/alamo-coins/src/template.rs:91-95 | no accepted tag puts the magic in the prefix; of all heights below 2^31 only 0x6d6dbefa does |
| Vardiff.Estimator.OnShare | crates/alamo-stratum/src/vardiff.rs:54-61 | pushes the share, drops the oldest beyond 512 and those outside the window |
| Vardiff.Estimator.Evaluate | crates/alamo-stratum/src/vardiff.rs:72-108 | computes the rate-limited proposal and records the change time |
| Vardiff.TrimmedIsWindow | crates/alamo-stratum/src/vardiff.rs:63-71 | popping from the front keeps exactly the shares inside the window |
| Vardiff.DequeIsRecentHistory | crates/alamo-stratum/src/vardiff.rs:54-71 | over any run the deque is exactly the last at most 512 accepted shares inside the window as of the run's last trim: its last share or evaluation that was not rate-limited |
| Vardiff.DequeHolds | crates/alamo-stratum/src/vardiff.rs:55-71 | that is: of the last 512 accepted shares those no older than four retarget intervals at the last trim |
| Vardiff.StepIsBounded | crates/alamo-stratum/src/vardiff.rs:75-108 | a change stays in [min, max] and between the current difficulty and the clamped optimum, and only goes down on an empty window |
| Vardiff.SteppedIsClamp | crates/alamo-stratum/src/vardiff.rs:96-107 | scaling by the clamped ratio is clamping the optimum to a factor of two around the current difficulty |
| Vardiff.RetargetsApart | crates/alamo-stratum/src/vardiff.rs:75-108 | over any run two changes are at least `retarget_seconds` apart |
| Vardiff.Converges | crates/alamo-stratum/src/vardiff.rs:84-108 | decisions taken one after another with a fixed optimum in range and eight shares kept work off a ratio of at most 2^k either way in at most k changes |
| Vardiff.SettledStays | crates/alamo-stratum/src/vardiff.rs:84-108 | and once a decision changes nothing no later one does |
| Vardiff.RunConverges | crates/alamo-stratum/src/vardiff.rs:54-108 | over every run of shares and evaluations in which each evaluation not rate-limited finds at least eight shares and the same optimum, a ratio of at most 2^k is worked off in at most k changes of difficulty |
| Vardiff.RunStays | crates/alamo-stratum/src/vardiff.rs:54-108 | and once such an evaluation leaves the difficulty alone, it never changes again |
| Retargeting.OptimumIs | crates/alamo-stratum/src/vardiff.rs:80-88 | the optimum times the seconds covered (since the start, at most four intervals, at least one second) is the work of the window times the target interval |
| Retargeting.EqualShares | crates/alamo-stratum/src/vardiff.rs:87 | the work of shares of one difficulty is their number times that difficulty |
| Retargeting.DecisionIs | crates/alamo-stratum/src/vardiff.rs:75-108 | what every evaluation decides: nothing within the interval, a quarter without shares, and else a move if and only if the optimum is off by more than the variance, up only on eight shares, to the optimum held within half and double |
| Retargeting.MustMove | crates/alamo-stratum/src/vardiff.rs:90-107 | with eight shares or more and an optimum in range that is off, the difficulty goes to the optimum, as far as a factor of two |
| Retargeting.FewNeverRaise | crates/alamo-stratum/src/vardiff.rs:97-100 | on fewer than eight shares it never goes up |
| Retargeting.TooManyShares | crates/alamo-stratum/src/vardiff.rs:75-108 | a worker that sends twice the shares it should over a full window has its difficulty doubled |
| Retargeting.RunReaches | crates/alamo-stratum/src/vardiff.rs:54-108 | over every steady run with a ratio of at most 2^k, k evaluations past their interval bring the difficulty within the variance of the optimum, where it is when the run ends |
| Connection.Conn.Authorize | crates/alamo-stratum/src/session.rs:144-203 | the method updates workers, payout and difficulty and sends the first job exactly as the state machine says |
| Connection.Conn.Submit | crates/alamo-stratum/src/session.rs:205-287 | the method finds the job, judges the share, reports it and retargets as the state machine says |
| Connection.Conn.SendJob | crates/alamo-stratum/src/session.rs:347-394 | builds the job with the current difficulty, notifies and keeps the newest eight |
| Connection.Conn.NewWork | crates/alamo-stratum/src/session.rs:321-340 | ages every held job in place, then sends the work |
| Connection.Conn.TimerTick | crates/alamo-stratum/src/session.rs:290-306 | retargets only an authorized session |
| Connection.Conn.SuggestDifficulty | crates/alamo-stratum/src/session.rs:111-119 | clamps a positive suggestion and reports a real change |
| Session.StepKeepsSane | crates/alamo-stratum/src/session.rs:98-394 | difficulty stays within [min, max] whatever the request |
| SessionSteps.StepSteps | crates/alamo-stratum/src/session.rs:98-394 | every step: kept jobs only age or gain a share, a new job is fresh under the next id, ids stay consecutive, scripts stay fixed, and blocks come from an accepted share |
| SessionSteps.OnlySubmitsReport | crates/alamo-stratum/src/session.rs:205-287 | only a submit reports a share |
| SessionRuns.JobIdsIncrease | crates/alamo-stratum/src/session.rs:372-382 | over any run every job sent has a higher id than all before |
| SessionRuns.HeldIffRecent | crates/alamo-stratum/src/session.rs:390-393 | over any run a job is held if and only if fewer than eight others were sent after it |
| SessionRuns.JobLives | crates/alamo-stratum/src/session.rs:320-394 | every held job was sent at a step of the run; it is stale if and only if clean work came since, and each aux job if and only if work without its (coin, previous hash) came since |
| SessionRuns.SeenStays | crates/alamo-stratum/src/validate.rs:53-56 | a share once entered under a job stays entered while the job is held, and nothing else of the job but its stale flags changes |
| SessionSeen.SeenIsEntered | crates/alamo-stratum/src/validate.rs:36-56 | over any run a held job's seen shares are exactly the keys of the submits that reached it and passed the checks before that set is looked at |
| SessionSeen.EnteredIsAnswered | crates/alamo-stratum/src/validate.rs:53-79 | such a submit is a duplicate if and only if its share was entered before, else accepted if it meets the target and of low difficulty if not |
| SessionSeen.ResubmittedIsDuplicate | crates/alamo-stratum/src/validate.rs:53-56 | a share submitted again, whatever it was answered first, is a duplicate |
| SessionSeen.AcceptedIsMet | crates/alamo-stratum/src/validate.rs:53-79 | a held job's accepted shares are exactly those of its seen shares that meet its target |
| SessionRuns.NoDoubleAccept | crates/alamo-stratum/src/session.rs:228-287 | over any run no (job id, extranonce2, ntime, nonce) is accepted twice |
| SameHeader.RootDetermines | crates/alamo-core/src/merkle.rs:36-42 | a folded root determines coinbase bytes and branch, unless one of the strings hashed on the way to it (the coinbase bytes or a pair on the branch) clashes with one hashed on the other way |
| SameHeader.SameHeaderIff | crates/alamo-stratum/src/validate.rs:58-71 | two shares on sent jobs have the same header if and only if extranonce2, ntime and nonce agree and the jobs agree in version, previous hash, bits, coinbase halves and branch; the only-if half unless a string hashed for the one share's Merkle root (its coinbase or a pair on its branch) clashes with one hashed for the other's |
| SameHeader.SameHeaderTwiceIff | crates/alamo-stratum/src/session.rs:228-287 | over any run two accepted shares have the same header exactly so, with the clash named by their two coinbases and branches; the job ids then differ |
| TwoJobRuns.ShareAccepted | crates/alamo-stratum/src/session.rs:205-287 | in a run with two works and a share for the job of each, the share hashes the header built from that work, and is accepted if and only if the header's hash meets the target |
| TwoJobRuns.AcceptedUnderTwoIds | crates/alamo-stratum/src/session.rs:320-394 | whatever the hash function, when a template comes again under another id the two jobs are made of the same work, one share submitted for both hashes the very same header, and is accepted under both ids if it meets the target |
| TwoJobRuns.SomeHashIsLow | crates/alamo-stratum/src/validate.rs:74-79 | and there are hash functions under which a share meets the target, whatever the difficulty |
| SessionSafety.PayoutFixed | crates/alamo-stratum/src/session.rs:144-203 | a session's payout scripts are those of its first successful authorize: the parent's what its username gives, every aux chain's what its password gives by that chain's table |
| SessionSafety.FirstAuthorizeOnce | crates/alamo-stratum/src/session.rs:178-202 | there is only one first authorize |
| SessionSafety.CleanWorkEndsJobs | crates/alamo-stratum/src/session.rs:321-327 | after clean work no earlier job yields an accepted share |
| SessionSafety.StaleIffCleanWork | crates/alamo-stratum/src/validate.rs:36-38 | a share for a held job is answered stale if and only if clean work came since the job was sent |
| SessionSafety.JobMade | crates/alamo-stratum/src/session.rs:347-381 | every held job was made from received work and the payouts in force, at the session's difficulty then, inside [min, max] |
| SessionSafety.AcceptedJob | crates/alamo-stratum/src/session.rs:240-287 | every accepted share was for a job sent before, with no clean work since, and met its target |
| SessionSafety.BlocksPayFirstAuthorize | crates/alamo-stratum/src/session.rs:144-287 | every block candidate of a run is good for its chain; a parent block pays what the username of the first successful authorize gives, an aux block what its password gives by the first table for the coin; its header's own tip (for an aux block) was current in all work since the step that sent its job |
| SessionSafety.ShareEventsBounded | crates/alamo-stratum/src/session.rs:255-277 | every reported share carries the difficulty of the held job it was submitted for, within [min, max], and is reported accepted exactly if it was |
| SessionReports.AuthorizeAnswer | crates/alamo-stratum/src/session.rs:144-203 | the first authorize needs a username only, a later one must give the same scripts; it is then registered, its payouts from username and password are in force, and it is announced with their addresses; any other changes nothing |
| SessionReports.WorkersAre | crates/alamo-stratum/src/session.rs:178-181 | over any run a worker is registered if and only if an authorize of that name was granted |
| SessionReports.PayoutIsLatest | crates/alamo-stratum/src/session.rs:178-198 | over any run the payouts in force, addresses included, are what the last granted authorize's username and password give |
| SessionReports.SubmitReports | crates/alamo-stratum/src/session.rs:249-287 | a submit by a registered worker for a held job is reported once, with the reason it was rejected for or the difficulty its hash achieved; any other is not reported |
| SessionReports.SendJobAnswer | crates/alamo-stratum/src/session.rs:347-394 | with work and payouts a job is sent, unless two paid aux chains carry one id, which panics, or some coinbase cannot be built, which ends the session |
| SessionReports.JobsAreSent | crates/alamo-stratum/src/session.rs:320-394 | a miner gets a job exactly on new work once it has authorized and at its first authorize if there is work; clean if the work is or if it holds none |
| SessionReports.SuggestSets | crates/alamo-stratum/src/session.rs:111-119 | a suggestion in the range becomes the difficulty, one above or below it the end of the range, one that is not positive or changes nothing is ignored; the miner is told of every change |
| SessionReports.DifficultyIsTold | crates/alamo-stratum/src/session.rs:308-318 | over any run an authorized miner has been told a difficulty, and the last one told is the session's |
| SessionReports.JobAtTold | crates/alamo-stratum/src/session.rs:347-394 | every job is set at the difficulty the miner had last been told when it was sent |
| SessionVardiff.EstimatorFollows | crates/alamo-stratum/src/session.rs:255-306 | over any run the estimator is in the state that the session's recorded shares and evaluations lead to |
| SessionVardiff.EstimatorHoldsAccepted | crates/alamo-stratum/src/session.rs:280-286 | over any run in time order the estimator holds exactly the last at most 512 accepted shares, each at its job's difficulty, that were in the window at its last trim: at the last accepted share, judged share or tick that was not within `retarget_seconds` of the start or a change |
| SessionVardiff.TrimmedByNow | crates/alamo-stratum/src/vardiff.rs:60-70 | over any run in time order that last trim was at the session's start or at the time of an earlier input |
| SessionVardiff.SessionRetargetsApart | crates/alamo-stratum/src/session.rs:290-306 | over any run two retargets are at least `retarget_seconds` apart, whatever the miner suggests in between |
| SessionDifficulty.DifficultyGoes | crates/alamo-stratum/src/session.rs:280-306 | over any stretch of a run without suggestions the session's difficulty is where the decisions on its recorded shares and evaluations take it |
| SessionDifficulty.SessionReaches | crates/alamo-stratum/src/session.rs:280-306 | so with a steady optimum at most k doublings away, k decisions bring the session's difficulty near it for good |
| TemplateStream.Source.PollOnce | crates/alamo-coins/src/template.rs:193-263 | one turn of the loop: publish, note success, or count a failure and perhaps withdraw |
| TemplateStream.Source.FetchWork | crates/alamo-coins/src/template.rs:337-357 | fetches if the tip moved, the tag changed or the refresh interval is over |
| TemplateStream.Convert | crates/alamo-coins/src/template.rs:66-121 | stamps id, prefix, branch and clean flag on the decoded template |
| TemplateStream.PublishedIsConverted | crates/alamo-coins/src/template.rs:91-121 | everything published has the branch of its own transactions and the prefix of its height and tag |
| TemplateStream.IdsIncrease | crates/alamo-coins/src/template.rs:194-240 | over any poll outcomes published ids strictly increase |
| TemplateStream.IdsCount | crates/alamo-coins/src/template.rs:194-240 | published templates are numbered from 1 in order |
| TemplateStream.CleanIffTipMoved | crates/alamo-coins/src/template.rs:344-356 | a template is clean if and only if its tip is not that of the previously published one |
| TemplateStream.AnsweringNodeIsCurrent | crates/alamo-coins/src/template.rs:193-263 | after every successful poll the published template is for the tip and tag just seen and younger than the refresh interval; the first such poll after a withdrawal republishes |
| TemplateStream.PublishesIff | crates/alamo-coins/src/template.rs:337-357 | a poll publishes if and only if node and template answer and nothing is published, or the last publication is for another tip or tag or as old as the refresh interval; it is quiet if and only if that is not so |
| TemplateStream.AwayNodeIsWithdrawn | crates/alamo-coins/src/template.rs:241-263 | after a failed poll the last template stays published if and only if the node was away for less than `stale_after` |
| TemplateStream.EmptyIff | crates/alamo-coins/src/template.rs:193-263 | the channel is empty if and only if nothing was ever published or the template is withdrawn |
| TemplateStream.HealthIs | crates/alamo-coins/src/template.rs:193-263 | the health reported is connected if and only if the last poll did not fail, with the number of failures since one that did not |
| MergedStream.Merger.RunRound | crates/alamo-coins/src/merged.rs:23-45 | publishes the parent with the present aux templates, or waits |
| MergedStream.MergedCleanIff | crates/alamo-coins/src/merged.rs:33-41 | merged work is clean if and only if its parent publication was not the one read before and its tip differs from that of the publication right before it |
| MergedStream.FlagRightIff | crates/alamo-coins/src/merged.rs:33-41 | the flag tells rightly whether the tip moved since the last work if and only if the publication right before and the one last read compare alike with the tip |
| MergedStream.CleanIffTipMovedSinceRead | crates/alamo-coins/src/merged.rs:33-41 | if no publication was skipped, merged work is clean if and only if the tip moved since the last work |
| MergedStream.SkippedFlush | crates/alamo-coins/src/merged.rs:25-41 | otherwise a flush can be lost: a clean template skipped, then one for a new tag |
| OldTip.OldTipAccepted | crates/alamo-stratum/src/session.rs:320-341 | a session fed these works is on the new tip, and a share for its job on the old tip is accepted if it meets the target |
| MergedStream.MergedIsSound | crates/alamo-coins/src/merged.rs:33-45 | merging templates that carry their branches gives work whose templates all do |
| Ledger.Store.PersistBatch | crates/alamo-store/src/accounting.rs:152-236 | a batch is all authorizations, then all shares, or nothing |
| Ledger.Store.UpsertShare | crates/alamo-store/src/accounting.rs:186-231 | inserts a missing row, then updates counts, best share, its time and work |
| Ledger.Store.RemoveWorker | crates/alamo-store/src/accounting.rs:253-276 | banks the work and drops the row, or changes nothing |
| Ledger.Store.InsertBlock | crates/alamo-store/src/blocks.rs:97-122 | appends the block with the total work, or only updates the status of one recorded before |
| Ledger.Store.SumWork | crates/alamo-store/src/accounting.rs:299-307 | the sum over rows, in any order, plus the retired work |
| Ledger.WorkConserved | crates/alamo-store/src/accounting.rs:152-276 | a batch adds exactly its accepted shares' work to the total; zeroing and removal add nothing |
| Ledger.SeenTimes | crates/alamo-store/src/accounting.rs:152-231 | a batch makes rows for exactly the workers it names; a new row was first seen at its first write, authorizations before shares, and any row was last seen at its latest |
| Ledger.BlockRecorded | crates/alamo-store/src/blocks.rs:97-122 | a block that has a row keeps it under the new status, any other gets one with the total work at that moment; all other rows stay |
| LiveStats.Stats.Restore | crates/alamo/src/stats.rs:72-141 | builds every worker from its row in network units and totals the counts |
| LiveStats.Stats.Apply | crates/alamo/src/stats.rs:159-228 | one event updates the live figures as specified |
| LiveStats.Stats.RemoveWorker | crates/alamo/src/stats.rs:246-256 | forgets a known, disconnected worker and retires its work; else nothing |
| LiveStats.Stats.BestShare | crates/alamo/src/stats.rs:289-309 | the worker whose share beats every other: higher, then earlier with unknown times last, then by name |
| LiveStats.BeatsTotal | crates/alamo/src/stats.rs:293-303 | of two workers exactly one beats the other, so the best does not depend on map order |
| LiveStats.BeatsSpelledOut | crates/alamo/src/stats.rs:293-303 | a share beats another by being higher, then by a known earlier time, then by the worker's name |
| LiveStats.StaysTallied | crates/alamo/src/stats.rs:159-256 | every operation keeps the pool counters equal to the sums over workers, so the subtraction on removal never underflows |
| LiveStats.TotalMoves | crates/alamo/src/stats.rs:159-279 | total work grows by an accepted share's work and by nothing else |
| LiveStats.BestIsFirstHighest | crates/alamo/src/stats.rs:194-217 | after any shares the best is the highest accepted one, its time that of the first such share, and the counts count them all |
| LiveSessions.SessionsAre | crates/alamo/src/stats.rs:159-187 | over every run a worker's live sessions are those that authorized its name and have not disconnected it since the last start |
| LiveSessions.ConnectedIff | crates/alamo/src/stats.rs:258-263 | so a worker counts as connected if and only if some session of it is left |
| LiveSessions.RemoveRefusedIff | crates/alamo/src/pool.rs:596-612 | removing a worker with a live session changes nothing; any other goes from the live figures and the table if that can be written |
| LiveSessions.OneOfTwoLeaves | crates/alamo/src/stats.rs:182-187 | a worker with two sessions of which one leaves is not removed; once both have left it is |
| Publisher.Persistence.Observe | crates/alamo/src/persist.rs:40-78 | queues authorizations and shares, nothing else |
| Publisher.Persistence.Flush | crates/alamo/src/persist.rs:86-101 | writes the queue and empties it, or keeps both |
| Publisher.Books.HandleEvent | crates/alamo/src/pool.rs:563-572 | observes, applies, and flushes at 256 queued shares |
| Publisher.Books.HandleReset | crates/alamo/src/pool.rs:574-587 | flushes, zeroes the tables, and the live figures only if that succeeded |
| Publisher.Books.HandleRemove | crates/alamo/src/pool.rs:599-612 | skips a connected worker; else flushes and removes from the tables, then live |
| Publisher.Books.HandleTick | crates/alamo/src/pool.rs:622-625 | a tick flushes the queue, whatever its length |
| Publisher.EventQueues | crates/alamo/src/pool.rs:563-572 | shares and authorizations wait in order until 256 shares are queued; then all are written, or kept if that fails |
| Publisher.SettleSets | crates/alamo-store/src/blocks.rs:163-177 | settling a block sets its status only |
| Publisher.Books.constructor | crates/alamo/src/pool.rs:539-555 | a start restores from the tables, or starts empty if they cannot be read |
| Accounting.CountedIsCredited | crates/alamo/src/stats.rs:194-217 | counting a share on a row in stratum units and crediting it live in network units commute with restoring |
| Accounting.AuthBeforeShare | crates/alamo-store/src/accounting.rs:148-151 | writing queued authorizations before earlier shares changes no figure |
| Accounting.StepRefinesIff | crates/alamo/src/pool.rs:562-637 | a step keeps live figures = restore of (rows + queue) if and only if it is safe: a command finds its flush done or the queue free of what it concerns, a restart reads the tables |
| Accounting.ResetRefinesIff | crates/alamo/src/pool.rs:575-583 | zeroing both sides keeps them equal if and only if no share is queued |
| Accounting.RemoveRefinesIff | crates/alamo/src/pool.rs:606-612 | removing on both sides keeps them equal if and only if the queue does not name the worker |
| Accounting.LiveRefinesTables | crates/alamo/src/pool.rs:562-637 | over every run of safe steps the live figures equal the restore of the tables once the queue is written |
| Accounting.LiveRefinesIfCommandsFlush | crates/alamo/src/pool.rs:575-612 | so they do whenever the flush before each command succeeds, whatever else fails |
| Accounting.FailedFlushThenReset | crates/alamo/src/pool.rs:574-587 | a worker authorizes, submits one share and leaves; a reset whose flush fails then parts the live figures from the tables |
| Accounting.FailedFlushThenRemove | crates/alamo/src/pool.rs:599-612 | so does the removal of that worker |
| Rounds.StepMoves | crates/alamo/src/pool.rs:562-637 | how every step moves work between queue, tables and live total |
| Rounds.WorkIsConserved | crates/alamo/src/stats.rs:275-279 | over every run, whatever fails, the live total is exactly the tables' total plus the queued work less what the last start could not read, in network units |
| Rounds.LiveTotalMoves | crates/alamo/src/pool.rs:562-637 | no step lowers the tables' total and none but a restart the live total; a restart brings back what was missed and loses what it could not flush, or starts from zero |
| Rounds.BooksAreHistory | crates/alamo/src/pool.rs:562-637 | over every run tables and queue hold exactly the work of all shares accepted, less what was queued at restarts that could not flush |
| Rounds.LastBankedIsBlock | crates/alamo-store/src/blocks.rs:146-160 | the block a round starts from is the coin's latest that was not rejected, of several found at one time the last row |
| Rounds.BlocksOnce | crates/alamo-store/src/blocks.rs:97-122 | over every run no block has two rows |
| Rounds.RoundNeverNegative | crates/alamo/src/pool.rs:724-738 | over every run no block banks more than the tables hold, and the clamp at zero acts if and only if the banked work exceeds tables plus queue less what the last start missed; never while it read the tables |
| Rounds.NothingMissed | crates/alamo/src/pool.rs:535-550 | a run whose starts all read the tables misses nothing |
| Rounds.FailedLoadIndebts | crates/alamo/src/pool.rs:546-555 | the clamp does act after a start that could not read the tables |
| Rounds.RoundOpensWithQueue | crates/alamo-store/src/blocks.rs:97-122 | a round opens with the work still queued when its block was recorded, less what the last start missed |
| Rounds.RoundIsWorkSince | crates/alamo/src/pool.rs:724-738 | over every run a round is the work queued at its opening block plus all work accepted since, less what restarts lost since and the last start missed |
| Retention.SampleTable.DownsampleRange | crates/alamo-store/src/retention.rs:112-144 | upserting the grouped averages and deleting unaligned rows is the fold of the range |
| Retention.SampleTable.Retain | crates/alamo-store/src/retention.rs:53-86 | a pass is the hourly fold, the five-minute fold, then expiry |
| Retention.FoldIsPointwise | crates/alamo-store/src/retention.rs:112-144 | what a fold leaves at each time and worker: the bucket's mean at its start if it had rows, nothing elsewhere in the range, everything outside |
| Retention.PassIsPointwise | crates/alamo-store/src/retention.rs:47-86 | what a whole pass leaves at each time, the straddling buckets untouched |
| RetentionRuns.PassIdempotent | crates/alamo-store/src/retention.rs:53-86 | a repeated pass at the same time changes nothing |
| RetentionRuns.NothingLate | crates/alamo-store/src/retention.rs:49-52 | over a run no sample arrives in a bucket after it left the raw tier: buckets are complete when folded |
| RetentionRuns.MidKept | crates/alamo-store/src/retention.rs:47-86 | a five-minute bucket gets the mean of what its first fold found and keeps it, alone, until its hour is folded |
| RetentionRuns.HourKept | crates/alamo-store/src/retention.rs:47-86 | an hour gets its mean at its first fold, keeps it, alone, until it expires, and is never split again |
| RetentionRuns.RawKeptOldGone | crates/alamo-store/src/retention.rs:61-83 | a pass leaves raw samples alone and leaves nothing older than the long tier |
| HourlyMeans.HourIsMeanOfMeans | crates/alamo-store/src/retention.rs:112-144 | over a run, an hour whose five-minute buckets were folded before it gets exactly the mean of their means |
| HourlyMeans.HourIsRawMean | crates/alamo-store/src/retention.rs:112-144 | over a run, with equally many raw samples in each five-minute bucket that has any, the hourly row is the mean of all raw samples |
| HourlyMeans.HourlyRowExactIff | crates/alamo-store/src/retention.rs:53-86 | for given sample times, two passes make the hourly row the raw mean for every choice of values if and only if all five-minute buckets that have samples have equally many |
| HourlyMeans.UnequalCountsShiftTheMean | crates/alamo-store/src/retention.rs:24-34 | with the default policy, five samples of 0 and one of 6 in the next bucket have mean 1 and hourly row 3 |
| NaturalOrder.NaturalCmp | crates/alamo/src/stats.rs:369-401 | the loop terminates and decides token order, then byte order |
| NaturalOrder.RunsCompareByValue | crates/alamo/src/stats.rs:377-390 | stripped length, then bytes, is the order of the integers two digit runs spell |
| NaturalOrder.NaturalFlips | crates/alamo/src/stats.rs:367-401 | the order is antisymmetric, and equal only for identical names |
| NaturalOrder.NaturalTransitive | crates/alamo/src/stats.rs:367-401 | and transitive |
| NaturalOrder.NumberedNames | crates/alamo/src/stats.rs:367-368 | names that have different numbers after the same front sort by those numbers, whatever follows |
| NaturalOrder.FirstByteDecides | crates/alamo/src/stats.rs:392-398 | names that differ in a byte after the same front sort by that byte, if not both go on with a number |
| NaturalOrder.PlainNames | crates/alamo/src/stats.rs:392-398 | a name without digits comes before another if and only if it is a proper prefix or has the smaller byte where they first differ |
| NaturalOrder.SameNumbers | crates/alamo/src/stats.rs:367-372 | and so for names that spell the same numbers in the same places |
| Pipeline.EveryBlockGood | crates/alamo-stratum/src/validate.rs:81-132 | end to end: every block candidate of every session run is good for its chain in the sense of `GoodParent` or `GoodAux`, its coinbase states its height as BIP34 demands, and the output read from it pays what the username (parent) or password (aux) of the first successful authorize gives; it was made from the merger's work in force at the step that sent the share's own job, and its tip was current in all work since that step |
| Pipeline.MagicIsFirstIff | crates/alamo-core/src/auxpow.rs:462-466 | the committed magic is the first in every aux proof's coinbase if and only if the parent height is not 0x6d6dbefa (below 2^31) |
| Pipeline.SessionSharesWeigh | crates/alamo-stratum/src/session.rs:270-277 | sessions never report a share of negative weight, as the accounting relies on |

## Left out

- Hash functions: SHA-256 and scrypt are uninterpreted; no claim needs more of them than their output length.
- Address, username and password parsing: payout resolution is an arbitrary function from strings to scripts, with the coins fixed by the configuration.
- Floating point: `f64` is `real`; a hash of value zero, whose difficulty the code makes infinite, counts as value one.
- Hex and display forms of hashes: values are bytes; a block hash is kept reversed, as it is displayed.
- Wire parsing: stratum JSON, JSON-RPC, ZMQ and HTTP; requests arrive decoded, and those that change no state (subscribe, configure, ping, malformed ones) are not inputs.
- Integer widths: counters such as job ids, template ids and failure counts are unbounded; byte-level widths (u32, i32, u64, 256-bit targets, the wrapping LCG) are exact.
- Job objects: a session's jobs are values in a sequence, as each is owned by its session and never shared; templates behind shared pointers are values too, since they are never changed.
- Algorithms of aux chains: the pow an aux block is judged by is the parent's, as in the code; nothing checks that the aux chain uses the same algorithm.
- Aux witness: an aux template with a witness commitment gets a plain coinbase, as in the code; the model shows the block's contents and does not judge them by BIP141.
- Template and job fields for display: creation times, stratum notify parameters and logging.
- Waiting: when the template source polls next, the ZMQ subscription and its health report, and retries; any sequence of polls is covered.
- Channels: a receiver may skip values, so staleness claims are about the work a session actually received.
- Live figures outside the refinement: hashrate windows, last share times, `scoring_since` and per-session difficulty are rebuilt differently on restart by design.
- Share log: the table of single shares, its trimming, and the hashrate windows restored from it.
- Sampling: when hashrate is sampled and when retention runs are not modelled; passes at any non-decreasing times are.
- Refresh of rounds: a round is computed from the block rows as they are, while the program rereads its copy of them only every few ticks.
- Consensus: what is shown of a block is what `GoodParent` and `GoodAux` say; its transactions' validity and the chain's other rules are the node's.
- Retention report: the counts of deleted rows are not modelled.
- SQL: tables are maps by primary key, a transaction commits or not, timestamps are not negative.
- Odds, luck and expected blocks, web snapshots, settings documents, node configuration and the dashboard: plumbing or easy members.
