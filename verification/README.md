# Raiden payment channels, verified

This project models the off-chain payment channel of Raiden and what stands around it: the merkle tree of
pending locks, the write-ahead log that a node restarts from, the binary message format, and the token
bucket that throttles requests. Every statement below holds for all inputs and, where it speaks of runs,
for runs of any length.

The core is the state machine of `raiden/transfer/channel.py`. It appears twice: as functions on values
(`ChannelState.dfy`), which the theorems are about, and as the two classes whose fields the program updates
in place (`ChannelObjects.dfy`), whose methods are proved to compute those functions.

| file | content |
|---|---|
| `Hashes.dfy`, `MerkleTree.dfy` | free hashes, the layered tree, and why a root determines its leaves |
| `BigEndian.dfy`, `Locks.dfy` | integers and locks as bytes, sums and hashes of a dictionary of locks |
| `ChannelState.dfy` | the channel: sending, validating, receiving, secrets, deposits, closing, settling |
| `EndStateInvariant.dfy`, `ChannelInvariant.dfy` | the invariant of one end and of a channel, and what each operation does to it |
| `Soundness.dfy` | what survives every use and misuse of one end |
| `ChannelRuns.dfy` | every run of one node, with no duty kept by anyone: solvency, nonces, status, events |
| `RunInvariants.dfy` | runs in which our callers, or the partner, keep their duty: consistent ends, on-chain locks |
| `ChainOutcomes.dfy` | what each change of chain and user does, event by event |
| `Deposits.dfy` | deposits over every run; applying any action twice |
| `Acceptance.dfy`, `TwoNodes.dfy` | exactly which messages are accepted; two honest nodes over two queues |
| `Counterexamples.dfy` | inputs for which the code falls short, with the exact conditions named below |
| `ChannelObjects.dfy` | the channel as objects updated in place |
| `BatchUnlock.dfy` | unlocking the remaining locks on-chain |
| `WriteAheadLog.dfy`, `ChannelLog.dfy` | log, snapshots and restore, for any transition and for a channel |
| `NamedBuffer.dfy`, `Messages.dfy` | fields in a byte buffer, the eleven messages and their round trips |
| `MessageLayouts.dfy` | offsets, widths and sizes in plain numbers; what can be encoded and what decodes |
| `TokenBucket.dfy` | the throttle |

## Main results

* `TwoNodes.HonestPair`: two honest nodes, from the opening of their channel on. In every interleaving of
  transfers, refunds, unlocks, expiries, reveals, deposits and blocks every transfer, refund and unlock is
  accepted, and an expiry is refused exactly while its receiver has a lock of the same secret hash known
  on-chain, which takes a secret hash used in both directions. Wherever a run stops with nothing refused in
  this way, delivering what is in flight makes each node see the other exactly as it is.
* `Acceptance.Accepts...Iff`: a message is accepted if and only if its signed balance proof states the one
  ledger (nonce, transferred amount, pending locks) that follows from the last one. The merkle root in the
  proof stands for the whole set of locks.
* `RunInvariants.EveryReachableChannelIsConsistent`: in every run from the opening of a channel, with no
  condition on the node or on what the partner sends, each end can cover its locks and the two balances share
  the two deposits; and the proof we hold of the partner is signed by the partner, for this channel, with
  amounts that fit 256 bits and cover all its locks, each of which is a leaf of the tree it states. The
  dictionaries, tree, proof and amounts of our end agree if our callers keep their documented duty, whatever
  the partner sends; those of the partner's end agree if the partner reuses no pending secret hash.
* `WriteAheadLog.RestartIsExactIff`: restarting gives the same state as replaying the whole log, whatever
  snapshots there are, if and only if the transition is idempotent on the states it reaches. For a
  log of everything that changes a channel, messages and reveals included, restarting gives the channel back
  with every proof, tree and lock (`ChannelLog.RestartKeepsChannel`), up to deposits queued more than once,
  which no later balance shows. A log that ran through is replayed without an exception exactly if the change
  it starts with again is not a transfer or an unlock sent (`ChannelLog.RestartRunsThroughIff`).
* `ChainOutcomes`: for every change of chain and user, exactly when it causes its event and what it records;
  `WholeLife` takes one channel from open through every status to cleared.
* `MerkleTree.SameRootIffSameLeaves` and `LayersPairNeighbours`: roots stand for sets of leaves, and each digest
  is that of its two children, smaller first.
* `Messages.RoundTripIff`, `MessageLayouts.EncodeSucceedsIff` and `DecodeSucceedsIff`: what can be encoded, what
  decodes, and what comes back.
* `TokenBucket.TakenFitsWhatFlowedIn` and `WaitIsExact`.

## Where the code falls short of the property

Each has an exact condition, a guard the caller can evaluate before the call.

* A second lock under a secret hash that is still pending is accepted, because only the lock hash is looked
  up while the dictionaries are keyed by secret hash. The invariant survives if and only if the secret hash
  is not pending (`SendLockedTransferKeepsInvIff`, `ReceiveLockedTransferKeepsInvIff`;
  `ReusedSecretHashIsAccepted` produces the message). If the pending lock was still locked, unlocking the
  channel on-chain then fails to find the lock of a leaf (`ReusedSecretHashFailsBatchUnlock`, an if and only
  if). On our own end, letting the lost lock expire subtracts it a second time, and the locked amount of our
  own proof can become negative (`OverwrittenLockIsSubtractedTwice`); the guard against both is the same.
* `events_for_expired_lock` removes a lock whose secret is known on-chain from the tree and not from its
  dictionary (`OnchainLockCanBeExpired`). It keeps the invariant if and only if the secret is not known
  on-chain (`ExpireLockKeepsInvIff`).
* A receiver looks for an on-chain reveal of an expiring lock among its own locks as well as among the
  partner's. A secret hash pending in both directions and revealed in time for ours only makes a correct
  LockExpired unacceptable at every block (`SharedSecretHashBlocksExpiry`, reachable by
  `SharedSecretHashIsReachable`) until this node sends the unlock of its own lock; from then on the same
  notice is accepted (`ExpiryIsAcceptedAfterOurUnlock`). `AcceptsLockExpiredIff` is the exact condition.
* With `delete_lock=False` a registered lock sits in two dictionaries (`KeepingTheLockKeepsInvIff`).
* Restoring replays the snapshot's own state change once more (`RestoredRepeatsOneChange`; a transition that
  is not idempotent shows it, `CounterIsRestoredWrong`).
* A byte field shorter than its width comes back padded, the invoice hash of a RefundTransfer is not packed,
  and a LockedTransfer without one comes back with zero bytes (`RoundTripIff`, `AbsentInvoiceReadsAsZeros`).

## How the model reads the source

* A hash is a free term: `Leaf(preimage)`, `Pair(a, b)` or the zero hash. Different terms are different
  hashes, and a leaf is never a pair. The order of hashes used for sorting is any strict total order in
  `MerkleTree.dfy` and a concrete one, `Below`, from there on.
* Recovering a signer is a field of the balance proof: it yields an address or fails. Addresses and secrets are
  plain values. An Unlock message carries the secret hash, which its secret determines.
* A Python exception or failed `assert` is a `Failure`, or the event `AssertionFailed` of a state change; the
  channel is then unchanged, as the caller works on a copy. Amounts and block numbers are unbounded, with the
  source's range checks written out.
* An entry of the log that raises changes nothing when it is replayed, where the source's replay would stop
  with the exception. `RunsThrough` of `ChannelLog.dfy` is the predicate for logs in which nothing raises.
* A message stays at the head of its queue until it is accepted; the source sends it again until it is
  processed. A refund travels between the two nodes like any other transfer.
* The heap of unconfirmed deposits is a list kept in the heap's order (block, then participant and balance);
  only its smallest element is ever looked at.
* The docstring of `is_lock_expired` and its message ask for a block above the threshold; the code accepts the
  threshold block itself, and the model follows the code.
* Among several snapshots not after the wanted state change, the query takes the row written last.
* What callers must ensure is the predicate `Careful` of `RunInvariants.dfy` (fresh secret hash for a new lock,
  `is_transfer_expired` before an expiry), what the partner must is `Fresh`, and what an honest pair must is
  `Enabled` of `TwoNodes.dfy`. Only the theorems that name these predicates depend on them.

## Model

| member | source | states |
|---|---|---|
| `TwoNodes.HonestPair` | raiden/transfer/channel.py:1217-1438 | from an opened channel, in every run of two honest nodes every transfer, refund and unlock is accepted on arrival and an expiry is refused exactly while the receiver has a lock of its secret hash known on-chain; with no secret hash used in both directions all are accepted; with nothing refused, delivering both queues is always possible, changes neither sender, and leaves each node with the other's nonce, amounts, tree and pending locks |
| `TwoNodes.EveryMessageIsAnswered` | raiden/transfer/channel.py:1586-1725 | in any run each delivered message is accepted unless it is an expiry blocked by the receiver's own on-chain lock of that secret hash, and the invariant of the pair holds at its end |
| `TwoNodes.EveryMessageIsAccepted` | raiden/transfer/channel.py:1586-1725 | in any run that uses each secret hash in one direction only, every delivered message is accepted |
| `TwoNodes.ClaimUnblocks` | raiden/transfer/channel.py:1317-1337 | a receiver unblocks an expiry by sending the unlock of its own lock |
| `TwoNodes.HeadIsAcceptedIff` | raiden/transfer/channel.py:436-767 | the oldest message in flight passes validation at the block its receiver is at iff it is not blocked in this way |
| `TwoNodes.MoveKeepsInv` | raiden/transfer/channel.py:1086-1438 | each move of one node, refunds included, keeps: the queue leads message by message from the receiver's view to the sender |
| `TwoNodes.DrainedViewsAgree` | raiden/transfer/channel.py:1622-1725 | with an empty queue the receiver's partner end equals the sender's own end in nonce, amounts, locksroot, leaves and pending locks |
| `TwoNodes.DeliveriesDrain` | raiden/transfer/channel.py:1586-1725 | accepted deliveries in either direction need nothing of the sender, send no channel message, touch only the receiver's partner end and empty the queue |
| `TwoNodes.DeliveriesAgree` | raiden/transfer/channel.py:1586-1725 | from any state of the pair in which nothing is blocked, delivering one queue and then the other leaves both empty and each view equal to the end it views |
| `TwoNodes.ExpiredWithoutReveal` | raiden/transfer/channel.py:131-147 | a sender that may expire its lock, ten blocks after expiration, has seen every reveal that could have been in time |
| `TwoNodes.ViewLagsBehind` | raiden/transfer/channel.py:866-882 | the receiver never believes more was transferred than the sender has, so what the sender can distribute the receiver can credit |
| `TwoNodes.OpeningKeepsInv` | raiden/transfer/state.py:1386-1408 | two fresh views of one channel, at blocks at most five apart, form a pair that meets the invariant |
| `Acceptance.AcceptsLockedTransferIff` | raiden/transfer/channel.py:542-642 | a transfer with a fresh secret hash is accepted iff the channel is open, the signed proof states the last ledger plus that lock, fewer than 160 locks are pending, the secret hash is usable and the lock is covered by the balance |
| `Acceptance.AcceptsUnlockIff` | raiden/transfer/channel.py:695-767 | an unlock is accepted iff the channel is open, the lock is pending and the signed proof states the ledger with the lock moved to the transferred amount |
| `Acceptance.AcceptsLockExpiredIff` | raiden/transfer/channel.py:436-539 | an expiry is accepted iff the channel is open, the lock is pending, the secret is known on-chain on neither end, five blocks have passed and the signed proof states the ledger without the lock |
| `Acceptance.AttestsIff` | raiden/transfer/channel.py:322-414 | passing the common checks with the tree's root and the ledger's amounts is the same as stating that ledger, signed by the partner for this channel with the next nonce |
| `Acceptance.TreeWidth` | raiden/transfer/channel.py:573-585 | the tree has exactly one leaf per pending lock, so the limit on leaves is a limit on locks |
| `Acceptance.SenderWaitsForReceivers` | raiden/transfer/channel.py:131-147 | a sender may expire a lock exactly from the block on at which every receiver at most five blocks behind accepts it, unless it knows of a reveal |
| `Acceptance.TransferRefusedForCause` | raiden/transfer/channel.py:542-642 | the reason given for refusing a transfer is true of it |
| `Acceptance.UnlockRefusedForCause` | raiden/transfer/channel.py:695-767 | the reason given for refusing an unlock is true of it |
| `Acceptance.ExpiryRefusedForCause` | raiden/transfer/channel.py:436-539 | the reason given for refusing an expiry is true of it |
| `Acceptance.AnsweredOnce` | raiden/transfer/channel.py:1586-1725 | each message gets one answer, and a refused one changes nothing |
| `RunInvariants.EveryReachableChannelIsConsistent` | raiden/transfer/channel.py:770-789 | in every run from opening, unconditionally: each balance covers the locked amount, transferred plus pending amounts fit 256 bits, balances sum to the deposits, each stored proof states the root of a well-formed tree, and the partner's is signed by it for this channel with amounts that fit 256 bits and cover its locks; our end is fully consistent if our callers are careful, the partner's if its secret hashes are fresh |
| `ChannelRuns.EveryRunIsSound` | raiden/transfer/channel.py:1217-2015 | soundness of both ends, and a partner's proof that is signed by it for this channel, in range, and backs all its locks by leaves and amount, survive every run of any actions and any messages |
| `ChannelRuns.EveryRunIsUsable` | raiden/transfer/channel.py:322-414 | in every run the stored proof of the partner is signed by it, for this channel, with amounts that fit 256 bits |
| `ChannelRuns.OverflowNeverFails` | raiden/transfer/channel.py:1101-1122 | after any run the overflow assertion of a transfer never fails |
| `Soundness.SoundWithLock` | raiden/transfer/channel.py:1640-1643 | registering a lock under any secret hash, pending or not, locks at most its amount more and keeps an end sound and backed |
| `Soundness.SoundWithoutLock` | raiden/transfer/channel.py:1010-1021 | claiming or dropping a lock frees at least its amount and keeps an end sound and backed |
| `Soundness.SoundWithOnchainSecret` | raiden/transfer/channel.py:1453-1483 | a reveal never raises the locked amount and keeps an end sound and backed, also when the secret hash is in several dictionaries |
| `Soundness.SentUnlockPays` | raiden/transfer/channel.py:922-940 | an unlock sent under a secret hash pays the locked lock before the unlocked before the on-chain one, and removes all of them |
| `Soundness.ReceivedUnlockPays` | raiden/transfer/channel.py:1702-1725 | the same of an accepted unlock |
| `RunInvariants.OurEndStaysConsistent` | raiden/transfer/channel.py:1217-1438 | our end keeps its invariant in every run in which our callers are careful, whatever the partner sends |
| `RunInvariants.PartnerEndStaysConsistent` | raiden/transfer/channel.py:1586-1725 | the partner's end keeps its invariant in every run in which its secret hashes are fresh, whatever our callers do |
| `RunInvariants.EveryRunKeepsInv` | raiden/transfer/channel.py:1217-2015 | the channel invariant holds after every run in which both sides keep their duty |
| `RunInvariants.StepEffect` | raiden/transfer/channel.py:1217-2015 | each action moves our ledger exactly as its entry says if our callers are careful, and the partner's if its secret hash is fresh, each independently of the other |
| `ChannelRuns.StepAdvances` | raiden/transfer/channel.py:1086-1725 | any action enters at most one proof, on one end, with the next nonce and no smaller transferred amount, and only while the channel is open |
| `ChannelRuns.NoncesCountProofs` | raiden/transfer/channel.py:953-958 | over every run whatsoever a nonce rises by exactly the number of proofs sent or accepted, and transferred amounts never fall |
| `ChannelRuns.StatusOnlyMovesForward` | raiden/transfer/channel.py:969-999 | over every run whatsoever the status moves forward through opened, closing, closed, settling, settled and is never unusable |
| `ChannelRuns.BlocksNeverFail` | raiden/transfer/channel.py:1748-1763 | after any run a closed channel knows its close block, so the assertions on it never fail |
| `ChannelRuns.FrozenOnceNotOpen` | raiden/transfer/channel.py:349-354 | once a channel is not open, both balance proofs and trees stay fixed in every run, and so do nonce, amounts and pending locks of an end with disjoint dictionaries |
| `ChannelRuns.StepEvents` | raiden/transfer/channel.py:1748-1818 | a settle event needs a closed channel past close block plus settle timeout and makes it settling; an update-transfer event needs a channel not yet closed and makes it closed |
| `ChainOutcomes.CloseUpdatesIff` | raiden/transfer/channel.py:1782-1862 | a close emits the update of our half iff it names this channel, which was open or closing, somebody else closed it, there is a proof, and no update is under way; the update carries that proof and the deadline close block plus settle timeout, and is recorded as started |
| `ChainOutcomes.CloseIsRecorded` | raiden/transfer/channel.py:1024-1032 | a close of this channel is recorded with its block, keeps when it was started, and makes it closed; any other close changes nothing |
| `ChainOutcomes.UserCloses` | raiden/transfer/channel.py:1340-1362 | closing hands in the partner's proof and makes an open or closing channel closing; a foreign identifier fails |
| `ChainOutcomes.UpdateIsRecorded` | raiden/transfer/channel.py:1865-1878 | an update of this channel is recorded as done at the current block |
| `ChainOutcomes.BlockSettlesIff` | raiden/transfer/channel.py:1756-1773 | a block emits the settle event iff the channel is closed and the block is beyond close block plus settle timeout; then it is settling |
| `ChainOutcomes.WrongBlockFails` | raiden/transfer/channel.py:1751 | a block under another number fails and changes nothing |
| `ChainOutcomes.SettlementIsRecorded` | raiden/transfer/channel.py:1881-1909 | a settled channel is cleared iff both locksroots are empty; otherwise each end records its own and the partner's locks are unlocked |
| `ChainOutcomes.UnlockClearsItsEnd` | raiden/transfer/channel.py:1941-1968 | an unlock empties the locksroot of the end it names; the channel is cleared iff then none is left |
| `ChainOutcomes.EarlyUnlockIsIgnored` | raiden/transfer/channel.py:1941-1968 | before settlement an unlock changes nothing |
| `ChainOutcomes.FeeIsSet` | raiden/transfer/channel.py:1540-1546 | the fee is set, or a foreign identifier fails |
| `ChainOutcomes.DepositCountsOrWaits` | raiden/transfer/channel.py:1912-1938 | a deposit counts at once for its participant from the sixth block after it on, never lowers a balance, and is queued before |
| `ChainOutcomes.StatusIsTheirProgress` | raiden/transfer/channel.py:969-999 | each status stands for the progress of the close and settle transactions, both ways |
| `ChainOutcomes.WholeLife` | raiden/transfer/channel.py:1971-2015 | an open channel that is closed, settled with locks on both ends and unlocked for both goes through every status, with its events, and is cleared by the second unlock |
| `ChannelRuns.AtMostOneSettleAndUpdate` | raiden/transfer/channel.py:1748-1862 | over every run at most one settle and at most one update-transfer event is emitted, and none once it is too late |
| `RunInvariants.LateRevealMovesNothing` | raiden/transfer/channel.py:1453-1483 | a reveal after a lock's expiration changes nothing |
| `RunInvariants.TimelyRevealMovesLock` | raiden/transfer/channel.py:1453-1483 | a reveal up to the expiration block puts the pending lock, with its secret, into the on-chain dictionary only, and leaves all other entries |
| `EndStateInvariant.LearningMovesLock` | raiden/transfer/channel.py:1441-1450 | a locked lock becomes an unlocked one that keeps exactly the given secret; nothing else of the end changes |
| `EndStateInvariant.RevealMovesLock` | raiden/transfer/channel.py:1453-1483 | an unclaimed lock revealed up to its expiration becomes an on-chain one that keeps exactly the given secret, an unlocked entry before a locked one; nothing else changes, and otherwise nothing at all |
| `ChannelInvariant.LearningReachesBothEnds` | raiden/transfer/channel.py:1486-1498 | a secret is learnt by both ends and changes nothing else |
| `ChannelInvariant.RevealReachesBothEnds` | raiden/transfer/channel.py:1501-1521 | a reveal is taken by both ends and changes nothing else |
| `RunInvariants.OnchainEntryStaysUntilClaimed` | raiden/transfer/channel.py:1002-1021 | in every run whatsoever an entry of the on-chain dictionary goes away only by an unlock that is sent or accepted |
| `RunInvariants.OurOnchainLockStaysUntilClaimed` | raiden/transfer/channel.py:1317-1337 | with careful callers and any partner, our on-chain lock stays unchanged up to the end of the run or to a step that sends the unlock for it and raises the transferred amount by exactly its amount |
| `RunInvariants.PartnerOnchainLockStaysUntilClaimed` | raiden/transfer/channel.py:1702-1725 | with a partner that uses fresh secret hashes, its on-chain lock stays unchanged up to the end of the run or to a step that accepts the unlock for it and raises the transferred amount by exactly its amount |
| `ChannelInvariant.BalancesShareTheDeposits` | raiden/transfer/channel.py:825-837 | the balances sum to the deposits and each lies between zero and their sum |
| `ChannelInvariant.SendLockedTransferEffect` | raiden/transfer/channel.py:1086-1246 | sending succeeds iff the channel is open, the numbers are in range, the balance covers the lock and that very lock is not pending; the overflow assertion never fails; a fresh secret hash adds exactly the lock to the ledger, a pending one breaks the invariant |
| `ChannelInvariant.SendLockedTransferKeepsInvIff` | raiden/transfer/channel.py:1051-1064 | a sent transfer keeps the invariant iff its secret hash was not pending |
| `ChannelInvariant.RefundSucceedsIff` | raiden/transfer/channel.py:1249-1285 | a refund is sent iff the lock it answers is in the partner's dictionary of locked locks and the transfer could be sent; it then is that transfer |
| `ChannelInvariant.FailsForCause` | raiden/transfer/channel.py:1086-1438 | the reason that a transfer, refund, unlock or expiry fails for is true |
| `ChannelInvariant.ExpireRaisesIff` | raiden/transfer/channel.py:1365-1438 | letting a lock expire raises iff the channel is not open, no proof was ever sent, or the lock is pending and the nonces are used up |
| `ChannelInvariant.ClaimMovesBalance` | raiden/transfer/channel.py:825-837 | a claim takes its amount from the balance of one end and adds it to that of the other |
| `ChannelInvariant.NewChannelIsFresh` | raiden/transfer/state.py:1386-1408 | a new channel is open, has no lock and no proof, and each balance is the deposit |
| `ChannelInvariant.SendUnlockEffect` | raiden/transfer/channel.py:1317-1337 | succeeds iff the lock is pending, the channel open and a nonce left; moves exactly the lock's amount from locked to transferred |
| `ChannelInvariant.ExpireLockEffect` | raiden/transfer/channel.py:1365-1438 | a message is sent iff the channel is open and exactly this lock is pending, at any block; the lock is given back and nothing transferred, or the invariant broken if its secret is known on-chain |
| `ChannelInvariant.ExpireLockKeepsInvIff` | raiden/transfer/channel.py:1411-1438 | expiring a lock keeps the invariant iff its secret is not known on-chain |
| `ChannelInvariant.ReceiveLockedTransferEffect` | raiden/transfer/channel.py:1622-1658 | a rejected transfer changes nothing; an accepted one registers exactly its lock, which extends the partner's ledger if the secret hash is fresh and breaks the invariant if it is pending |
| `ChannelInvariant.ReceiveLockedTransferKeepsInvIff` | raiden/transfer/channel.py:1051-1064 | an accepted transfer keeps the invariant iff its secret hash was not pending |
| `ChannelInvariant.ReceiveUnlockEffect` | raiden/transfer/channel.py:1702-1725 | a rejected unlock changes nothing; an accepted one claims exactly a pending lock |
| `ChannelInvariant.ReceiveLockExpiredEffect` | raiden/transfer/channel.py:1586-1619 | a rejected expiry changes nothing; an accepted one drops a lock that is past expiration plus five and not known on-chain |
| `ChannelInvariant.RegisterOffchainSecretEffect` | raiden/transfer/channel.py:1486-1498 | learning a secret changes neither ledger and keeps the invariant |
| `ChannelInvariant.RegisterOnchainSecretEffect` | raiden/transfer/channel.py:1501-1521 | an on-chain reveal changes neither ledger and keeps the invariant |
| `ChannelInvariant.HandleBlockEffect` | raiden/transfer/channel.py:1748-1779 | a block touches only deposits and the settle transaction |
| `ChannelInvariant.StateTransitionKeepsInv` | raiden/transfer/channel.py:1971-2015 | every chain or user state change keeps the channel invariant |
| `EndStateInvariant.AddLockKeepsInv` | raiden/transfer/channel.py:1240-1244 | registering a fresh lock with its proof and tree keeps tree, proof and dictionaries in step and adds its amount |
| `EndStateInvariant.AddLockBreaksInv` | raiden/transfer/channel.py:1639-1643 | registering a lock under a pending secret hash breaks the invariant |
| `EndStateInvariant.DelLockKeepsInv` | raiden/transfer/channel.py:1010-1021 | deleting a pending lock with its proof and tree keeps all in step and subtracts its amount |
| `EndStateInvariant.LeafIffPending` | raiden/transfer/channel.py:1051-1083 | a lock hash can be removed from the tree iff that very lock is pending, and added iff it is not |
| `EndStateInvariant.ExpiringOnchainLockBreaksInv` | raiden/transfer/channel.py:1002-1007 | dropping only the unclaimed entry of an on-chain lock breaks the invariant |
| `EndStateInvariant.RegisterSecretKeepsInv` | raiden/transfer/channel.py:1441-1450 | moving a lock to the unlocked dictionary keeps pending locks, amounts and invariant |
| `EndStateInvariant.RegisterOnchainSecretKeepsInv` | raiden/transfer/channel.py:1453-1483 | moving a lock to the on-chain dictionary keeps pending locks, amounts and invariant |
| `EndStateInvariant.KeepingTheLockKeepsInvIff` | raiden/transfer/channel.py:1478-1483 | without deleting the lock the invariant survives iff the reveal moves no lock |
| `EndStateInvariant.AmountIsSumOfPending` | raiden/transfer/channel.py:770-789 | the locked amount is the sum over the union of the three dictionaries |
| `Deposits.DepositsOverEveryRun` | raiden/transfer/channel.py:1912-1938 | over every run with non-decreasing blocks each contract balance is the maximum of where it started and all confirmed deposits received, and the queue holds exactly the unconfirmed ones, whatever the order of arrival |
| `Deposits.DepositsFromOpening` | raiden/transfer/channel.py:1912-1938 | the same from the opening of a channel, with nothing assumed about what was absorbed before |
| `Deposits.ConfirmedDepositsAreAbsorbed` | raiden/transfer/channel.py:1775-1777 | the heap-popping loop applies all confirmed deposits and leaves the others |
| `Deposits.HeapPushAdds` | raiden/transfer/channel.py:1912-1926 | queueing adds exactly one deposit |
| `Deposits.HeapPushKeepsOrder` | raiden/transfer/state.py:1750-1776 | queueing keeps the earliest deposit in front |
| `Deposits.AppliedTwice` | raiden/transfer/channel.py:1971-2015 | any state change applied again at the same block leaves a surviving channel as it was, except that an unconfirmed deposit is queued again |
| `Deposits.StepTwice` | raiden/transfer/channel.py:1217-2015 | the same for every action: sends, received messages, secrets and reveals as well |
| `Deposits.RunsRespectRepeats` | raiden/transfer/channel.py:1748-2015 | channels equal up to repeated queued deposits stay so on every later run, with equal balances |
| `Deposits.StepRespectsRepeats` | raiden/transfer/channel.py:1217-2015 | one action treats channels equal up to repeated queued deposits alike |
| `Counterexamples.ReusedSecretHashIsAccepted` | raiden/transfer/channel.py:1056-1064 | for every pending secret hash a proof exists whose second, different lock is accepted and breaks the invariant |
| `Counterexamples.SharedSecretHashBlocksExpiry` | raiden/transfer/channel.py:456-505 | with one secret hash in both directions, revealed in time for ours only, a correct expiry is rejected at every block in that state |
| `Counterexamples.ExpiryIsAcceptedAfterOurUnlock` | raiden/transfer/channel.py:456-505 | after our unlock of that secret hash the same expiry is accepted iff five blocks have passed |
| `Counterexamples.OnchainLockCanBeExpired` | raiden/transfer/channel.py:1411-1438 | for every lock known on-chain of an open channel an expiry can be sent, and it breaks the invariant |
| `Counterexamples.ReusedSecretHashFailsBatchUnlock` | raiden/transfer/channel.py:910-914 | after a transfer accepted under a pending secret hash the batch unlock misses the lock of a leaf iff the pending lock was in the dictionary of locked locks |
| `Counterexamples.OverwrittenLockIsSubtractedTwice` | raiden/transfer/channel.py:1365-1438 | after a transfer sent under a locked secret hash, expiring the lost lock succeeds and leaves a locked amount that is less by twice that lock |
| `Counterexamples.SharedSecretHashIsReachable` | raiden/transfer/channel.py:178-203 | three allowed steps lead from any idle open channel to that situation |
| `ChannelObjects.SumLockAmounts` | raiden/transfer/channel.py:779-789 | the loop over a dictionary computes the sum of its amounts |
| `ChannelObjects.NettingChannelEndState.constructor` | raiden/transfer/state.py:1386-1408 | a new end has no locks, no proof and the empty tree |
| `ChannelObjects.NettingChannelEndState.GetAmountLocked` | raiden/transfer/channel.py:770-789 | three loops give the locked amount of the end |
| `ChannelObjects.NettingChannelEndState.DelUnclaimedLock` | raiden/transfer/channel.py:1002-1007 | in place, the unclaimed entries of the lock are gone and nothing else changes |
| `ChannelObjects.NettingChannelEndState.DelLock` | raiden/transfer/channel.py:1010-1021 | in place, all entries of a pending lock are gone and nothing else changes |
| `ChannelObjects.NettingChannelEndState.RegisterSecret` | raiden/transfer/channel.py:1441-1450 | in place, a locked lock becomes unlocked |
| `ChannelObjects.NettingChannelEndState.RegisterOnchainSecret` | raiden/transfer/channel.py:1453-1483 | in place, an unclaimed lock revealed in time becomes an on-chain one, with or without deleting it |
| `ChannelObjects.NettingChannelEndState.UpdateContractBalance` | raiden/transfer/channel.py:1046-1048 | in place, the balance only rises |
| `ChannelObjects.NettingChannelState.GetDistributable` | raiden/transfer/channel.py:866-882 | what the sender can spend, cut at what a proof can state |
| `ChannelObjects.NettingChannelState.SendLockedTransfer` | raiden/transfer/channel.py:1217-1246 | the in-place send computes the specified channel and message, or fails and changes nothing |
| `ChannelObjects.NettingChannelState.SendUnlock` | raiden/transfer/channel.py:1317-1337 | the in-place unlock computes the specified channel and message, or fails and changes nothing |
| `ChannelObjects.NettingChannelState.EventsForExpiredLock` | raiden/transfer/channel.py:1411-1438 | the in-place expiry computes the specified channel and message, or fails and changes nothing |
| `ChannelObjects.NettingChannelState.IsValidLockedTransfer` | raiden/transfer/channel.py:542-642 | the sequence of checks gives the specified verdict and reason |
| `ChannelObjects.NettingChannelState.IsValidUnlock` | raiden/transfer/channel.py:695-767 | the sequence of checks gives the specified verdict and reason |
| `ChannelObjects.NettingChannelState.IsValidLockExpired` | raiden/transfer/channel.py:436-539 | the sequence of checks gives the specified verdict and reason |
| `ChannelObjects.NettingChannelState.HandleReceiveLockedTransfer` | raiden/transfer/channel.py:1622-1658 | the in-place handler computes the specified channel and events |
| `ChannelObjects.NettingChannelState.HandleUnlock` | raiden/transfer/channel.py:1702-1725 | the in-place handler computes the specified channel and events |
| `ChannelObjects.NettingChannelState.HandleReceiveLockExpired` | raiden/transfer/channel.py:1586-1619 | the in-place handler computes the specified channel and events |
| `ChannelObjects.NettingChannelState.HandleBlock` | raiden/transfer/channel.py:1748-1779 | a failed assertion changes nothing; otherwise the loop over the heap and the settle check compute the specified channel and events |
| `ChannelObjects.NettingChannelState.HandleActionClose` | raiden/transfer/channel.py:1524-1537 | a foreign identifier fails the assertion and changes nothing; otherwise the specified channel and events |
| `ChannelObjects.NettingChannelState.HandleChannelClosed` | raiden/transfer/channel.py:1782-1818 | the in-place handler computes the specified channel and events |
| `ChannelObjects.NettingChannelState.HandleChannelNewBalance` | raiden/transfer/channel.py:1912-1926 | a confirmed deposit is applied in place, another one queued |
| `ChannelObjects.NettingChannelState.StateTransition` | raiden/transfer/channel.py:1971-2015 | dispatching in place computes the specified channel, events and survival |
| `MerkleTree.ComputeLayers` | raiden/transfer/merkle_tree.py:36-64 | no elements and duplicated elements are the two errors; otherwise the layers over the sorted elements |
| `MerkleTree.HashUpwards` | raiden/transfer/merkle_tree.py:55-64 | the loop over neighbouring pairs builds the layers up to a single hash |
| `MerkleTree.DistinctIffNoneLost` | raiden/transfer/merkle_tree.py:52-53 | comparing the number of elements with that of their set detects duplicates exactly |
| `MerkleTree.LayersHalve` | raiden/transfer/merkle_tree.py:58-62 | each layer has half as many hashes as the one below, rounded up, and the last has one |
| `MerkleTree.LayersPairNeighbours` | raiden/transfer/merkle_tree.py:16-33 | in every layer above the leaves each digest is that of the two digests below it, the smaller one first, and an odd last one is carried up unchanged |
| `MerkleTree.SiblingsCommute` | raiden/transfer/merkle_tree.py:16-33 | two siblings give the same digest in either order, with the smaller one first |
| `MerkleTree.NextLayerKeepsLeaves` | raiden/transfer/merkle_tree.py:16-33 | pairing hashes keeps the multiset of leaves under a layer |
| `MerkleTree.RootKeepsLeaves` | raiden/transfer/merkle_tree.py:67-72 | the leaves under the root are the leaves of the tree |
| `MerkleTree.RootDeterminesLeaves` | raiden/transfer/merkle_tree.py:67-72 | equal roots have equal leaves, for trees of any sizes |
| `MerkleTree.SameRootIffSameLeaves` | raiden/transfer/merkle_tree.py:67-72 | two trees, the empty one included, have the same root iff they are over the same set |
| `MerkleTree.LayersDependOnElements` | raiden/transfer/merkle_tree.py:36-64 | two lists of distinct elements of one set, in whatever order, give the same layers |
| `MerkleTree.TreeIsUnique` | raiden/transfer/merkle_tree.py:36-64 | there is one tree over a set of elements |
| `MerkleTree.WithAddsLeaf` | raiden/transfer/channel.py:1051-1064 | adding fails iff the lock hash is a leaf already, else gives the tree over the set with it |
| `MerkleTree.WithoutRemovesLeaf` | raiden/transfer/channel.py:1067-1083 | removing fails iff the lock hash is no leaf, else gives the tree over the set without it |
| `MerkleTree.AddThenRemove` | raiden/transfer/channel.py:1051-1083 | adding an unknown lock hash and removing it gives back the tree |
| `Locks.DecodeEncodeLock` | raiden/messages.py:877-899 | a lock survives its 96-byte encoding |
| `Locks.LockHashIsInjective` | raiden/transfer/state.py:1103-1138 | equal lock hashes mean equal locks |
| `Messages.PackedLockIsItsEncoding` | raiden/encoding/messages.py:190 | packing expiration, amount and secret hash into the lock buffer gives that encoding |
| `BatchUnlock.BatchUnlockProvesLocksroot` | raiden/transfer/channel.py:885-919 | for any sound end: nothing to unlock iff there is no leaf; if every leaf still has its lock, the packed locks give back exactly the leaves, whose root is the locksroot |
| `BatchUnlock.BatchUnlockFailsIff` | raiden/transfer/channel.py:910-914 | the lookup fails iff some leaf has its lock in no dictionary |
| `BatchUnlock.ConsistentEndUnlocks` | raiden/transfer/channel.py:885-919 | on a consistent end every leaf has its lock, and there are leaves iff locks are pending |
| `BatchUnlock.MerkleLeavesFromPackedData` | raiden/transfer/merkle_tree.py:75-80 | the loop hashes consecutive 96-byte chunks |
| `BatchUnlock.LookupFinds` | raiden/transfer/channel.py:895-914 | the lookup by lock hash succeeds iff some dictionary holds the lock of the leaf, and then finds that lock |
| `BatchUnlock.ChunksOfPacked` | raiden/network/proxies/token_network.py:2066 | concatenated encodings fall apart into the lock hashes in order |
| `WriteAheadLog.RestartIsExactIff` | raiden/transfer/architecture.py:43-48 | every run of logging, snapshots and restarts ends in the fold of the log iff the transition is idempotent on reached states |
| `WriteAheadLog.RestoredFitsLog` | raiden/storage/wal.py:13-46 | restoring to any identifier agrees with folding the log up to it, whichever snapshots exist |
| `WriteAheadLog.RestoredToChange` | raiden/storage/wal.py:13-46 | restoring to a logged change leads to what the log up to and including that change leads to |
| `WriteAheadLog.ReplayRepeatsOneChange` | raiden/storage/sqlite.py:736-764 | for any transition, the replay equals applying the snapshot's own state change once more and then the rest of the log |
| `WriteAheadLog.RestoredRepeatsOneChange` | raiden/storage/wal.py:13-46 | for any transition and exact snapshots, what is restored is the fold of the log prefix with the chosen snapshot's state change applied twice, and exactly the fold without a snapshot |
| `WriteAheadLog.ClosestIsLastFitting` | raiden/storage/sqlite.py:554-588 | the closest snapshot is not after the bound and every later row is; there is none iff every row is after it |
| `WriteAheadLog.BetweenSelects` | raiden/storage/sqlite.py:736-764 | a row is selected iff its identifier lies between the two, both included, and selected rows keep the order of the log |
| `WriteAheadLog.EveryRunFitsLog` | raiden/storage/wal.py:64-97 | in every run the current state and all snapshots agree with folds of the log |
| `WriteAheadLog.CounterIsRestoredWrong` | raiden/storage/wal.py:13-46 | a transition that counts is restored to a wrong count |
| `WriteAheadLog.RestoreToStateChange` | raiden/storage/wal.py:13-46 | snapshot and replay loop give the restored state in a fresh log over the same storage |
| `WriteAheadLog.SnapshotsAfterLogging` | raiden/storage/wal.py:85-97 | a restarted log writes no snapshot before a change is logged, and then one under that change's identifier, for the state after it |
| `WriteAheadLog.Log.LogAndDispatch` | raiden/storage/wal.py:64-83 | the change is stored, its identifier remembered and the state moved on |
| `WriteAheadLog.Log.TakeSnapshot` | raiden/storage/wal.py:85-97 | once a change was logged, the current state is written under its identifier; nothing is written before |
| `WriteAheadLog.StateManager.Dispatch` | raiden/transfer/architecture.py:272-305 | the current state becomes the transition's result |
| `WriteAheadLog.Storage.WriteStateChange` | raiden/storage/sqlite.py:146-154 | appends one row and returns its identifier |
| `WriteAheadLog.Storage.WriteStateSnapshot` | raiden/storage/sqlite.py:254-262 | appends one snapshot row |
| `WriteAheadLog.Storage.GetSnapshotClosestToStateChange` | raiden/storage/sqlite.py:554-588 | the state of the last row whose identifier is at most the given one, or at most the number of rows for the latest; zero and no state iff there is none |
| `WriteAheadLog.Storage.GetStateChangesByIdentifier` | raiden/storage/sqlite.py:736-764 | a row is returned iff its identifier lies between the two, both included, at the place its identifier gives |
| `ChannelLog.RestartKeepsChannel` | raiden/storage/wal.py:13-97 | in every run of logging, snapshots and restarts, over a log of messages sent and received, secrets, reveals and state changes, a channel is the one its whole log gives, with equal proofs, trees and locks, up to repeated queued deposits |
| `ChannelLog.RestartRunsThroughIff` | raiden/storage/wal.py:37-46 | a log in which nothing raised is replayed from a snapshot without an exception iff the channel was cleared or the snapshot's own change is not a transfer, refund or unlock sent |
| `ChannelLog.RepeatRaisesIff` | raiden/transfer/architecture.py:43-48 | an action that did not raise raises when applied again iff it sends a transfer, refund or unlock |
| `NamedBuffer.ComputeSlices` | raiden/encoding/format.py:29-41 | the loop with the running offset gives every field, and no pad, its place |
| `NamedBuffer.FieldsAreWhereTheyStand` | raiden/encoding/format.py:29-41 | with distinct names a field starts after everything before it |
| `NamedBuffer.SlicesAreDisjoint` | raiden/encoding/format.py:29-41 | slices of different fields do not overlap |
| `NamedBuffer.SlicesCoverBuffer` | raiden/encoding/format.py:29-41 | every byte belongs to exactly one field or pad |
| `NamedBuffer.SetThenGet` | raiden/encoding/format.py:96-139 | a field reads back as written, padded on the left; no other field or byte changes |
| `NamedBuffer.PaddedIsValueIffFullWidth` | raiden/encoding/format.py:114-139 | a value comes back unchanged iff it is a number or has its field's full width |
| `NamedBuffer.DecodeEncodeValue` | raiden/encoding/encoders.py:11-28 | an encoded number decodes to itself, encoded bytes to their padding |
| `NamedBuffer.PackedFieldsReadBack` | raiden/messages.py:193-204 | after any sequence of writes to different fields each reads back |
| `NamedBuffer.PackAllSucceedsIff` | raiden/messages.py:193-204 | a sequence of writes succeeds iff each names a field that can hold its value |
| `NamedBuffer.Buffer.Get` | raiden/encoding/format.py:96-112 | fails iff there is no such field; otherwise decodes the bytes that follow all fields and pads before it |
| `NamedBuffer.Buffer.Set` | raiden/encoding/format.py:114-139 | writes the named field in place, or reports an error and writes nothing |
| `Messages.RoundTripIff` | raiden/messages.py:138-143 | decoding an encoded message of any of the eleven kinds, with or without an invoice hash, gives it back iff its byte fields are there with full width and a RefundTransfer has the empty invoice hash |
| `MessageLayouts.FieldsAreAtTheirOffsets` | raiden/encoding/messages.py:28-187 | in each kind of message every field has its width in bytes and starts at its offset, given as plain numbers, and the message has its total size |
| `MessageLayouts.EncodeSucceedsIff` | raiden/messages.py:188-204 | a message is encoded iff each packed number has the width of its field and each packed byte string has at most that width; the result has the total size |
| `MessageLayouts.DecodeSucceedsIff` | raiden/messages.py:138-143 | a byte string decodes iff it starts with a known command, is long enough for it, and, with a balance proof, has a nonce that is not zero |
| `MessageLayouts.CommandBytes` | raiden/encoding/messages.py:230-265 | each of the eleven command bytes names its kind of message, and no other byte names one |
| `Messages.AbsentInvoiceReadsAsZeros` | raiden/messages.py:1158-1185 | a transfer without an invoice hash comes back with thirty-two zero bytes |
| `Messages.EncodedFieldsReadBack` | raiden/messages.py:193-204 | every field of every message that is packed reads back |
| `Messages.CommandIsKept` | raiden/encoding/messages.py:230-265 | the first byte stays the command identifier through packing |
| `Messages.CommandIdentifiesKind` | raiden/encoding/messages.py:230-242 | the command identifier determines the kind of message |
| `BigEndian.DecodeEncode` | raiden/encoding/encoders.py:21-28 | a number in range survives its big-endian encoding |
| `BigEndian.EncodeDecode` | raiden/encoding/encoders.py:21-28 | bytes survive decoding and encoding at their length |
| `TokenBucket.TakenFitsWhatFlowedIn` | raiden/network/throttle.py:24-52 | over every run, once the last wait is over, all tokens taken fit capacity plus fill rate times elapsed time, and tokens never exceed capacity; only a debt without a fill rate has no wait |
| `TokenBucket.RunKeepsBalance` | raiden/network/throttle.py:24-52 | the balance between taken, left and flowed in is kept by every run |
| `TokenBucket.WaitIsExact` | raiden/network/throttle.py:32-52 | after the wait the debt is exactly gone, and after any shorter time there still is one |
| `TokenBucket.ServedAtOnce` | raiden/network/throttle.py:32-45 | a request that the bucket can serve takes exactly its amount, without a wait or a refill |
| `TokenBucket.ServedFromRefill` | raiden/network/throttle.py:32-52 | a larger request is served from exactly what has come in since the last refill, up to the capacity |
| `TokenBucket.RefillsCompose` | raiden/network/throttle.py:47-52 | refilling in between makes no difference |
| `TokenBucket.Throttle.Consume` | raiden/network/throttle.py:32-45 | takes the amount, refills only on a debt, and returns the time after which the debt is filled, or fails to divide by a zero fill rate |
| `TokenBucket.Throttle.GetTokens` | raiden/network/throttle.py:47-52 | refills for the time since the last refill, up to capacity |

## Left out

- Matching a RefundTransfer with the transfer it refunds; it is validated and registered like any other transfer.
- `NamedBuffer.Buffer.constructor`: takes a buffer that is long enough; the error for a short one is part of
  `Messages.Decode`.
- `TokenBucket.Throttle.Consume`: real numbers instead of floating point, and no bound over a sliding window, which
  the lazy refill does not support.
- The light-client variants of the handlers, except closing, which emit other events for the same state changes.
- Serialisation of state changes and snapshots, taken to be lossless.
- Real hashing and signatures, invoices, `get_batch_unlock_gain`, the events table and deletion of log rows, JSON
  dictionaries, the REST interface, transports, contract proxies and the connection manager.
