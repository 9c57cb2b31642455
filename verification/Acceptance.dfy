/**
  When a channel accepts a message: exactly when its proof states the ledger that follows from the last
  one, for each kind of message.
 */
module Acceptance {
  import opened Wrappers
  import opened BigEndian
  import opened Hashes
  import opened MerkleTree
  import opened Locks
  import opened ChannelState
  import opened EndStateInvariant
  import opened ChannelInvariant

  /** The one root that a tree over these locks can have. */
  ghost predicate StatesRoot(root: Hash, pending: LockMap) {
    forall t: MerkleTreeState :: IsTreeOf(Below, t, LockHashes(pending)) ==> Root(t) == root
  }

  lemma TreeStatesRoot(t: MerkleTreeState, pending: LockMap)
    requires IsTreeOf(Below, t, LockHashes(pending))
    ensures StatesRoot(Root(t), pending)
  {
    forall u: MerkleTreeState | IsTreeOf(Below, u, LockHashes(pending)) ensures Root(u) == Root(t) {
      BelowIsStrictTotalOrder();
      TreeIsUnique(Below, t, u, LockHashes(pending));
    }
  }

  /** A proof, signed by `signer` for the channel `id`, that states exactly this ledger. */
  ghost predicate Attests(proof: BalanceProof, ledger: Ledger, id: CanonicalIdentifier, signer: Address) {
    && proof.id == id && proof.signature == RecoversTo(signer)
    && proof.nonce == ledger.nonce && proof.transferredAmount == ledger.transferred
    && proof.lockedAmount == SumAmounts(ledger.pending)
    && ledger.transferred + SumAmounts(ledger.pending) <= UINT256_MAX
    && StatesRoot(proof.locksroot, ledger.pending)
  }

  /** Different secret hashes make different lock hashes, so no lock is lost on the way to the leaves. */
  lemma {:induction false} AsManyLockHashes(m: LockMap)
    requires WellKeyed(m)
    ensures |LockHashes(m)| == |m|
    decreases |m|
  {
    if m != map[] {
      var s :| s in m;
      var rest := m - {s};
      AsManyLockHashes(rest);
      LockHashesRemove(m, s);
      assert LockHash(m[s]) in LockHashes(m);
    } else {
      assert LockHashes(m) == {};
    }
  }

  lemma TreeWidth(t: MerkleTreeState, m: LockMap)
    requires IsTreeOf(Below, t, LockHashes(m)) && WellKeyed(m)
    ensures |Leaves(t)| == |m|
  {
    BelowIsStrictTotalOrder();
    SortedIsDistinct(Below, Leaves(t));
    DistinctIffNoneLost(Leaves(t));
    AsManyLockHashes(m);
  }

  /** A proof states the next ledger when it passes the common checks and has that ledger's root and amounts. */
  lemma AttestsIff(ch: Channel, proof: BalanceProof, ledger: Ledger, tree: MerkleTreeState)
    requires ledger.nonce == NextNonce(ch.partner) && IsTreeOf(Below, tree, LockHashes(ledger.pending))
    ensures GetStatus(ch) == Opened && Attests(proof, ledger, ch.id, ch.partner.address)
       <==> && CheckProof(ch, ch.partner, proof) == None
            && proof.locksroot == Root(tree)
            && proof.transferredAmount == ledger.transferred
            && proof.lockedAmount == SumAmounts(ledger.pending)
  {
    TreeStatesRoot(tree, ledger.pending);
  }

  // ---------------------------------------------------------------- transfers

  /** The checks of a transfer that adds a new lock, without the order they are made in. */
  lemma TransferChecks(ch: Channel, proof: BalanceProof, lock: HashTimeLock, tree: MerkleTreeState)
    requires ComputeMerkletreeWith(Below, ch.partner.merkletree, LockHash(lock)) == Some(tree)
    ensures HandleReceiveLockedTransfer(ch, proof, lock).events == [SendProcessed]
       <==> && CheckProof(ch, ch.partner, proof) == None
            && |Leaves(tree)| <= MAXIMUM_PENDING_TRANSFERS && proof.locksroot == Root(tree)
            && proof.transferredAmount == Transferred(ch.partner)
            && proof.lockedAmount == CurrentLocked(ch.partner) + lock.amount
            && lock.amount <= Distributable(ch.partner, ch.our)
            && lock.secrethash != EMPTY_HASH_KECCAK
  {
  }

  lemma TreeWithNewLock(sender: EndState, lock: HashTimeLock) returns (tree: MerkleTreeState)
    requires EndInv(sender) && lock.secrethash !in Pending(sender)
    ensures ComputeMerkletreeWith(Below, sender.merkletree, LockHash(lock)) == Some(tree)
    ensures IsTreeOf(Below, tree, LockHashes(Pending(sender)[lock.secrethash := lock]))
    ensures |Leaves(tree)| == |Pending(sender)| + 1
  {
    TreeWithLock(sender.merkletree, Pending(sender), lock);
    tree := ComputeMerkletreeWith(Below, sender.merkletree, LockHash(lock)).value;
    TreeWidth(tree, Pending(sender)[lock.secrethash := lock]);
  }

  lemma NewLockAmounts(sender: EndState, lock: HashTimeLock)
    requires EndInv(sender) && lock.secrethash !in Pending(sender)
    ensures SumAmounts(Pending(sender)[lock.secrethash := lock]) == CurrentLocked(sender) + lock.amount
  {
    NothingLockedWithoutProof(sender);
    AmountIsSumOfPending(sender);
    SumAdd(Pending(sender), lock.secrethash, lock);
  }

  /** What the partner can distribute is limited by its balance and by what a proof can state. */
  lemma AffordableIff(ch: Channel, amount: nat)
    requires EndInv(ch.partner)
    ensures amount <= Distributable(ch.partner, ch.our)
       <==> && amount + AmountLocked(ch.partner) <= Balance(ch.partner, ch.our)
            && Transferred(ch.partner) + CurrentLocked(ch.partner) + amount <= UINT256_MAX
  {
    NothingLockedWithoutProof(ch.partner);
  }

  /**
    A transfer is accepted exactly when its proof, signed by the partner for this open channel, states
    the partner's last ledger with the one new lock, and the partner can afford that lock.
   */
  lemma AcceptsLockedTransferIff(ch: Channel, proof: BalanceProof, lock: HashTimeLock)
    requires ChannelInv(ch) && lock.secrethash !in Pending(ch.partner)
    ensures HandleReceiveLockedTransfer(ch, proof, lock).events == [SendProcessed]
       <==> && GetStatus(ch) == Opened
            && Attests(proof, WithLock(LedgerOf(ch.partner), lock), ch.id, ch.partner.address)
            && |Pending(ch.partner)| < 160
            && lock.secrethash != EMPTY_HASH_KECCAK
            && lock.amount + AmountLocked(ch.partner) <= Balance(ch.partner, ch.our)
  {
    TransferAttests(ch, proof, lock);
    AffordableIff(ch, lock.amount);
    if Attests(proof, WithLock(LedgerOf(ch.partner), lock), ch.id, ch.partner.address) {
      NewLockAmounts(ch.partner, lock);
    }
  }

  lemma TransferAttests(ch: Channel, proof: BalanceProof, lock: HashTimeLock)
    requires EndInv(ch.partner) && lock.secrethash !in Pending(ch.partner)
    ensures HandleReceiveLockedTransfer(ch, proof, lock).events == [SendProcessed]
       <==> && GetStatus(ch) == Opened
            && Attests(proof, WithLock(LedgerOf(ch.partner), lock), ch.id, ch.partner.address)
            && |Pending(ch.partner)| < 160
            && lock.secrethash != EMPTY_HASH_KECCAK
            && lock.amount <= Distributable(ch.partner, ch.our)
  {
    var tree := TreeWithNewLock(ch.partner, lock);
    AttestsIff(ch, proof, WithLock(LedgerOf(ch.partner), lock), tree);
    NewLockAmounts(ch.partner, lock);
    TransferChecks(ch, proof, lock, tree);
  }

  // ---------------------------------------------------------------- claims and expiries

  lemma UnlockChecks(ch: Channel, proof: BalanceProof, lock: HashTimeLock, tree: MerkleTreeState)
    requires GetLock(ch.partner, lock.secrethash) == Some(lock)
    requires ComputeMerkletreeWithout(Below, ch.partner.merkletree, LockHash(lock)) == Some(tree)
    ensures HandleUnlock(ch, proof, lock.secrethash).events == [SendProcessed]
       <==> && CheckProof(ch, ch.partner, proof) == None && proof.locksroot == Root(tree)
            && proof.transferredAmount == Transferred(ch.partner) + lock.amount
            && proof.lockedAmount == CurrentLocked(ch.partner) - lock.amount
  {
  }

  lemma LockExpiredChecks(ch: Channel, proof: BalanceProof, lock: HashTimeLock, tree: MerkleTreeState, blockNumber: nat)
    requires GetLock(ch.partner, lock.secrethash) == Some(lock)
    requires ComputeMerkletreeWithout(Below, ch.partner.merkletree, LockHash(lock)) == Some(tree)
    requires DisjointDictionaries(ch.partner)
    ensures HandleReceiveLockExpired(ch, proof, lock.secrethash, blockNumber).events == [SendProcessed]
       <==> && CheckProof(ch, ch.partner, proof) == None && proof.locksroot == Root(tree)
            && proof.transferredAmount == Transferred(ch.partner)
            && proof.lockedAmount == CurrentLocked(ch.partner) - lock.amount
            && lock.secrethash !in ch.partner.onchainLocks && lock.secrethash !in ch.our.onchainLocks
            && lock.expiration + NUMBER_OF_CONFIRMATIONS <= blockNumber
  {
  }

  lemma TreeWithoutOldLock(sender: EndState, s: SecretHash) returns (lock: HashTimeLock, tree: MerkleTreeState)
    requires EndInv(sender) && s in Pending(sender)
    ensures lock == Pending(sender)[s] && lock.secrethash == s && GetLock(sender, s) == Some(lock)
    ensures ComputeMerkletreeWithout(Below, sender.merkletree, LockHash(lock)) == Some(tree)
    ensures IsTreeOf(Below, tree, LockHashes(Pending(sender) - {s}))
    ensures SumAmounts(Pending(sender) - {s}) == CurrentLocked(sender) - lock.amount
  {
    lock := Pending(sender)[s];
    GetLockIsPending(sender, s);
    NothingLockedWithoutProof(sender);
    AmountIsSumOfPending(sender);
    SumRemove(Pending(sender), s);
    TreeWithoutLock(sender.merkletree, Pending(sender), lock);
    tree := ComputeMerkletreeWithout(Below, sender.merkletree, LockHash(lock)).value;
  }

  /** An unlock is accepted exactly when its proof states the ledger in which a pending lock is claimed. */
  lemma AcceptsUnlockIff(ch: Channel, proof: BalanceProof, s: SecretHash)
    requires ChannelInv(ch)
    ensures HandleUnlock(ch, proof, s).events == [SendProcessed]
       <==> && GetStatus(ch) == Opened && s in Pending(ch.partner)
            && Attests(proof, WithClaim(LedgerOf(ch.partner), s), ch.id, ch.partner.address)
  {
    if s in Pending(ch.partner) {
      var lock, tree := TreeWithoutOldLock(ch.partner, s);
      AttestsIff(ch, proof, WithClaim(LedgerOf(ch.partner), s), tree);
      UnlockChecks(ch, proof, lock, tree);
    } else {
      GetLockIsPending(ch.partner, s);
    }
  }

  /**
    An expiry is accepted exactly when its proof states the ledger without a pending lock that expired
    five blocks ago, and the secret is known on-chain on neither end.
   */
  lemma AcceptsLockExpiredIff(ch: Channel, proof: BalanceProof, s: SecretHash, blockNumber: nat)
    requires ChannelInv(ch)
    ensures HandleReceiveLockExpired(ch, proof, s, blockNumber).events == [SendProcessed]
       <==> && GetStatus(ch) == Opened && s in Pending(ch.partner)
            && Attests(proof, WithoutLock(LedgerOf(ch.partner), s), ch.id, ch.partner.address)
            && s !in ch.partner.onchainLocks && s !in ch.our.onchainLocks
            && Pending(ch.partner)[s].expiration + 5 <= blockNumber
  {
    if s in Pending(ch.partner) {
      var lock, tree := TreeWithoutOldLock(ch.partner, s);
      AttestsIff(ch, proof, WithoutLock(LedgerOf(ch.partner), s), tree);
      LockExpiredChecks(ch, proof, lock, tree, blockNumber);
    } else {
      GetLockIsPending(ch.partner, s);
    }
  }

  /**
    When its sender may let a lock expire: exactly from the block on at which every receiver that is at
    most five blocks behind accepts the expiry, unless the sender knows of a reveal.
   */
  lemma SenderWaitsForReceivers(ch: Channel, lock: HashTimeLock, blockNumber: nat)
    ensures IsTransferExpired(ch, lock, blockNumber)
       <==> && lock.secrethash !in ch.our.onchainLocks
            && forall receiver: nat :: AtMostFiveBehind(receiver, blockNumber) ==> lock.expiration + 5 <= receiver
  {
    var behind := if blockNumber < 5 then 0 else blockNumber - 5;
    assert AtMostFiveBehind(behind, blockNumber);
  }

  ghost predicate AtMostFiveBehind(receiver: nat, sender: nat) {
    sender <= receiver + 5
  }

  // ---------------------------------------------------------------- why a message is refused

  /** What is wrong with a proof that is refused for this reason. */
  ghost predicate ExplainsProof(ch: Channel, sender: EndState, proof: BalanceProof, reason: Rejection) {
    match reason
    case ChannelIsClosed => GetStatus(ch) != Opened
    case WrongChannel => proof.id.channelId != ch.id.channelId
    case WrongTokenNetwork => proof.id.tokenNetwork != ch.id.tokenNetwork
    case WrongChain => proof.id.chainId != ch.id.chainId
    case ProofOverflows => proof.transferredAmount + proof.lockedAmount > UINT256_MAX
    case WrongNonce => proof.nonce != Nonce(sender) + 1
    case WrongSignature => proof.signature != RecoversTo(sender.address)
    case _ => false
  }

  /** The amounts and the tree that the proof of a message has to state, and what is wrong otherwise. */
  ghost predicate ExplainsAmounts(proof: BalanceProof, tree: Option<MerkleTreeState>, transferred: int, locked: int,
                                  reason: Rejection)
  {
    match reason
    case WrongLocksroot => tree.Some? && proof.locksroot != Root(tree.value)
    case WrongTransferredAmount => proof.transferredAmount != transferred
    case WrongLockedAmount => proof.lockedAmount != locked
    case _ => false
  }

  /** The reason given for refusing a transfer is true of it. */
  lemma TransferRefusedForCause(ch: Channel, proof: BalanceProof, lock: HashTimeLock, reason: Rejection)
    requires HandleReceiveLockedTransfer(ch, proof, lock).events == [InvalidReceived(reason)]
    ensures var tree := ComputeMerkletreeWith(Below, ch.partner.merkletree, LockHash(lock));
      || ExplainsProof(ch, ch.partner, proof, reason)
      || ExplainsAmounts(proof, tree, Transferred(ch.partner), CurrentLocked(ch.partner) + lock.amount, reason)
      || (reason == SameLockTwice && LockHash(lock) in Leaves(ch.partner.merkletree))
      || (reason == TooManyPendingTransfers && tree.Some? && |Leaves(tree.value)| > 160)
      || (reason == AboveDistributable && lock.amount > Distributable(ch.partner, ch.our))
      || (reason == UnusableSecretHash && lock.secrethash == EMPTY_HASH_KECCAK)
  {
  }

  lemma UnlockRefusedForCause(ch: Channel, proof: BalanceProof, s: SecretHash, reason: Rejection)
    requires HandleUnlock(ch, proof, s).events == [InvalidReceived(reason)]
    ensures
      || ExplainsProof(ch, ch.partner, proof, reason)
      || (reason == NoSuchLock && !IsLockPending(ch.partner, s))
      || (GetLock(ch.partner, s).Some?
          && var lock := GetLock(ch.partner, s).value;
             || (reason == UnknownLockHash && LockHash(lock) !in Leaves(ch.partner.merkletree))
             || ExplainsAmounts(proof, ComputeMerkletreeWithout(Below, ch.partner.merkletree, LockHash(lock)),
                                Transferred(ch.partner) + lock.amount, CurrentLocked(ch.partner) - lock.amount, reason))
  {
  }

  lemma ExpiryRefusedForCause(ch: Channel, proof: BalanceProof, s: SecretHash, blockNumber: nat, reason: Rejection)
    requires HandleReceiveLockExpired(ch, proof, s, blockNumber).events == [InvalidReceived(reason)]
    ensures
      || ExplainsProof(ch, ch.partner, proof, reason)
      || (reason == UnlockedOnChain && s in ch.partner.onchainLocks)
      || (reason == NoSuchLock && s !in ch.partner.lockedLocks && s !in ch.partner.unlockedLocks)
      || (GetUnclaimedLock(ch.partner, s).Some?
          && var lock := GetUnclaimedLock(ch.partner, s).value;
             || (reason == SameLockTwice && LockHash(lock) !in Leaves(ch.partner.merkletree))
             || (reason == LockNotExpired && (lock.secrethash in ch.our.onchainLocks || blockNumber < lock.expiration + 5))
             || ExplainsAmounts(proof, ComputeMerkletreeWithout(Below, ch.partner.merkletree, LockHash(lock)),
                                Transferred(ch.partner), CurrentLocked(ch.partner) - lock.amount, reason))
  {
  }

  /** A refusal changes nothing, and there is one event in either case. */
  lemma AnsweredOnce(ch: Channel, proof: BalanceProof, lock: HashTimeLock, s: SecretHash, blockNumber: nat)
    ensures AnswersOnce(ch, HandleReceiveLockedTransfer(ch, proof, lock))
    ensures AnswersOnce(ch, HandleUnlock(ch, proof, s))
    ensures AnswersOnce(ch, HandleReceiveLockExpired(ch, proof, s, blockNumber))
  {
  }

  ghost predicate AnswersOnce(ch: Channel, r: TransitionResult) {
    && |r.events| == 1
    && (r.events[0] == SendProcessed || (r.events[0].InvalidReceived? && r.newState == Some(ch)))
  }
}
