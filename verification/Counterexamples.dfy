/**
  Things the code does not guarantee on its own, each with a family of inputs that shows it. The lemmas
  named `...KeepsInvIff` and `AcceptsLockExpiredIff` say exactly when the code is right.
 */
module Counterexamples {
  import opened Wrappers
  import opened BigEndian
  import opened Hashes
  import opened MerkleTree
  import opened Locks
  import opened ChannelState
  import opened EndStateInvariant
  import opened ChannelInvariant
  import opened Soundness
  import opened BatchUnlock
  import opened ChannelRuns
  import opened RunInvariants
  import opened Acceptance

  /**
    A partner can always get a second lock accepted under a secret hash that is still pending, as long
    as the two locks differ; only the lock hash is checked. The dictionaries then lose the first lock.
   */
  lemma ReusedSecretHashIsAccepted(ch: Channel, lock: HashTimeLock) returns (proof: BalanceProof)
    requires ChannelInv(ch) && GetStatus(ch) == Opened
    requires lock.secrethash in Pending(ch.partner) && Pending(ch.partner)[lock.secrethash] != lock
    requires lock.amount <= Distributable(ch.partner, ch.our) && lock.secrethash != EMPTY_HASH_KECCAK
    requires |Leaves(ch.partner.merkletree)| < MAXIMUM_PENDING_TRANSFERS
    ensures HandleReceiveLockedTransfer(ch, proof, lock).events == [SendProcessed]
    ensures !ChannelInv(HandleReceiveLockedTransfer(ch, proof, lock).newState.value)
  {
    var sender := ch.partner;
    TreeWithLock(sender.merkletree, Pending(sender), lock);
    var tree := ComputeMerkletreeWith(Below, sender.merkletree, LockHash(lock)).value;
    SortPermutes(Below, Leaves(sender.merkletree) + [LockHash(lock)]);
    NothingLockedWithoutProof(sender);
    proof := BalanceProof(NextNonce(sender), Transferred(sender), AmountLocked(sender) + lock.amount, Root(tree),
                          ch.id, RecoversTo(sender.address));
    TransferChecks(ch, proof, lock, tree);
    ReceiveLockedTransferKeepsInvIff(ch, proof, lock);
  }

  /**
    The price is paid when the channel is unlocked on-chain: the lookup of a leaf fails exactly if the
    lost lock was still in the dictionary of locked locks, where the new one overwrote it.
   */
  lemma ReusedSecretHashFailsBatchUnlock(ch: Channel, proof: BalanceProof, lock: HashTimeLock)
    requires ChannelInv(ch) && lock.secrethash in Pending(ch.partner)
    requires HandleReceiveLockedTransfer(ch, proof, lock).events == [SendProcessed]
    ensures GetBatchUnlock(HandleReceiveLockedTransfer(ch, proof, lock).newState.value.partner) == Some(None)
       <==> lock.secrethash in ch.partner.lockedLocks
  {
    ReceiveLockedTransferEffect(ch, proof, lock);
    var after := HandleReceiveLockedTransfer(ch, proof, lock).newState.value.partner;
    BatchUnlockFailsIff(after);
    LeavesAfterReuse(ch.partner, after, lock);
    if lock.secrethash in ch.partner.lockedLocks {
      OverwrittenLockIsLost(ch.partner, after, lock);
    } else {
      forall h | h in Leaves(after.merkletree) ensures HasLock(after, h) {
        NothingIsLost(ch.partner, after, lock, h);
      }
    }
  }

  lemma LeavesAfterReuse(before: EndState, after: EndState, lock: HashTimeLock)
    requires EndInv(before) && AddsLock(before, after, lock)
    ensures Elements(Leaves(after.merkletree)) == LockHashes(Pending(before)) + {LockHash(lock)}
    ensures LockHash(lock) !in LockHashes(Pending(before))
  {
    BelowIsStrictTotalOrder();
    WithAddsLeaf(Below, before.merkletree, LockHashes(Pending(before)), LockHash(lock));
  }

  lemma OverwrittenLockIsLost(before: EndState, after: EndState, lock: HashTimeLock)
    requires EndInv(before) && AddsLock(before, after, lock) && lock.secrethash in before.lockedLocks
    requires Elements(Leaves(after.merkletree)) == LockHashes(Pending(before)) + {LockHash(lock)}
    requires LockHash(lock) !in LockHashes(Pending(before))
    ensures exists h :: h in Leaves(after.merkletree) && !HasLock(after, h)
  {
    var lost := before.lockedLocks[lock.secrethash];
    GetLockIsPending(before, lock.secrethash);
    LockHashOf(Pending(before), lost);
    EndInvIsSound(before);
    assert LockHash(lost) in Elements(Leaves(after.merkletree));
    OnlyUnderItsKey(before.lockedLocks, lost);
    OnlyUnderItsKey(after.lockedLocks, lost);
    OnlyUnderItsKey(LocksOf(before.unlockedLocks), lost);
    OnlyUnderItsKey(LocksOf(before.onchainLocks), lost);
    assert !HasLock(after, LockHash(lost));
  }

  lemma OnlyUnderItsKey(m: LockMap, lock: HashTimeLock)
    requires WellKeyed(m)
    ensures HoldsLock(m, LockHash(lock)) <==> lock.secrethash in m && m[lock.secrethash] == lock
  {
    if HoldsLock(m, LockHash(lock)) {
      var s :| s in m && LockHash(m[s]) == LockHash(lock);
      LockHashIsInjective(m[s], lock);
    }
  }

  lemma NothingIsLost(before: EndState, after: EndState, lock: HashTimeLock, h: Hash)
    requires AddsLock(before, after, lock) && lock.secrethash !in before.lockedLocks
    requires h in LockHashes(Pending(before)) + {LockHash(lock)}
    ensures HasLock(after, h)
  {
    if h == LockHash(lock) {
      assert after.lockedLocks[lock.secrethash] == lock;
    } else {
      var s :| s in Pending(before) && LockHash(Pending(before)[s]) == h;
      PendingIsHeld(before, s);
      if HoldsLock(before.lockedLocks, h) {
        var t :| t in before.lockedLocks && LockHash(before.lockedLocks[t]) == h;
        assert after.lockedLocks[t] == before.lockedLocks[t];
      }
    }
  }

  /** A proof by which the partner states the ledger it has after adding `lock`. */
  lemma ProofWithLock(ch: Channel, lock: HashTimeLock) returns (proof: BalanceProof)
    requires ChannelInv(ch) && lock.secrethash !in Pending(ch.partner)
    requires Transferred(ch.partner) + AmountLocked(ch.partner) + lock.amount <= UINT256_MAX
    ensures Attests(proof, WithLock(LedgerOf(ch.partner), lock), ch.id, ch.partner.address)
  {
    var sender := ch.partner;
    TreeWithLock(sender.merkletree, Pending(sender), lock);
    var tree := ComputeMerkletreeWith(Below, sender.merkletree, LockHash(lock)).value;
    AmountIsSumOfPending(sender);
    SumAdd(Pending(sender), lock.secrethash, lock);
    TreeStatesRoot(tree, Pending(sender)[lock.secrethash := lock]);
    proof := BalanceProof(NextNonce(sender), Transferred(sender), AmountLocked(sender) + lock.amount, Root(tree),
                          ch.id, RecoversTo(sender.address));
  }

  lemma ProofWithoutLock(ch: Channel, s: SecretHash) returns (proof: BalanceProof)
    requires ChannelInv(ch) && s in Pending(ch.partner)
    ensures Attests(proof, WithoutLock(LedgerOf(ch.partner), s), ch.id, ch.partner.address)
  {
    var sender := ch.partner;
    var lock := Pending(sender)[s];
    TreeWithoutLock(sender.merkletree, Pending(sender), lock);
    var tree := ComputeMerkletreeWithout(Below, sender.merkletree, LockHash(lock)).value;
    AmountIsSumOfPending(sender);
    SumRemove(Pending(sender), s);
    TreeStatesRoot(tree, Pending(sender) - {s});
    proof := BalanceProof(NextNonce(sender), Transferred(sender), AmountLocked(sender) - lock.amount, Root(tree),
                          ch.id, RecoversTo(sender.address));
  }

  /**
    With one secret hash in both directions, a reveal that is in time for our lock only makes the
    partner's correct notice that its own lock has expired unacceptable, at whatever block it arrives.
   */
  lemma SharedSecretHashBlocksExpiry(ch: Channel, s: SecretHash, secret: Secret, revealBlock: nat)
    returns (ch': Channel, proof: BalanceProof)
    requires ChannelInv(ch) && GetStatus(ch) == Opened
    requires s in Pending(ch.our) && revealBlock <= Pending(ch.our)[s].expiration
    requires s in ch.partner.lockedLocks && ch.partner.lockedLocks[s].expiration < revealBlock
    ensures ch' == RegisterOnchainSecret(ch, secret, s, revealBlock) && ch'.partner == ch.partner
    ensures Attests(proof, WithoutLock(LedgerOf(ch'.partner), s), ch'.id, ch'.partner.address)
    ensures forall blockNumber: nat ::
      HandleReceiveLockExpired(ch', proof, s, blockNumber).events == [InvalidReceived(LockNotExpired)]
  {
    ch' := RegisterOnchainSecret(ch, secret, s, revealBlock);
    GetLockIsPending(ch.partner, s);
    RegisterOnchainSecretEffect(ch, secret, s, revealBlock);
    LateRevealMovesNothing(ch.partner, secret, s, revealBlock);
    TimelyRevealMovesLock(ch.our, secret, s, revealBlock);
    proof := ProofWithoutLock(ch', s);
    forall blockNumber: nat
      ensures HandleReceiveLockExpired(ch', proof, s, blockNumber).events == [InvalidReceived(LockNotExpired)]
    {
      OurOnchainLockRefusesExpiry(ch', proof, s, blockNumber);
    }
  }

  lemma OurOnchainLockRefusesExpiry(ch: Channel, proof: BalanceProof, s: SecretHash, blockNumber: nat)
    requires EndInv(ch.partner) && GetStatus(ch) == Opened
    requires s in ch.our.onchainLocks && s in ch.partner.lockedLocks
    requires Attests(proof, WithoutLock(LedgerOf(ch.partner), s), ch.id, ch.partner.address)
    ensures HandleReceiveLockExpired(ch, proof, s, blockNumber).events == [InvalidReceived(LockNotExpired)]
  {
    GetLockIsPending(ch.partner, s);
    var lock, tree := TreeWithoutOldLock(ch.partner, s);
    AttestsIff(ch, proof, WithoutLock(LedgerOf(ch.partner), s), tree);
  }

  /**
    The refusal lasts as long as our own lock is in the way: once this node has sent its unlock, the same
    notice is accepted at any block from expiration + 5 on.
   */
  lemma ExpiryIsAcceptedAfterOurUnlock(ch: Channel, proof: BalanceProof, s: SecretHash, blockNumber: nat)
    requires ChannelInv(ch) && GetStatus(ch) == Opened && Nonce(ch.our) < UINT64_MAX
    requires s in ch.our.onchainLocks && s in Pending(ch.partner) && s !in ch.partner.onchainLocks
    requires Attests(proof, WithoutLock(LedgerOf(ch.partner), s), ch.id, ch.partner.address)
    ensures HandleReceiveLockExpired(ch, proof, s, blockNumber).events != [SendProcessed]
    ensures SendUnlock(ch, s).Success?
    ensures HandleReceiveLockExpired(SendUnlock(ch, s).value.0, proof, s, blockNumber).events == [SendProcessed]
       <==> Pending(ch.partner)[s].expiration + NUMBER_OF_CONFIRMATIONS <= blockNumber
  {
    SendUnlockEffect(ch, s);
    GetLockIsPending(ch.our, s);
    AcceptsLockExpiredIff(ch, proof, s, blockNumber);
    AcceptsLockExpiredIff(SendUnlock(ch, s).value.0, proof, s, blockNumber);
  }

  /** Nothing in `events_for_expired_lock` stops a lock known on-chain from being expired. */
  lemma OnchainLockCanBeExpired(ch: Channel, s: SecretHash)
    requires ChannelInv(ch) && GetStatus(ch) == Opened && Nonce(ch.our) < UINT64_MAX && s in ch.our.onchainLocks
    ensures s in Pending(ch.our)
    ensures var r := EventsForExpiredLock(ch, Pending(ch.our)[s]);
      r.Success? && r.value.1.Some? && !ChannelInv(r.value.0)
  {
    GetLockIsPending(ch.our, s);
    ExpireLockEffect(ch, Pending(ch.our)[s]);
  }

  /**
    Our own callers can do the same to our end: once a lock is overwritten by another one of its secret
    hash, letting it expire subtracts it a second time, and the locked amount of our own proof becomes
    negative unless other locks make up for it.
   */
  lemma OverwrittenLockIsSubtractedTwice(ch: Channel, s: SecretHash, expiration: nat)
    requires ChannelInv(ch) && GetStatus(ch) == Opened && Nonce(ch.our) + 1 < UINT64_MAX
    requires s in ch.our.lockedLocks && ch.our.lockedLocks[s] != Lock(0, expiration, s) && expiration <= UINT256_MAX
    ensures var lost := ch.our.lockedLocks[s];
      var sent := SendLockedTransfer(ch, 0, expiration, s);
      && sent.Success?
      && var expired := EventsForExpiredLock(sent.value.0, lost);
      && expired.Success? && expired.value.1.Some? && expired.value.0.our.balanceProof.Some?
      && expired.value.0.our.balanceProof.value.lockedAmount == AmountLocked(ch.our) - 2 * lost.amount
  {
    var lost := ch.our.lockedLocks[s];
    var lock: HashTimeLock := Lock(0, expiration, s);
    GetLockIsPending(ch.our, s);
    SendLockedTransferEffect(ch, 0, expiration, s);
    var sent := SendLockedTransfer(ch, 0, expiration, s).value.0;
    OverwritingFrees(ch.our, sent.our, lock);
    LostLeafStays(ch.our, sent.our, lost, lock);
    StrayLeafCanExpire(sent, lost);
  }

  lemma OverwritingFrees(before: EndState, after: EndState, lock: HashTimeLock)
    requires AddsLock(before, after, lock) && lock.secrethash in before.lockedLocks
    ensures AmountLocked(after) == AmountLocked(before) - before.lockedLocks[lock.secrethash].amount + lock.amount
  {
    SumSet(before.lockedLocks, lock.secrethash, lock);
  }

  /** An expiry only asks for a leaf, not for a lock. */
  lemma StrayLeafCanExpire(ch: Channel, lost: HashTimeLock)
    requires GetStatus(ch) == Opened && ch.our.balanceProof.Some? && Nonce(ch.our) < UINT64_MAX
    requires Transferred(ch.our) <= UINT256_MAX
    requires ComputeMerkletreeWithout(Below, ch.our.merkletree, LockHash(lost)).Some?
    ensures var expired := EventsForExpiredLock(ch, lost);
      && expired.Success? && expired.value.1.Some? && expired.value.0.our.balanceProof.Some?
      && expired.value.0.our.balanceProof.value.lockedAmount == AmountLocked(ch.our) - lost.amount
  {
  }

  /** The leaf of the overwritten lock is still in the tree. */
  lemma LostLeafStays(before: EndState, after: EndState, lost: HashTimeLock, lock: HashTimeLock)
    requires EndInv(before) && AddsLock(before, after, lock)
    requires lost.secrethash in Pending(before) && Pending(before)[lost.secrethash] == lost
    ensures ComputeMerkletreeWithout(Below, after.merkletree, LockHash(lost)).Some?
  {
    LockHashOf(Pending(before), lost);
    BelowIsStrictTotalOrder();
    WithAddsLeaf(Below, before.merkletree, LockHashes(Pending(before)), LockHash(lock));
    assert LockHash(lost) in Elements(Leaves(after.merkletree));
  }

  /** Such a channel is reachable: from any two open deposits, three honest steps lead to it. */
  lemma SharedSecretHashIsReachable(ch: Channel, s: SecretHash, secret: Secret) returns (actions: seq<Action>)
    requires ChannelInv(ch) && GetStatus(ch) == Opened && s != EMPTY_HASH_KECCAK
    requires Pending(ch.our) == map[] && Pending(ch.partner) == map[]
    requires Nonce(ch.our) < UINT64_MAX
    ensures Throughout(ch, actions, Careful) && Throughout(ch, actions, Fresh)
    ensures Run(ch, actions).Some?
    ensures var end := Run(ch, actions).value;
      && ChannelInv(end) && GetStatus(end) == Opened
      && s in end.our.onchainLocks && s in end.partner.lockedLocks && s !in end.partner.onchainLocks
  {
    var ch1 := SendZero(ch, s, 20);
    var rest, end := ReceiveAndReveal(ch1, s, secret);
    var first := TransferOut(0, 20, s);
    RunOne(ch, ch1, first, rest, end);
    actions := [first] + rest;
  }

  /** Our lock outlives the partner's, and the reveal comes between the two expirations. */
  ghost predicate RevealedForUsOnly(ch: Channel, s: SecretHash) {
    && ChannelInv(ch) && GetStatus(ch) == Opened
    && s in ch.our.onchainLocks && s in ch.partner.lockedLocks && s !in ch.partner.onchainLocks
  }

  lemma ReceiveAndReveal(ch: Channel, s: SecretHash, secret: Secret) returns (actions: seq<Action>, end: Channel)
    requires ChannelInv(ch) && GetStatus(ch) == Opened && s != EMPTY_HASH_KECCAK && Pending(ch.partner) == map[]
    requires s in Pending(ch.our) && Pending(ch.our)[s].expiration == 20
    ensures RunsTo(ch, actions, end) && RevealedForUsOnly(end, s)
  {
    var lock: HashTimeLock := Lock(0, 5, s);
    var proof := ZeroIsAcceptable(ch, lock);
    var next := AcceptedIsLocked(ch, proof, lock);
    var revealed := [SecretRevealed(secret, s, 10)];
    end := RevealLast(next, s, secret);
    RunReceived(ch, next, proof, lock, revealed, end);
    actions := [MessageIn(LockedTransfer(proof, lock), 0)] + revealed;
  }

  lemma RunReceived(ch: Channel, next: Channel, proof: BalanceProof, lock: HashTimeLock, actions: seq<Action>, end: Channel)
    requires lock.secrethash !in Pending(ch.partner) && RunsTo(next, actions, end)
    requires Step(ch, MessageIn(LockedTransfer(proof, lock), 0)).newState == Some(next)
    ensures RunsTo(ch, [MessageIn(LockedTransfer(proof, lock), 0)] + actions, end)
  {
    RunOne(ch, next, MessageIn(LockedTransfer(proof, lock), 0), actions, end);
  }

  lemma RevealLast(ch: Channel, s: SecretHash, secret: Secret) returns (end: Channel)
    requires ChannelInv(ch) && GetStatus(ch) == Opened && s in ch.partner.lockedLocks
    requires s in Pending(ch.our) && s in Pending(ch.partner)
    requires Pending(ch.partner)[s].expiration < 10 <= Pending(ch.our)[s].expiration
    ensures RunsTo(ch, [SecretRevealed(secret, s, 10)], end) && RevealedForUsOnly(end, s)
  {
    end := RevealBetween(ch, s, secret, 10);
    RunRevealed(ch, end, s, secret);
  }

  lemma RunRevealed(ch: Channel, end: Channel, s: SecretHash, secret: Secret)
    requires Step(ch, SecretRevealed(secret, s, 10)).newState == Some(end)
    ensures RunsTo(ch, [SecretRevealed(secret, s, 10)], end)
  {
    RunOne(ch, end, SecretRevealed(secret, s, 10), [], end);
    assert [SecretRevealed(secret, s, 10)] + [] == [SecretRevealed(secret, s, 10)];
  }

  lemma SendZero(ch: Channel, s: SecretHash, expiration: nat) returns (ch': Channel)
    requires ChannelInv(ch) && GetStatus(ch) == Opened && s !in Pending(ch.our)
    requires Nonce(ch.our) < UINT64_MAX && expiration <= UINT256_MAX
    ensures Step(ch, TransferOut(0, expiration, s)).newState == Some(ch')
    ensures ChannelInv(ch') && ch' == ch.(our := ch'.our)
    ensures s in Pending(ch'.our) && Pending(ch'.our)[s].expiration == expiration
  {
    SendLockedTransferEffect(ch, 0, expiration, s);
    ch' := SendLockedTransfer(ch, 0, expiration, s).value.0;
  }

  lemma ZeroIsAcceptable(ch: Channel, lock: HashTimeLock) returns (proof: BalanceProof)
    requires ChannelInv(ch) && GetStatus(ch) == Opened && Pending(ch.partner) == map[]
    requires lock.secrethash != EMPTY_HASH_KECCAK && lock.amount == 0
    ensures HandleReceiveLockedTransfer(ch, proof, lock).events == [SendProcessed]
  {
    ZeroAmountLocked(ch.partner);
    proof := ProofWithLock(ch, lock);
    AcceptsLockedTransferIff(ch, proof, lock);
  }

  lemma StepReceives(ch: Channel, proof: BalanceProof, lock: HashTimeLock, atBlock: nat)
    ensures Step(ch, MessageIn(LockedTransfer(proof, lock), atBlock)) == HandleReceiveLockedTransfer(ch, proof, lock)
  {
  }

  lemma AcceptedIsLocked(ch: Channel, proof: BalanceProof, lock: HashTimeLock) returns (ch': Channel)
    requires ChannelInv(ch) && lock.secrethash !in Pending(ch.partner)
    requires HandleReceiveLockedTransfer(ch, proof, lock).events == [SendProcessed]
    ensures Step(ch, MessageIn(LockedTransfer(proof, lock), 0)).newState == Some(ch')
    ensures ChannelInv(ch') && ch' == ch.(partner := ch'.partner)
    ensures lock.secrethash in Pending(ch'.partner) && Pending(ch'.partner)[lock.secrethash] == lock
    ensures lock.secrethash in ch'.partner.lockedLocks
  {
    ReceiveLockedTransferEffect(ch, proof, lock);
    StepReceives(ch, proof, lock, 0);
    ch' := HandleReceiveLockedTransfer(ch, proof, lock).newState.value;
  }

  lemma StepReveals(ch: Channel, secret: Secret, s: SecretHash, block: nat)
    ensures Step(ch, SecretRevealed(secret, s, block)).newState == Some(RegisterOnchainSecret(ch, secret, s, block))
  {
  }

  lemma RevealMovesOurLock(ch: Channel, s: SecretHash, secret: Secret, block: nat)
    requires DisjointDictionaries(ch.our) && DisjointDictionaries(ch.partner)
    requires s in Pending(ch.our) && s in Pending(ch.partner) && s in ch.partner.lockedLocks
    requires Pending(ch.partner)[s].expiration < block <= Pending(ch.our)[s].expiration
    ensures var ch' := RegisterOnchainSecret(ch, secret, s, block);
      && GetStatus(ch') == GetStatus(ch)
      && s in ch'.our.onchainLocks && s in ch'.partner.lockedLocks && s !in ch'.partner.onchainLocks
  {
    TimelyRevealMovesLock(ch.our, secret, s, block);
    LateRevealMovesNothing(ch.partner, secret, s, block);
  }

  lemma RevealBetween(ch: Channel, s: SecretHash, secret: Secret, block: nat) returns (ch': Channel)
    requires ChannelInv(ch) && s in Pending(ch.our) && s in Pending(ch.partner) && s in ch.partner.lockedLocks
    requires Pending(ch.partner)[s].expiration < block <= Pending(ch.our)[s].expiration
    ensures Step(ch, SecretRevealed(secret, s, block)).newState == Some(ch')
    ensures ChannelInv(ch') && GetStatus(ch') == GetStatus(ch)
    ensures s in ch'.our.onchainLocks && s in ch'.partner.lockedLocks && s !in ch'.partner.onchainLocks
  {
    RevealMovesOurLock(ch, s, secret, block);
    RegisterOnchainSecretEffect(ch, secret, s, block);
    StepReveals(ch, secret, s, block);
    ch' := RegisterOnchainSecret(ch, secret, s, block);
  }

  lemma ZeroAmountLocked(e: EndState)
    requires EndInv(e) && Pending(e) == map[]
    ensures AmountLocked(e) == 0
  {
    AmountIsSumOfPending(e);
  }

  ghost predicate BothKeepDuty(ch: Channel, a: Action) {
    Careful(ch, a) && Fresh(ch, a)
  }

  ghost predicate RunsTo(ch: Channel, actions: seq<Action>, end: Channel) {
    Throughout(ch, actions, Careful) && Throughout(ch, actions, Fresh) && Run(ch, actions) == Some(end)
  }

  lemma RunOne(ch: Channel, next: Channel, a: Action, actions: seq<Action>, end: Channel)
    requires BothKeepDuty(ch, a) && Step(ch, a).newState == Some(next) && RunsTo(next, actions, end)
    ensures RunsTo(ch, [a] + actions, end)
  {
    assert ([a] + actions)[1..] == actions;
  }
}
