/**
  What every operation on a channel does to the pending locks, the nonce and the amounts of the end it
  touches, and that it keeps the invariant of the whole channel.
 */
module ChannelInvariant {
  import opened Wrappers
  import opened BigEndian
  import opened Hashes
  import opened MerkleTree
  import opened Locks
  import opened ChannelState
  import opened EndStateInvariant

  /** Either running or finished with success: a channel transaction never fails. */
  ghost predicate TxInv(tx: Option<TxStatus>) {
    tx.Some? ==>
      || (tx.value.result == None && tx.value.finished == None)
      || (tx.value.result == Some(TxSuccess) && tx.value.finished.Some?)
  }

  /** Each end can cover what it has locked, and no more can be owed than was deposited. */
  ghost predicate Solvent(ch: Channel) {
    && AmountLocked(ch.our) <= Balance(ch.our, ch.partner)
    && AmountLocked(ch.partner) <= Balance(ch.partner, ch.our)
  }

  ghost predicate ChannelInv(ch: Channel) {
    && EndInv(ch.our) && EndInv(ch.partner)
    && Solvent(ch)
    && TxInv(ch.closeTx) && TxInv(ch.settleTx)
    && ch.our.address != ch.partner.address
  }

  /** Our half of the invariant, which does not depend on what the partner's end looks like. */
  ghost predicate OurSide(ch: Channel) {
    EndInv(ch.our) && AmountLocked(ch.our) <= Balance(ch.our, ch.partner)
  }

  ghost predicate PartnerSide(ch: Channel) {
    EndInv(ch.partner) && AmountLocked(ch.partner) <= Balance(ch.partner, ch.our)
  }

  lemma NewChannelInv(id: CanonicalIdentifier, settleTimeout: nat, fee: nat, us: Address, ourDeposit: nat,
                      them: Address, theirDeposit: nat)
    requires us != them
    ensures ChannelInv(NewChannel(id, settleTimeout, fee, NewEndState(us, ourDeposit), NewEndState(them, theirDeposit)))
  {
    NewEndStateInv(us, ourDeposit);
    NewEndStateInv(them, theirDeposit);
    assert LocksOf(map[]) == map[];
  }

  /** A new channel is open; nothing is pending or proved, and each end has its deposit. */
  lemma NewChannelIsFresh(id: CanonicalIdentifier, settleTimeout: nat, fee: nat, us: Address, ourDeposit: nat,
                          them: Address, theirDeposit: nat)
    ensures var ch := NewChannel(id, settleTimeout, fee, NewEndState(us, ourDeposit), NewEndState(them, theirDeposit));
      && GetStatus(ch) == Opened && ch.id == id && ch.settleTimeout == settleTimeout && ch.mediationFee == fee
      && ch.our.address == us && ch.partner.address == them && ch.depositQueue == [] && ch.updateTx == None
      && Balance(ch.our, ch.partner) == ourDeposit && Balance(ch.partner, ch.our) == theirDeposit
      && IsFresh(ch.our) && IsFresh(ch.partner)
  {
  }

  ghost predicate IsFresh(e: EndState) {
    && e.lockedLocks == map[] && e.unlockedLocks == map[] && e.onchainLocks == map[] && Leaves(e.merkletree) == []
    && e.balanceProof == None && Nonce(e) == 0 && Transferred(e) == 0
    && Root(e.merkletree) == e.onchainLocksroot == Zero
  }

  /** The two balances are the two deposits, so solvency keeps each balance within the channel's capacity. */
  lemma BalancesShareTheDeposits(ch: Channel)
    requires Solvent(ch)
    ensures Balance(ch.our, ch.partner) + Balance(ch.partner, ch.our)
         == ch.our.contractBalance + ch.partner.contractBalance
    ensures 0 <= Balance(ch.our, ch.partner) <= ch.our.contractBalance + ch.partner.contractBalance
    ensures 0 <= Balance(ch.partner, ch.our) <= ch.our.contractBalance + ch.partner.contractBalance
  {
  }

  /** What an end's counterpart can check: its nonce, what it has transferred and its pending locks. */
  datatype Ledger = Ledger(nonce: nat, transferred: nat, pending: LockMap)

  function LedgerOf(e: EndState): Ledger {
    Ledger(Nonce(e), Transferred(e), Pending(e))
  }

  /** A proof that states the ledger of an end whose tree is `tree`. */
  ghost predicate ProofStates(proof: BalanceProof, ledger: Ledger, tree: MerkleTreeState) {
    && proof.nonce == ledger.nonce && proof.transferredAmount == ledger.transferred
    && proof.lockedAmount == SumAmounts(ledger.pending)
    && proof.locksroot == Root(tree) && IsTreeOf(Below, tree, LockHashes(ledger.pending))
  }

  function WithLock(ledger: Ledger, lock: HashTimeLock): Ledger {
    ledger.(nonce := ledger.nonce + 1, pending := ledger.pending[lock.secrethash := lock])
  }

  function WithoutLock(ledger: Ledger, s: SecretHash): Ledger {
    ledger.(nonce := ledger.nonce + 1, pending := ledger.pending - {s})
  }

  function WithClaim(ledger: Ledger, s: SecretHash): Ledger
    requires s in ledger.pending
  {
    WithoutLock(ledger, s).(transferred := ledger.transferred + ledger.pending[s].amount)
  }

  /** An end whose identity and deposit are untouched and whose ledger is as given. */
  ghost predicate Becomes(before: EndState, after: EndState, ledger: Ledger) {
    && after.address == before.address && after.contractBalance == before.contractBalance
    && after.onchainLocksroot == before.onchainLocksroot
    && EndInv(after) && LedgerOf(after) == ledger
    && after.balanceProof.Some?
    && ProofStates(after.balanceProof.value, ledger, after.merkletree)
  }

  // ---------------------------------------------------------------- the end that changes

  lemma AddLockEffect(e: EndState, proof: BalanceProof, tree: MerkleTreeState, lock: HashTimeLock)
    requires EndInv(e) && lock.secrethash !in Pending(e)
    requires ComputeMerkletreeWith(Below, e.merkletree, LockHash(lock)) == Some(tree)
    requires proof.nonce == NextNonce(e) && proof.transferredAmount == Transferred(e)
    requires proof.locksroot == Root(tree) && proof.lockedAmount == AmountLocked(e) + lock.amount
    requires proof.transferredAmount + proof.lockedAmount <= UINT256_MAX
    ensures var f := AddLock(e, proof, tree, lock);
      Becomes(e, f, WithLock(LedgerOf(e), lock)) && AmountLocked(f) == AmountLocked(e) + lock.amount
  {
    AddLockKeepsInv(e, proof, tree, lock);
    AmountIsSumOfPending(AddLock(e, proof, tree, lock));
  }

  lemma DelLockEffect(e: EndState, proof: BalanceProof, tree: MerkleTreeState, s: SecretHash, claimed: nat)
    requires EndInv(e) && s in Pending(e)
    requires ComputeMerkletreeWithout(Below, e.merkletree, LockHash(Pending(e)[s])) == Some(tree)
    requires proof.nonce == NextNonce(e) && proof.transferredAmount == Transferred(e) + claimed
    requires claimed <= Pending(e)[s].amount
    requires proof.locksroot == Root(tree) && proof.lockedAmount == AmountLocked(e) - Pending(e)[s].amount
    ensures var f := DelLock(e.(balanceProof := Some(proof), merkletree := tree), s);
      && Becomes(e, f, WithoutLock(LedgerOf(e), s).(transferred := Transferred(e) + claimed))
      && AmountLocked(f) == AmountLocked(e) - Pending(e)[s].amount
  {
    DelLockKeepsInv(e, proof, tree, s);
    AmountIsSumOfPending(DelLock(e.(balanceProof := Some(proof), merkletree := tree), s));
  }

  // ---------------------------------------------------------------- sending

  /** A lock registered with its proof and tree, under a fresh secret hash or not. */
  ghost predicate AddsLock(before: EndState, after: EndState, lock: HashTimeLock) {
    && after.balanceProof.Some?
    && var proof := after.balanceProof.value;
    && after == AddLock(before, proof, after.merkletree, lock)
    && ComputeMerkletreeWith(Below, before.merkletree, LockHash(lock)) == Some(after.merkletree)
    && proof.nonce == NextNonce(before) && proof.transferredAmount == Transferred(before)
    && proof.locksroot == Root(after.merkletree) && proof.lockedAmount == CurrentLocked(before) + lock.amount
  }

  ghost predicate TransferOutcome(
    ch: Channel, amount: nat, expiration: nat, s: SecretHash, r: Result<(Channel, Message), SendError>)
  {
    && r != Failure(WouldOverflow)
    && (r.Success? <==>
         && GetStatus(ch) == Opened && Nonce(ch.our) < UINT64_MAX
         && amount <= UINT256_MAX && expiration <= UINT256_MAX
         && amount + AmountLocked(ch.our) <= Balance(ch.our, ch.partner)
         && Transferred(ch.our) + AmountLocked(ch.our) + amount <= UINT256_MAX
         && !(s in Pending(ch.our) && Pending(ch.our)[s] == Lock(amount, expiration, s)))
    && (r.Success? ==>
         var (ch', m) := r.value;
         && amount <= UINT256_MAX && expiration <= UINT256_MAX
         && ch' == ch.(our := ch'.our)
         && AddsLock(ch.our, ch'.our, Lock(amount, expiration, s))
         && m == LockedTransfer(Sign(ch, ch'.our.balanceProof.value), Lock(amount, expiration, s))
         && ch'.our.balanceProof.value.id == ch.id
         && (s in Pending(ch.our) ==> !EndInv(ch'.our))
         && (s !in Pending(ch.our) ==>
              && OurSide(ch') && (ChannelInv(ch) ==> ChannelInv(ch'))
              && Becomes(ch.our, ch'.our, WithLock(LedgerOf(ch.our), Lock(amount, expiration, s)))))
  }

  /** What a lock does to the end that registers it, by whether its secret hash is fresh. */
  ghost predicate AddedLock(e: EndState, f: EndState, lock: HashTimeLock) {
    && (lock.secrethash in Pending(e) ==> !EndInv(f))
    && (lock.secrethash !in Pending(e) ==>
         Becomes(e, f, WithLock(LedgerOf(e), lock)) && AmountLocked(f) == AmountLocked(e) + lock.amount)
  }

  lemma AddsLockEffect(e: EndState, f: EndState, lock: HashTimeLock)
    requires EndInv(e) && AddsLock(e, f, lock)
    requires Transferred(e) + CurrentLocked(e) + lock.amount <= UINT256_MAX
    ensures AddedLock(e, f, lock)
  {
    NothingLockedWithoutProof(e);
    if lock.secrethash in Pending(e) {
      AddLockBreaksInv(e, f.balanceProof.value, f.merkletree, lock);
    } else {
      AddLockEffect(e, f.balanceProof.value, f.merkletree, lock);
    }
  }

  lemma TransferSucceedsIff(ch: Channel, amount: nat, expiration: nat, s: SecretHash)
    requires OurSide(ch)
    ensures var r := SendLockedTransfer(ch, amount, expiration, s);
      && r != Failure(WouldOverflow)
      && (r.Success? <==>
           && GetStatus(ch) == Opened && Nonce(ch.our) < UINT64_MAX
           && amount <= UINT256_MAX && expiration <= UINT256_MAX
           && amount + AmountLocked(ch.our) <= Balance(ch.our, ch.partner)
           && Transferred(ch.our) + AmountLocked(ch.our) + amount <= UINT256_MAX
           && !(s in Pending(ch.our) && Pending(ch.our)[s] == Lock(amount, expiration, s)))
  {
    NothingLockedWithoutProof(ch.our);
    if amount <= UINT256_MAX && expiration <= UINT256_MAX {
      LeafIffPending(ch.our, Lock(amount, expiration, s));
    }
  }

  lemma SentTransfer(ch: Channel, amount: nat, expiration: nat, s: SecretHash)
    requires SendLockedTransfer(ch, amount, expiration, s).Success? && CurrentLocked(ch.our) == AmountLocked(ch.our)
    ensures var (ch', m) := SendLockedTransfer(ch, amount, expiration, s).value;
      && amount <= UINT256_MAX && expiration <= UINT256_MAX
      && ch' == ch.(our := ch'.our)
      && AddsLock(ch.our, ch'.our, Lock(amount, expiration, s))
      && m == LockedTransfer(Sign(ch, ch'.our.balanceProof.value), Lock(amount, expiration, s))
      && ch'.our.balanceProof.value.id == ch.id
  {
  }

  /**
    A transfer is sent exactly when the channel is open, the numbers fit, the balance covers the lock
    and the very same lock is not pending; the overflow check then never fails. A fresh secret hash adds
    exactly that lock to the ledger, a pending one destroys the invariant.
   */
  lemma SendLockedTransferEffect(ch: Channel, amount: nat, expiration: nat, s: SecretHash)
    requires OurSide(ch)
    ensures TransferOutcome(ch, amount, expiration, s, SendLockedTransfer(ch, amount, expiration, s))
  {
    var r := SendLockedTransfer(ch, amount, expiration, s);
    TransferSucceedsIff(ch, amount, expiration, s);
    if r.Success? {
      NothingLockedWithoutProof(ch.our);
      SentTransfer(ch, amount, expiration, s);
      AddsLockEffect(ch.our, r.value.0.our, Lock(amount, expiration, s));
    }
  }

  lemma NothingLockedWithoutProof(e: EndState)
    requires EndInv(e)
    ensures CurrentLocked(e) == AmountLocked(e)
  {
    AmountIsSumOfPending(e);
  }

  /** The sender keeps the invariant exactly when the secret hash is not pending on its end already. */
  lemma SendLockedTransferKeepsInvIff(ch: Channel, amount: nat, expiration: nat, s: SecretHash)
    requires ChannelInv(ch) && SendLockedTransfer(ch, amount, expiration, s).Success?
    ensures ChannelInv(SendLockedTransfer(ch, amount, expiration, s).value.0) <==> s !in Pending(ch.our)
  {
    SendLockedTransferEffect(ch, amount, expiration, s);
  }

  /** A refund is sent exactly when the lock it answers is still locked and the transfer could be sent. */
  lemma RefundSucceedsIff(ch: Channel, amount: nat, expiration: nat, s: SecretHash)
    requires OurSide(ch)
    ensures var r := SendRefundTransfer(ch, amount, expiration, s);
      && (r.Success? <==>
           && s in ch.partner.lockedLocks
           && GetStatus(ch) == Opened && Nonce(ch.our) < UINT64_MAX
           && amount <= UINT256_MAX && expiration <= UINT256_MAX
           && amount + AmountLocked(ch.our) <= Balance(ch.our, ch.partner)
           && Transferred(ch.our) + AmountLocked(ch.our) + amount <= UINT256_MAX
           && !(s in Pending(ch.our) && Pending(ch.our)[s] == Lock(amount, expiration, s)))
      && (r.Success? ==> r == SendLockedTransfer(ch, amount, expiration, s))
  {
    TransferSucceedsIff(ch, amount, expiration, s);
  }

  ghost predicate UnlockOutcome(ch: Channel, s: SecretHash, r: Result<(Channel, Message), SendError>) {
    && (r.Success? <==> s in Pending(ch.our) && GetStatus(ch) == Opened && Nonce(ch.our) < UINT64_MAX)
    && (r.Success? ==>
         var (ch', m) := r.value;
         && ch' == ch.(our := ch'.our) && OurSide(ch') && (ChannelInv(ch) ==> ChannelInv(ch'))
         && Becomes(ch.our, ch'.our, WithClaim(LedgerOf(ch.our), s))
         && m == Unlock(Sign(ch, ch'.our.balanceProof.value), s)
         && ch'.our.balanceProof.value.id == ch.id
         && ch'.our.onchainLocks == ch.our.onchainLocks - {s})
  }

  lemma UnlockSucceedsIff(ch: Channel, s: SecretHash)
    requires OurSide(ch)
    ensures SendUnlock(ch, s).Success?
       <==> s in Pending(ch.our) && GetStatus(ch) == Opened && Nonce(ch.our) < UINT64_MAX
  {
    GetLockIsPending(ch.our, s);
    if s in Pending(ch.our) {
      LeafIffPending(ch.our, Pending(ch.our)[s]);
      PendingIsAffordable(ch.our, s);
    }
  }

  /** Claiming a pending lock, on whichever end. */
  ghost predicate ClaimedLock(e: EndState, f: EndState, s: SecretHash) {
    && s in Pending(e)
    && Becomes(e, f, WithClaim(LedgerOf(e), s)) && AmountLocked(f) == AmountLocked(e) - Pending(e)[s].amount
    && f.onchainLocks == e.onchainLocks - {s}
  }

  /** A claim on one end takes its amount from that end's balance and gives it to the other one. */
  lemma ClaimMovesBalance(e: EndState, f: EndState, other: EndState, s: SecretHash)
    requires ClaimedLock(e, f, s)
    ensures Balance(f, other) == Balance(e, other) - Pending(e)[s].amount
    ensures Balance(other, f) == Balance(other, e) + Pending(e)[s].amount
  {
  }

  lemma ClaimLockEffect(e: EndState, proof: BalanceProof, tree: MerkleTreeState, s: SecretHash)
    requires EndInv(e) && s in Pending(e)
    requires ComputeMerkletreeWithout(Below, e.merkletree, LockHash(Pending(e)[s])) == Some(tree)
    requires proof.nonce == NextNonce(e) && proof.transferredAmount == Transferred(e) + Pending(e)[s].amount
    requires proof.locksroot == Root(tree) && proof.lockedAmount == AmountLocked(e) - Pending(e)[s].amount
    ensures ClaimedLock(e, DelLock(e.(balanceProof := Some(proof), merkletree := tree), s), s)
  {
    DelLockEffect(e, proof, tree, s, Pending(e)[s].amount);
  }

  lemma SentUnlock(ch: Channel, s: SecretHash) returns (proof: BalanceProof, tree: MerkleTreeState)
    requires SendUnlock(ch, s).Success? && EndInv(ch.our)
    ensures s in Pending(ch.our) && ComputeMerkletreeWithout(Below, ch.our.merkletree, LockHash(Pending(ch.our)[s])) == Some(tree)
    ensures proof.nonce == NextNonce(ch.our) && proof.transferredAmount == Transferred(ch.our) + Pending(ch.our)[s].amount
    ensures proof.locksroot == Root(tree) && proof.lockedAmount == AmountLocked(ch.our) - Pending(ch.our)[s].amount
    ensures proof.id == ch.id
    ensures var our := DelLock(ch.our.(balanceProof := Some(proof), merkletree := tree), s);
      SendUnlock(ch, s) == Success((ch.(our := our), Unlock(Sign(ch, proof), s)))
  {
    GetLockIsPending(ch.our, s);
    var created := CreateUnlock(ch, Pending(ch.our)[s]).value;
    proof, tree := created.0, created.1;
  }

  lemma UnlockSent(ch: Channel, s: SecretHash, our: EndState, proof: BalanceProof)
    requires OurSide(ch) && GetStatus(ch) == Opened && Nonce(ch.our) < UINT64_MAX
    requires ClaimedLock(ch.our, our, s) && our.balanceProof == Some(proof) && proof.id == ch.id
    ensures UnlockOutcome(ch, s, Success((ch.(our := our), Unlock(Sign(ch, proof), s))))
  {
  }

  /** An unlock moves exactly its lock's amount from the locked to the transferred amount. */
  lemma SendUnlockEffect(ch: Channel, s: SecretHash)
    requires OurSide(ch)
    ensures UnlockOutcome(ch, s, SendUnlock(ch, s))
  {
    UnlockSucceedsIff(ch, s);
    if SendUnlock(ch, s).Success? {
      var proof, tree := SentUnlock(ch, s);
      ClaimLockEffect(ch.our, proof, tree, s);
      UnlockSent(ch, s, DelLock(ch.our.(balanceProof := Some(proof), merkletree := tree), s), proof);
    }
  }

  lemma PendingIsAffordable(e: EndState, s: SecretHash)
    requires EndInv(e) && s in Pending(e)
    ensures Pending(e)[s].amount <= AmountLocked(e)
    ensures e.balanceProof.Some?
  {
    AmountIsSumOfPending(e);
    SumRemove(Pending(e), s);
  }

  ghost predicate ExpireOutcome(ch: Channel, lock: HashTimeLock, r: Result<(Channel, Option<Message>), SendError>) {
    && (r.Success? && r.value.1.Some? <==>
         && GetStatus(ch) == Opened && Nonce(ch.our) < UINT64_MAX
         && lock.secrethash in Pending(ch.our) && Pending(ch.our)[lock.secrethash] == lock)
    && (r.Success? ==>
         var (ch', m) := r.value;
         && ch' == ch.(our := ch'.our)
         && (m == None ==> ch' == ch)
         && (m.Some? ==>
           && ch'.our.balanceProof.Some? && ch'.our.balanceProof.value.id == ch.id
           && m == Some(LockExpired(Sign(ch, ch'.our.balanceProof.value), lock.secrethash))
           && ch'.our.onchainLocks == ch.our.onchainLocks
           && (lock.secrethash in ch.our.onchainLocks ==> !EndInv(ch'.our))
           && (lock.secrethash !in ch.our.onchainLocks ==>
                && OurSide(ch') && (ChannelInv(ch) ==> ChannelInv(ch'))
                && Becomes(ch.our, ch'.our, WithoutLock(LedgerOf(ch.our), lock.secrethash)))))
  }

  /**
    An expiry is sent exactly for a pending lock of an open channel, whatever block it is. The lock is
    given back and nothing transferred; if its secret is known on-chain the invariant is destroyed.
   */
  lemma ExpireLockEffect(ch: Channel, lock: HashTimeLock)
    requires OurSide(ch)
    ensures ExpireOutcome(ch, lock, EventsForExpiredLock(ch, lock))
  {
    LeafIffPending(ch.our, lock);
    match CreateSendExpiredLock(ch.our, lock, ch.id) {
      case Failure(_) =>
      case Success(None) =>
      case Success(Some((proof, tree))) =>
        if lock.secrethash in ch.our.onchainLocks {
          ExpiringOnchainLockBreaksInv(ch.our, proof, tree, lock.secrethash);
        } else {
          DelLockEffect(ch.our, proof, tree, lock.secrethash, 0);
          DelUnclaimedIsDelLock(ch.our.(balanceProof := Some(proof), merkletree := tree), lock.secrethash);
        }
    }
  }

  /** An expiry raises exactly if the channel is not open, nothing was ever sent, or the nonces are used up. */
  lemma ExpireRaisesIff(ch: Channel, lock: HashTimeLock)
    requires OurSide(ch)
    ensures EventsForExpiredLock(ch, lock).Failure? <==>
      || GetStatus(ch) != Opened || ch.our.balanceProof == None
      || (lock.secrethash in Pending(ch.our) && Pending(ch.our)[lock.secrethash] == lock && Nonce(ch.our) >= UINT64_MAX)
  {
    LeafIffPending(ch.our, lock);
  }

  /** Letting a registered lock expire keeps the invariant exactly when its secret is not known on-chain. */
  lemma ExpireLockKeepsInvIff(ch: Channel, lock: HashTimeLock)
    requires ChannelInv(ch)
    requires EventsForExpiredLock(ch, lock).Success? && EventsForExpiredLock(ch, lock).value.1.Some?
    ensures ChannelInv(EventsForExpiredLock(ch, lock).value.0) <==> lock.secrethash !in ch.our.onchainLocks
  {
    ExpireLockEffect(ch, lock);
  }

  // ---------------------------------------------------------------- why a call fails

  /** The reason a transfer, a refund, an unlock or an expiry fails for is true. */
  lemma FailsForCause(ch: Channel, amount: nat, expiration: nat, s: SecretHash, lock: HashTimeLock)
    requires OurSide(ch)
    ensures match SendLockedTransfer(ch, amount, expiration, s)
            case Success(_) => true
            case Failure(reason) => TransferFailsBecause(ch, amount, expiration, s, reason)
    ensures match SendRefundTransfer(ch, amount, expiration, s)
            case Success(_) => true
            case Failure(reason) =>
              || TransferFailsBecause(ch, amount, expiration, s, reason)
              || (reason == UnknownLock && s !in ch.partner.lockedLocks)
    ensures match SendUnlock(ch, s)
            case Success(_) => true
            case Failure(reason) =>
              || (reason == UnknownLock && s !in Pending(ch.our))
              || (reason == ChannelNotOpen && GetStatus(ch) != Opened)
              || (reason == InvalidProof && Nonce(ch.our) >= UINT64_MAX)
    ensures match EventsForExpiredLock(ch, lock)
            case Success(_) => true
            case Failure(reason) =>
              || (reason == ChannelNotOpen && GetStatus(ch) != Opened)
              || (reason == NoBalanceProof && ch.our.balanceProof == None)
              || (reason == InvalidProof && Nonce(ch.our) >= UINT64_MAX)
  {
    TransferFailsForCause(ch, amount, expiration, s);
    UnlockFailsForCause(ch, s);
    LeafIffPending(ch.our, lock);
  }

  ghost predicate TransferFailsBecause(ch: Channel, amount: nat, expiration: nat, s: SecretHash, reason: SendError) {
    || (reason == NotEnoughBalance && amount > Distributable(ch.our, ch.partner))
    || (reason == ChannelNotOpen && GetStatus(ch) != Opened)
    || (reason == InvalidLock && (amount > UINT256_MAX || expiration > UINT256_MAX))
    || (reason == LockAlreadyRegistered && s in Pending(ch.our) && Pending(ch.our)[s] == Lock(amount, expiration, s))
    || (reason == InvalidProof && Nonce(ch.our) >= UINT64_MAX)
  }

  lemma TransferFailsForCause(ch: Channel, amount: nat, expiration: nat, s: SecretHash)
    requires OurSide(ch)
    ensures match SendLockedTransfer(ch, amount, expiration, s)
            case Success(_) => true
            case Failure(reason) => TransferFailsBecause(ch, amount, expiration, s, reason)
  {
    NothingLockedWithoutProof(ch.our);
    if amount <= UINT256_MAX && expiration <= UINT256_MAX {
      LeafIffPending(ch.our, Lock(amount, expiration, s));
    }
  }

  lemma UnlockFailsForCause(ch: Channel, s: SecretHash)
    requires OurSide(ch)
    ensures match SendUnlock(ch, s)
            case Success(_) => true
            case Failure(reason) =>
              || (reason == UnknownLock && s !in Pending(ch.our))
              || (reason == ChannelNotOpen && GetStatus(ch) != Opened)
              || (reason == InvalidProof && Nonce(ch.our) >= UINT64_MAX)
  {
    GetLockIsPending(ch.our, s);
    if s in Pending(ch.our) {
      LeafIffPending(ch.our, Pending(ch.our)[s]);
      PendingIsAffordable(ch.our, s);
    }
  }

  // ---------------------------------------------------------------- receiving

  // What a proof that passes validation states, without any invariant.

  ghost predicate NextProof(sender: EndState, proof: BalanceProof, tree: MerkleTreeState, transferred: nat, locked: int) {
    && proof.nonce == NextNonce(sender) && proof.locksroot == Root(tree)
    && proof.transferredAmount == transferred && proof.lockedAmount == locked
    && transferred + locked <= UINT256_MAX
  }

  lemma CheckedTransfer(ch: Channel, proof: BalanceProof, lock: HashTimeLock, tree: MerkleTreeState)
    requires CheckLockedTransfer(ch, ch.partner, ch.our, proof, lock) == Success(tree)
    ensures GetStatus(ch) == Opened
    ensures ComputeMerkletreeWith(Below, ch.partner.merkletree, LockHash(lock)) == Some(tree)
    ensures NextProof(ch.partner, proof, tree, Transferred(ch.partner), CurrentLocked(ch.partner) + lock.amount)
    ensures lock.amount <= Distributable(ch.partner, ch.our)
  {
  }

  lemma CheckedUnlock(ch: Channel, proof: BalanceProof, s: SecretHash, tree: MerkleTreeState) returns (lock: HashTimeLock)
    requires CheckUnlock(ch, ch.partner, proof, s) == Success(tree)
    ensures GetStatus(ch) == Opened && GetLock(ch.partner, s) == Some(lock)
    ensures ComputeMerkletreeWithout(Below, ch.partner.merkletree, LockHash(lock)) == Some(tree)
    ensures NextProof(ch.partner, proof, tree, Transferred(ch.partner) + lock.amount, CurrentLocked(ch.partner) - lock.amount)
  {
    lock := GetLock(ch.partner, s).value;
  }

  lemma CheckedExpiry(ch: Channel, proof: BalanceProof, s: SecretHash, blockNumber: nat, tree: MerkleTreeState)
    returns (lock: HashTimeLock)
    requires CheckLockExpired(ch, ch.partner, ch.our, proof, s, blockNumber) == Success(tree)
    ensures GetStatus(ch) == Opened && s !in ch.partner.onchainLocks && GetUnclaimedLock(ch.partner, s) == Some(lock)
    ensures lock.expiration + NUMBER_OF_CONFIRMATIONS <= blockNumber
    ensures ComputeMerkletreeWithout(Below, ch.partner.merkletree, LockHash(lock)) == Some(tree)
    ensures NextProof(ch.partner, proof, tree, Transferred(ch.partner), CurrentLocked(ch.partner) - lock.amount)
  {
    lock := GetUnclaimedLock(ch.partner, s).value;
  }

  ghost predicate ReceiveTransferOutcome(ch: Channel, proof: BalanceProof, lock: HashTimeLock, r: TransitionResult) {
    && r.newState.Some?
    && (r.events != [SendProcessed] ==> r.newState == Some(ch))
    && (r.events == [SendProcessed] ==>
         var ch' := r.newState.value;
         && ch' == ch.(partner := ch'.partner) && ch'.partner.balanceProof == Some(proof)
         && GetStatus(ch) == Opened
         && AddsLock(ch.partner, ch'.partner, lock)
         && (lock.secrethash in Pending(ch.partner) ==> !EndInv(ch'.partner))
         && (lock.secrethash !in Pending(ch.partner) ==>
              && PartnerSide(ch') && (ChannelInv(ch) ==> ChannelInv(ch'))
              && Becomes(ch.partner, ch'.partner, WithLock(LedgerOf(ch.partner), lock))))
  }

  lemma ReceivedTransfer(ch: Channel, proof: BalanceProof, lock: HashTimeLock, tree: MerkleTreeState)
    requires CheckLockedTransfer(ch, ch.partner, ch.our, proof, lock) == Success(tree)
    ensures var partner := AddLock(ch.partner, proof, tree, lock);
      && HandleReceiveLockedTransfer(ch, proof, lock) == TransitionResult(Some(ch.(partner := partner)), [SendProcessed])
      && AddsLock(ch.partner, partner, lock)
      && GetStatus(ch) == Opened && lock.amount <= Distributable(ch.partner, ch.our)
      && Transferred(ch.partner) + CurrentLocked(ch.partner) + lock.amount <= UINT256_MAX
  {
    CheckedTransfer(ch, proof, lock, tree);
  }

  lemma TransferReceived(ch: Channel, proof: BalanceProof, lock: HashTimeLock, partner: EndState)
    requires PartnerSide(ch) && AddsLock(ch.partner, partner, lock) && GetStatus(ch) == Opened
    requires partner.balanceProof == Some(proof)
    requires lock.amount <= Distributable(ch.partner, ch.our)
    requires Transferred(ch.partner) + CurrentLocked(ch.partner) + lock.amount <= UINT256_MAX
    ensures ReceiveTransferOutcome(ch, proof, lock, TransitionResult(Some(ch.(partner := partner)), [SendProcessed]))
  {
    AddsLockEffect(ch.partner, partner, lock);
  }

  /** A rejected transfer changes nothing; an accepted one registers exactly its lock, fresh or not. */
  lemma ReceiveLockedTransferEffect(ch: Channel, proof: BalanceProof, lock: HashTimeLock)
    requires PartnerSide(ch)
    ensures ReceiveTransferOutcome(ch, proof, lock, HandleReceiveLockedTransfer(ch, proof, lock))
  {
    match CheckLockedTransfer(ch, ch.partner, ch.our, proof, lock) {
      case Failure(_) =>
      case Success(tree) =>
        ReceivedTransfer(ch, proof, lock, tree);
        TransferReceived(ch, proof, lock, AddLock(ch.partner, proof, tree, lock));
    }
  }

  /** An accepted transfer keeps the invariant exactly when its secret hash is not pending already. */
  lemma ReceiveLockedTransferKeepsInvIff(ch: Channel, proof: BalanceProof, lock: HashTimeLock)
    requires ChannelInv(ch) && HandleReceiveLockedTransfer(ch, proof, lock).events == [SendProcessed]
    ensures ChannelInv(HandleReceiveLockedTransfer(ch, proof, lock).newState.value)
       <==> lock.secrethash !in Pending(ch.partner)
  {
    ReceiveLockedTransferEffect(ch, proof, lock);
  }

  ghost predicate ReceiveUnlockOutcome(ch: Channel, proof: BalanceProof, s: SecretHash, r: TransitionResult) {
    && r.newState.Some?
    && (r.events != [SendProcessed] ==> r.newState == Some(ch))
    && (r.events == [SendProcessed] ==>
         var ch' := r.newState.value;
         && s in Pending(ch.partner) && GetStatus(ch) == Opened
         && ch' == ch.(partner := ch'.partner) && ch'.partner.balanceProof == Some(proof)
         && PartnerSide(ch') && (ChannelInv(ch) ==> ChannelInv(ch'))
         && Becomes(ch.partner, ch'.partner, WithClaim(LedgerOf(ch.partner), s))
         && ch'.partner.onchainLocks == ch.partner.onchainLocks - {s})
  }

  lemma UnlockReceived(ch: Channel, proof: BalanceProof, s: SecretHash, partner: EndState)
    requires PartnerSide(ch) && GetStatus(ch) == Opened
    requires ClaimedLock(ch.partner, partner, s) && partner.balanceProof == Some(proof)
    ensures ReceiveUnlockOutcome(ch, proof, s, TransitionResult(Some(ch.(partner := partner)), [SendProcessed]))
  {
  }

  /** A rejected unlock changes nothing; an accepted one claims exactly a pending lock. */
  lemma ReceiveUnlockEffect(ch: Channel, proof: BalanceProof, s: SecretHash)
    requires PartnerSide(ch)
    ensures ReceiveUnlockOutcome(ch, proof, s, HandleUnlock(ch, proof, s))
  {
    match CheckUnlock(ch, ch.partner, proof, s) {
      case Failure(_) =>
      case Success(tree) =>
        var lock := CheckedUnlock(ch, proof, s, tree);
        GetLockIsPending(ch.partner, s);
        NothingLockedWithoutProof(ch.partner);
        ClaimLockEffect(ch.partner, proof, tree, s);
        UnlockReceived(ch, proof, s, DelLock(ch.partner.(balanceProof := Some(proof), merkletree := tree), s));
    }
  }

  ghost predicate ReceiveExpiryOutcome(ch: Channel, proof: BalanceProof, s: SecretHash, blockNumber: nat, r: TransitionResult) {
    && r.newState.Some?
    && (r.events != [SendProcessed] ==> r.newState == Some(ch))
    && (r.events == [SendProcessed] ==>
         var ch' := r.newState.value;
         && s in Pending(ch.partner) && s !in ch.partner.onchainLocks && GetStatus(ch) == Opened
         && Pending(ch.partner)[s].expiration + NUMBER_OF_CONFIRMATIONS <= blockNumber
         && ch' == ch.(partner := ch'.partner) && ch'.partner.balanceProof == Some(proof)
         && PartnerSide(ch') && (ChannelInv(ch) ==> ChannelInv(ch'))
         && Becomes(ch.partner, ch'.partner, WithoutLock(LedgerOf(ch.partner), s))
         && ch'.partner.onchainLocks == ch.partner.onchainLocks)
  }

  /** A lock is only ever expired by its sender once it is past expiry and not known on-chain. */
  lemma ReceiveLockExpiredEffect(ch: Channel, proof: BalanceProof, s: SecretHash, blockNumber: nat)
    requires PartnerSide(ch)
    ensures ReceiveExpiryOutcome(ch, proof, s, blockNumber, HandleReceiveLockExpired(ch, proof, s, blockNumber))
  {
    match CheckLockExpired(ch, ch.partner, ch.our, proof, s, blockNumber) {
      case Failure(_) =>
      case Success(tree) =>
        var lock := CheckedExpiry(ch, proof, s, blockNumber, tree);
        GetLockIsPending(ch.partner, s);
        NothingLockedWithoutProof(ch.partner);
        DelLockEffect(ch.partner, proof, tree, s, 0);
        DelUnclaimedIsDelLock(ch.partner.(balanceProof := Some(proof), merkletree := tree), s);
    }
  }

  // ---------------------------------------------------------------- secrets

  /** A secret reaches both ends of the channel, and nothing else of it. */
  lemma LearningReachesBothEnds(ch: Channel, secret: Secret, s: SecretHash)
    ensures var ch' := RegisterOffchainSecret(ch, secret, s);
      && Learns(ch.our, ch'.our, secret, s) && Learns(ch.partner, ch'.partner, secret, s)
      && ch' == ch.(our := ch'.our, partner := ch'.partner)
  {
    LearningMovesLock(ch.our, secret, s);
    LearningMovesLock(ch.partner, secret, s);
  }

  lemma RevealReachesBothEnds(ch: Channel, secret: Secret, s: SecretHash, revealBlock: nat)
    ensures var ch' := RegisterOnchainSecret(ch, secret, s, revealBlock);
      && TakesReveal(ch.our, ch'.our, secret, s, revealBlock)
      && TakesReveal(ch.partner, ch'.partner, secret, s, revealBlock)
      && ch' == ch.(our := ch'.our, partner := ch'.partner)
  {
    RevealMovesLock(ch.our, secret, s, revealBlock);
    RevealMovesLock(ch.partner, secret, s, revealBlock);
  }

  /** Learning a secret moves locks between dictionaries and changes neither ledger. */
  lemma RegisterOffchainSecretEffect(ch: Channel, secret: Secret, s: SecretHash)
    requires ChannelInv(ch)
    ensures var ch' := RegisterOffchainSecret(ch, secret, s);
      ChannelInv(ch') && LedgerOf(ch'.our) == LedgerOf(ch.our) && LedgerOf(ch'.partner) == LedgerOf(ch.partner)
  {
    RegisterSecretKeepsInv(ch.our, secret, s);
    RegisterSecretKeepsInv(ch.partner, secret, s);
  }

  lemma RegisterOnchainSecretEffect(ch: Channel, secret: Secret, s: SecretHash, revealBlock: nat)
    requires ChannelInv(ch)
    ensures var ch' := RegisterOnchainSecret(ch, secret, s, revealBlock);
      ChannelInv(ch') && LedgerOf(ch'.our) == LedgerOf(ch.our) && LedgerOf(ch'.partner) == LedgerOf(ch.partner)
  {
    RegisterOnchainSecretKeepsInv(ch.our, secret, s, revealBlock);
    RegisterOnchainSecretKeepsInv(ch.partner, secret, s, revealBlock);
  }

  // ---------------------------------------------------------------- the rest of the node

  /** Everything of an end except what the chain decides: its deposit and its settled locksroot. */
  ghost predicate SameButChain(e: EndState, f: EndState) {
    f.(contractBalance := e.contractBalance, onchainLocksroot := e.onchainLocksroot) == e
  }

  lemma SameButChainKeepsInv(e: EndState, f: EndState)
    requires SameButChain(e, f) && EndInv(e)
    ensures EndInv(f) && LedgerOf(f) == LedgerOf(e) && AmountLocked(f) == AmountLocked(e)
    ensures f.address == e.address && f.merkletree == e.merkletree && f.balanceProof == e.balanceProof
  {
  }

  lemma {:induction false} DepositsTouchOnlyDeposits(ch: Channel, blockNumber: nat)
    ensures var ch' := ApplyConfirmedDeposits(ch, blockNumber);
      && ch' == ch.(our := ch'.our, partner := ch'.partner, depositQueue := ch'.depositQueue)
      && SameButChain(ch.our, ch'.our) && SameButChain(ch.partner, ch'.partner)
      && ch.our.contractBalance <= ch'.our.contractBalance
      && ch.partner.contractBalance <= ch'.partner.contractBalance
      && ch'.our.onchainLocksroot == ch.our.onchainLocksroot
      && ch'.partner.onchainLocksroot == ch.partner.onchainLocksroot
    decreases |ch.depositQueue|
  {
    if IsDepositConfirmed(ch, blockNumber) {
      var popped := ch.(depositQueue := ch.depositQueue[1..]);
      DepositsTouchOnlyDeposits(ApplyNewBalance(popped, ch.depositQueue[0]), blockNumber);
    }
  }

  ghost predicate OnlyChainDataChanged(ch: Channel, ch': Channel) {
    && SameButChain(ch.our, ch'.our) && SameButChain(ch.partner, ch'.partner)
    && ch.our.contractBalance <= ch'.our.contractBalance
    && ch.partner.contractBalance <= ch'.partner.contractBalance
    && ch'.id == ch.id && ch'.settleTimeout == ch.settleTimeout
  }

  lemma HandleBlockEffect(ch: Channel, number: BlockNumber, blockNumber: BlockNumber)
    ensures var r := HandleBlock(ch, number, blockNumber).newState;
      && r.Some? && OnlyChainDataChanged(ch, r.value)
      && r.value.closeTx == ch.closeTx && r.value.updateTx == ch.updateTx
      && r.value.settleTx ==
           (if number == blockNumber && SettlementEnded(ch, blockNumber) then Some(TxStatus(Some(blockNumber), None, None)) else ch.settleTx)
  {
    DepositsTouchOnlyDeposits(ch, blockNumber);
    DepositsTouchOnlyDeposits(ch.(settleTx := Some(TxStatus(Some(blockNumber), None, None))), blockNumber);
  }

  /** No state change of the node alters what the ends owe each other. */
  lemma StateTransitionEffect(ch: Channel, change: StateChange, blockNumber: BlockNumber)
    ensures var r := StateTransition(ch, change, blockNumber).newState;
      r.Some? ==> OnlyChainDataChanged(ch, r.value)
  {
    if change.Block? {
      HandleBlockEffect(ch, change.number, blockNumber);
    }
  }

  lemma StateTransitionKeepsInv(ch: Channel, change: StateChange, blockNumber: BlockNumber)
    requires ChannelInv(ch)
    ensures var r := StateTransition(ch, change, blockNumber).newState;
      r.Some? ==> ChannelInv(r.value)
  {
    var r := StateTransition(ch, change, blockNumber).newState;
    StateTransitionEffect(ch, change, blockNumber);
    if r.Some? {
      SameButChainKeepsInv(ch.our, r.value.our);
      SameButChainKeepsInv(ch.partner, r.value.partner);
      StateTransitionKeepsTxInv(ch, change, blockNumber);
    }
  }

  lemma StateTransitionKeepsTxInv(ch: Channel, change: StateChange, blockNumber: BlockNumber)
    requires TxInv(ch.closeTx) && TxInv(ch.settleTx)
    ensures var r := StateTransition(ch, change, blockNumber).newState;
      r.Some? ==> TxInv(r.value.closeTx) && TxInv(r.value.settleTx)
  {
    if change.Block? {
      HandleBlockEffect(ch, change.number, blockNumber);
    }
  }
}
