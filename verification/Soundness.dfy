/**
  What holds of a channel whatever its node does and whatever messages arrive, also when secret hashes
  are used twice: the dictionaries may then lose a lock, but neither end can spend more than it has.
 */
module Soundness {
  import opened Wrappers
  import opened BigEndian
  import opened Hashes
  import opened MerkleTree
  import opened Locks
  import opened ChannelState
  import opened EndStateInvariant
  import opened ChannelInvariant

  ghost predicate KeyedLocks(e: EndState) {
    WellKeyed(e.lockedLocks) && WellKeyed(LocksOf(e.unlockedLocks)) && WellKeyed(LocksOf(e.onchainLocks))
  }

  ghost predicate NoLocks(e: EndState) {
    e.lockedLocks == map[] && e.unlockedLocks == map[] && e.onchainLocks == map[]
  }

  /** An end whose tree is a tree, whose proof states its root, and whose amounts a proof can state. */
  ghost predicate SoundEnd(e: EndState) {
    && KeyedLocks(e)
    && IsTreeOf(Below, e.merkletree, Elements(Leaves(e.merkletree)))
    && (e.balanceProof == None ==> NoLocks(e))
    && (e.balanceProof.Some? ==> e.balanceProof.value.locksroot == Root(e.merkletree))
    && Transferred(e) + AmountLocked(e) <= UINT256_MAX
  }

  ghost predicate Covers(leaves: set<Hash>, m: LockMap) {
    forall s :: s in m ==> LockHash(m[s]) in leaves
  }

  /** Every lock of the end is a leaf of the tree that its proof states, and the proof locks enough for all. */
  ghost predicate Backed(e: EndState) {
    var leaves := Elements(Leaves(e.merkletree));
    && Covers(leaves, e.lockedLocks) && Covers(leaves, LocksOf(e.unlockedLocks)) && Covers(leaves, LocksOf(e.onchainLocks))
    && (e.balanceProof.Some? ==> AmountLocked(e) <= e.balanceProof.value.lockedAmount)
  }

  ghost predicate Solid(ch: Channel) {
    && SoundEnd(ch.our) && SoundEnd(ch.partner) && Backed(ch.partner)
    && Solvent(ch)
    && TxInv(ch.closeTx) && TxInv(ch.settleTx)
    && ch.our.address != ch.partner.address
  }

  /** The partner's stored proof, as the contract takes it: signed by the partner, for this channel, in range. */
  ghost predicate Usable(ch: Channel) {
    ch.partner.balanceProof.Some? ==>
      var proof := ch.partner.balanceProof.value;
      && proof.signature == RecoversTo(ch.partner.address) && proof.id == ch.id
      && proof.transferredAmount + proof.lockedAmount <= UINT256_MAX
  }

  /** Solid books, and a proof that makes the partner's side of them enforceable. */
  ghost predicate Sound(ch: Channel) {
    Solid(ch) && Usable(ch)
  }

  // ---------------------------------------------------------------- where it starts

  lemma NewChannelIsSolid(id: CanonicalIdentifier, settleTimeout: nat, fee: nat, us: Address, ourDeposit: nat,
                          them: Address, theirDeposit: nat)
    requires us != them
    ensures Solid(NewChannel(id, settleTimeout, fee, NewEndState(us, ourDeposit), NewEndState(them, theirDeposit)))
  {
    NewChannelInv(id, settleTimeout, fee, us, ourDeposit, them, theirDeposit);
    InvIsSolid(NewChannel(id, settleTimeout, fee, NewEndState(us, ourDeposit), NewEndState(them, theirDeposit)));
  }

  lemma NothingPending(e: EndState)
    requires Pending(e) == map[]
    ensures NoLocks(e)
  {
    assert forall s :: s in e.lockedLocks ==> s in Pending(e);
    assert forall s :: s in LocksOf(e.unlockedLocks) ==> s in Pending(e);
    assert forall s :: s in LocksOf(e.onchainLocks) ==> s in Pending(e);
    assert forall s :: s in e.unlockedLocks ==> s in LocksOf(e.unlockedLocks);
    assert forall s :: s in e.onchainLocks ==> s in LocksOf(e.onchainLocks);
  }

  /** What each dictionary holds is pending, as the same lock. */
  lemma HeldIsPending(e: EndState)
    requires DisjointDictionaries(e)
    ensures forall s :: s in e.lockedLocks ==> s in Pending(e) && Pending(e)[s] == e.lockedLocks[s]
    ensures forall s :: s in LocksOf(e.unlockedLocks) ==> s in Pending(e) && Pending(e)[s] == LocksOf(e.unlockedLocks)[s]
    ensures forall s :: s in LocksOf(e.onchainLocks) ==> s in Pending(e) && Pending(e)[s] == LocksOf(e.onchainLocks)[s]
  {
  }

  lemma EndInvIsSound(e: EndState)
    requires EndInv(e)
    ensures SoundEnd(e) && Backed(e)
  {
    HeldIsPending(e);
    assert KeyedLocks(e);
    var leaves := Elements(Leaves(e.merkletree));
    assert leaves == LockHashes(Pending(e));
    assert Covers(leaves, Pending(e));
    if e.balanceProof == None {
      NothingPending(e);
    }
  }

  lemma InvIsSolid(ch: Channel)
    requires ChannelInv(ch)
    ensures Solid(ch)
  {
    EndInvIsSound(ch.our);
    EndInvIsSound(ch.partner);
  }

  // ---------------------------------------------------------------- one end

  lemma CurrentIsAmount(e: EndState)
    requires SoundEnd(e)
    ensures CurrentLocked(e) == AmountLocked(e)
  {
    assert LocksOf(map[]) == map[];
  }

  lemma TreeAfterWith(t: MerkleTreeState, lock: HashTimeLock, tree: MerkleTreeState)
    requires IsTreeOf(Below, t, Elements(Leaves(t)))
    requires ComputeMerkletreeWith(Below, t, LockHash(lock)) == Some(tree)
    ensures Elements(Leaves(tree)) == Elements(Leaves(t)) + {LockHash(lock)}
    ensures IsTreeOf(Below, tree, Elements(Leaves(tree)))
  {
    BelowIsStrictTotalOrder();
    WithAddsLeaf(Below, t, Elements(Leaves(t)), LockHash(lock));
  }

  lemma TreeAfterWithout(t: MerkleTreeState, lock: HashTimeLock, tree: MerkleTreeState)
    requires IsTreeOf(Below, t, Elements(Leaves(t)))
    requires ComputeMerkletreeWithout(Below, t, LockHash(lock)) == Some(tree)
    ensures Elements(Leaves(tree)) == Elements(Leaves(t)) - {LockHash(lock)}
    ensures IsTreeOf(Below, tree, Elements(Leaves(tree)))
  {
    BelowIsStrictTotalOrder();
    WithoutRemovesLeaf(Below, t, Elements(Leaves(t)), LockHash(lock));
  }

  /** Registering a lock, whether or not its secret hash is in use. */
  lemma SoundWithLock(e: EndState, f: EndState, lock: HashTimeLock)
    requires SoundEnd(e) && AddsLock(e, f, lock)
    requires Transferred(e) + AmountLocked(e) + lock.amount <= UINT256_MAX
    ensures SoundEnd(f) && AmountLocked(f) <= AmountLocked(e) + lock.amount
    ensures Backed(e) ==> Backed(f)
  {
    CurrentIsAmount(e);
    TreeAfterWith(e.merkletree, lock, f.merkletree);
    SumSet(e.lockedLocks, lock.secrethash, lock);
  }

  lemma CoveredAfterRemoval(leaves: set<Hash>, m: LockMap, lock: HashTimeLock)
    requires WellKeyed(m) && Covers(leaves, m)
    ensures Covers(leaves - {LockHash(lock)}, m - {lock.secrethash})
  {
    forall s | s in m - {lock.secrethash} ensures LockHash(m[s]) in leaves - {LockHash(lock)} {
      LockHashIsInjective(m[s], lock);
    }
  }

  lemma LookupIsKeyed(e: EndState, s: SecretHash)
    requires KeyedLocks(e)
    ensures GetLock(e, s).Some? ==> GetLock(e, s).value.secrethash == s
    ensures GetUnclaimedLock(e, s).Some? ==> GetLock(e, s) == GetUnclaimedLock(e, s)
  {
    assert s in e.unlockedLocks ==> LocksOf(e.unlockedLocks)[s] == e.unlockedLocks[s].lock;
    assert s in e.onchainLocks ==> LocksOf(e.onchainLocks)[s] == e.onchainLocks[s].lock;
  }

  lemma LocksOfWithout(m: ProofMap, s: SecretHash)
    ensures LocksOf(m - {s}) == LocksOf(m) - {s}
  {
  }

  /** Removing every entry under a secret hash frees at least the lock that is looked up. */
  lemma DelLockFrees(e: EndState, s: SecretHash, lock: HashTimeLock)
    requires GetLock(e, s) == Some(lock)
    ensures AmountLocked(DelLock(e, s)) + lock.amount <= AmountLocked(e)
  {
    LocksOfWithout(e.unlockedLocks, s);
    LocksOfWithout(e.onchainLocks, s);
    SumSet(e.lockedLocks, s, lock);
    SumSet(LocksOf(e.unlockedLocks), s, lock);
    SumSet(LocksOf(e.onchainLocks), s, lock);
  }

  /** A lock that is claimed, for its amount, or dropped, for nothing. */
  ghost predicate RemovesLock(before: EndState, after: EndState, lock: HashTimeLock, claimed: nat) {
    && after.balanceProof.Some? && claimed <= lock.amount
    && GetLock(before, lock.secrethash) == Some(lock)
    && var proof := after.balanceProof.value;
    && after == DelLock(before.(balanceProof := Some(proof), merkletree := after.merkletree), lock.secrethash)
    && ComputeMerkletreeWithout(Below, before.merkletree, LockHash(lock)) == Some(after.merkletree)
    && proof.nonce == NextNonce(before) && proof.transferredAmount == Transferred(before) + claimed
    && proof.locksroot == Root(after.merkletree) && proof.lockedAmount == CurrentLocked(before) - lock.amount
  }

  lemma SoundWithoutLock(e: EndState, f: EndState, lock: HashTimeLock, claimed: nat)
    requires SoundEnd(e) && RemovesLock(e, f, lock, claimed)
    ensures SoundEnd(f) && AmountLocked(f) + lock.amount <= AmountLocked(e)
    ensures Backed(e) ==> Backed(f)
  {
    var s, leaves := lock.secrethash, Elements(Leaves(e.merkletree));
    CurrentIsAmount(e);
    TreeAfterWithout(e.merkletree, lock, f.merkletree);
    DelLockFrees(e, s, lock);
    LocksOfWithout(e.unlockedLocks, s);
    LocksOfWithout(e.onchainLocks, s);
    if Backed(e) {
      CoveredAfterRemoval(leaves, e.lockedLocks, lock);
      CoveredAfterRemoval(leaves, LocksOf(e.unlockedLocks), lock);
      CoveredAfterRemoval(leaves, LocksOf(e.onchainLocks), lock);
    }
  }

  /** The lock that a claim under `s` pays out: a locked one before an unlocked one before an on-chain one. */
  ghost predicate PaysOut(e: EndState, s: SecretHash, amount: int) {
    if s in e.lockedLocks then amount == e.lockedLocks[s].amount
    else if s in e.unlockedLocks then amount == e.unlockedLocks[s].lock.amount
    else s in e.onchainLocks && amount == e.onchainLocks[s].lock.amount
  }

  /** Also where a secret hash is in several dictionaries, an unlock pays one lock and removes them all. */
  lemma SentUnlockPays(ch: Channel, s: SecretHash)
    requires SendUnlock(ch, s).Success? && KeyedLocks(ch.our)
    ensures var our := SendUnlock(ch, s).value.0.our;
      PaysOut(ch.our, s, Transferred(our) - Transferred(ch.our)) && !IsLockPending(our, s)
  {
    LookupIsKeyed(ch.our, s);
  }

  lemma ReceivedUnlockPays(ch: Channel, proof: BalanceProof, s: SecretHash)
    requires HandleUnlock(ch, proof, s).events == [SendProcessed]
    ensures var partner := HandleUnlock(ch, proof, s).newState.value.partner;
      PaysOut(ch.partner, s, Transferred(partner) - Transferred(ch.partner)) && !IsLockPending(partner, s)
  {
  }

  /** Only the unclaimed entries go: what an expiry of our own does even to a lock known on-chain. */
  ghost predicate DropsUnclaimed(before: EndState, after: EndState, lock: HashTimeLock) {
    && after.balanceProof.Some?
    && var proof := after.balanceProof.value;
    && after == DelUnclaimedLock(before.(balanceProof := Some(proof), merkletree := after.merkletree), lock.secrethash)
    && ComputeMerkletreeWithout(Below, before.merkletree, LockHash(lock)) == Some(after.merkletree)
    && proof.nonce == NextNonce(before) && proof.transferredAmount == Transferred(before)
    && proof.locksroot == Root(after.merkletree)
  }

  lemma SoundWithoutUnclaimed(e: EndState, f: EndState, lock: HashTimeLock)
    requires SoundEnd(e) && DropsUnclaimed(e, f, lock)
    ensures SoundEnd(f) && AmountLocked(f) <= AmountLocked(e)
  {
    var s := lock.secrethash;
    TreeAfterWithout(e.merkletree, lock, f.merkletree);
    LocksOfWithout(e.unlockedLocks, s);
    SumSet(e.lockedLocks, s, lock);
    SumSet(LocksOf(e.unlockedLocks), s, lock);
  }

  ghost predicate SameProof(e: EndState, f: EndState) {
    && f.balanceProof == e.balanceProof && f.merkletree == e.merkletree
    && f.address == e.address && f.contractBalance == e.contractBalance
  }

  lemma SoundWithSecret(e: EndState, secret: Secret, s: SecretHash)
    requires SoundEnd(e)
    ensures var f := RegisterSecretEndState(e, secret, s);
      && SoundEnd(f) && AmountLocked(f) <= AmountLocked(e) && SameProof(e, f)
      && (Backed(e) ==> Backed(f))
  {
    if s in e.lockedLocks {
      var lock := e.lockedLocks[s];
      var proof := UnlockPartialProof(lock, secret);
      assert LocksOf(e.unlockedLocks[s := proof]) == LocksOf(e.unlockedLocks)[s := lock];
      SumSet(e.lockedLocks, s, lock);
      SumSet(LocksOf(e.unlockedLocks), s, lock);
    }
  }

  lemma OnchainSecretMoves(e: EndState, secret: Secret, s: SecretHash, revealBlock: nat) returns (lock: HashTimeLock)
    requires RegisterOnchainSecretEndState(e, secret, s, revealBlock) != e
    ensures GetUnclaimedLock(e, s).Some?
    ensures if s in e.unlockedLocks then LocksOf(e.unlockedLocks)[s] == lock else s in e.lockedLocks && e.lockedLocks[s] == lock
    ensures var f := RegisterOnchainSecretEndState(e, secret, s, revealBlock);
      && SameProof(e, f)
      && f.lockedLocks == e.lockedLocks - {s} && LocksOf(f.unlockedLocks) == LocksOf(e.unlockedLocks) - {s}
      && LocksOf(f.onchainLocks) == LocksOf(e.onchainLocks)[s := lock]
  {
    var f := RegisterOnchainSecretEndState(e, secret, s, revealBlock);
    lock := if s in e.unlockedLocks then e.unlockedLocks[s].lock else e.lockedLocks[s];
    LocksOfWithout(e.unlockedLocks, s);
    assert f.onchainLocks == e.onchainLocks[s := UnlockPartialProof(lock, secret)];
  }

  lemma OnchainSecretFrees(e: EndState, f: EndState, s: SecretHash, lock: HashTimeLock)
    requires if s in e.unlockedLocks then LocksOf(e.unlockedLocks)[s] == lock else s in e.lockedLocks && e.lockedLocks[s] == lock
    requires f.lockedLocks == e.lockedLocks - {s} && LocksOf(f.unlockedLocks) == LocksOf(e.unlockedLocks) - {s}
    requires LocksOf(f.onchainLocks) == LocksOf(e.onchainLocks)[s := lock]
    ensures AmountLocked(f) <= AmountLocked(e)
  {
    SumSet(e.lockedLocks, s, lock);
    SumSet(LocksOf(e.unlockedLocks), s, lock);
    SumSet(LocksOf(e.onchainLocks), s, lock);
  }

  lemma SoundWithOnchainSecret(e: EndState, secret: Secret, s: SecretHash, revealBlock: nat)
    requires SoundEnd(e)
    ensures var f := RegisterOnchainSecretEndState(e, secret, s, revealBlock);
      && SoundEnd(f) && AmountLocked(f) <= AmountLocked(e) && SameProof(e, f)
      && (Backed(e) ==> Backed(f))
  {
    var f := RegisterOnchainSecretEndState(e, secret, s, revealBlock);
    if f != e {
      var lock := OnchainSecretMoves(e, secret, s, revealBlock);
      OnchainSecretFrees(e, f, s, lock);
      SoundAfterMove(e, f, s, lock);
    }
  }

  lemma SoundAfterMove(e: EndState, f: EndState, s: SecretHash, lock: HashTimeLock)
    requires SoundEnd(e) && SameProof(e, f) && AmountLocked(f) <= AmountLocked(e)
    requires if s in e.unlockedLocks then LocksOf(e.unlockedLocks)[s] == lock else s in e.lockedLocks && e.lockedLocks[s] == lock
    requires f.lockedLocks == e.lockedLocks - {s} && LocksOf(f.unlockedLocks) == LocksOf(e.unlockedLocks) - {s}
    requires LocksOf(f.onchainLocks) == LocksOf(e.onchainLocks)[s := lock]
    ensures SoundEnd(f) && (Backed(e) ==> Backed(f))
  {
    assert lock.secrethash == s;
    assert e.balanceProof.Some?;
  }

  lemma SoundButChain(e: EndState, f: EndState)
    requires SoundEnd(e) && SameButChain(e, f)
    ensures SoundEnd(f) && AmountLocked(f) == AmountLocked(e) && (Backed(e) ==> Backed(f))
    ensures f.balanceProof == e.balanceProof && f.merkletree == e.merkletree && f.address == e.address
  {
  }
}
