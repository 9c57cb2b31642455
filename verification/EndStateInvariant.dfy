/**
  What holds of one end of a channel in every reachable state: the three dictionaries, the merkle tree
  and the balance proof all tell the same story about the pending locks.
 */
module EndStateInvariant {
  import opened Wrappers
  import opened BigEndian
  import opened Hashes
  import opened MerkleTree
  import opened Locks
  import opened ChannelState

  ghost predicate DisjointDictionaries(e: EndState) {
    && e.lockedLocks.Keys !! e.unlockedLocks.Keys
    && e.lockedLocks.Keys !! e.onchainLocks.Keys
    && e.unlockedLocks.Keys !! e.onchainLocks.Keys
  }

  ghost predicate TreeMatchesLocks(e: EndState) {
    && WellKeyed(Pending(e))
    && IsTreeOf(Below, e.merkletree, LockHashes(Pending(e)))
  }

  ghost predicate ProofMatchesLocks(e: EndState) {
    match e.balanceProof
    case None => Pending(e) == map[]
    case Some(proof) => proof.locksroot == Root(e.merkletree) && proof.lockedAmount == AmountLocked(e)
  }

  ghost predicate EndInv(e: EndState) {
    && DisjointDictionaries(e)
    && TreeMatchesLocks(e)
    && ProofMatchesLocks(e)
    && Transferred(e) + AmountLocked(e) <= UINT256_MAX
  }

  lemma NewEndStateInv(address: Address, balance: nat)
    ensures EndInv(NewEndState(address, balance))
  {
    var e := NewEndState(address, balance);
    assert Pending(e) == map[] && LocksOf(map[]) == map[];
    assert LockHashes(Pending(e)) == {};
  }

  lemma AmountIsSumOfPending(e: EndState)
    requires DisjointDictionaries(e)
    ensures AmountLocked(e) == SumAmounts(Pending(e))
  {
    SumUnion(e.lockedLocks, LocksOf(e.unlockedLocks));
    SumUnion(e.lockedLocks + LocksOf(e.unlockedLocks), LocksOf(e.onchainLocks));
  }

  lemma GetLockIsPending(e: EndState, s: SecretHash)
    requires DisjointDictionaries(e)
    ensures IsLockPending(e, s) <==> s in Pending(e)
    ensures GetLock(e, s) == if s in Pending(e) then Some(Pending(e)[s]) else None
  {
  }

  lemma SameLocksSamePending(e: EndState, f: EndState)
    requires DisjointDictionaries(e) && DisjointDictionaries(f)
    requires forall s :: GetLock(f, s) == GetLock(e, s)
    ensures Pending(f) == Pending(e)
  {
    forall s ensures (s in Pending(f) <==> s in Pending(e)) && (s in Pending(e) ==> Pending(f)[s] == Pending(e)[s]) {
      GetLockIsPending(e, s);
      GetLockIsPending(f, s);
      assert GetLock(f, s) == GetLock(e, s);
    }
  }

  /** Moving a lock between dictionaries is invisible to the tree, the proof and the amounts. */
  lemma SamePendingKeepsInv(e: EndState, f: EndState)
    requires EndInv(e) && DisjointDictionaries(f) && Pending(f) == Pending(e)
    requires f.merkletree == e.merkletree && f.balanceProof == e.balanceProof
    ensures EndInv(f) && AmountLocked(f) == AmountLocked(e)
  {
    AmountIsSumOfPending(e);
    AmountIsSumOfPending(f);
  }

  // The tree operations on the tree of a dictionary of locks.

  lemma TreeWithLock(t: MerkleTreeState, m: LockMap, lock: HashTimeLock)
    requires WellKeyed(m) && IsTreeOf(Below, t, LockHashes(m))
    ensures var r := ComputeMerkletreeWith(Below, t, LockHash(lock));
      && (r == None <==> lock.secrethash in m && m[lock.secrethash] == lock)
      && (r.Some? ==> IsTreeOf(Below, r.value, LockHashes(m) + {LockHash(lock)}))
      && (lock.secrethash !in m ==> r.Some? && IsTreeOf(Below, r.value, LockHashes(m[lock.secrethash := lock])))
  {
    BelowIsStrictTotalOrder();
    WithAddsLeaf(Below, t, LockHashes(m), LockHash(lock));
    LockHashOf(m, lock);
    if lock.secrethash !in m {
      LockHashesAdd(m, lock);
    }
  }

  lemma TreeWithoutLock(t: MerkleTreeState, m: LockMap, lock: HashTimeLock)
    requires WellKeyed(m) && IsTreeOf(Below, t, LockHashes(m))
    ensures var r := ComputeMerkletreeWithout(Below, t, LockHash(lock));
      && (r.Some? <==> lock.secrethash in m && m[lock.secrethash] == lock)
      && (r.Some? ==> IsTreeOf(Below, r.value, LockHashes(m - {lock.secrethash})))
  {
    BelowIsStrictTotalOrder();
    WithoutRemovesLeaf(Below, t, LockHashes(m), LockHash(lock));
    LockHashOf(m, lock);
    if lock.secrethash in m && m[lock.secrethash] == lock {
      LockHashesRemove(m, lock.secrethash);
    }
  }

  // ---------------------------------------------------------------- a new lock

  lemma AddLockPending(e: EndState, proof: BalanceProof, tree: MerkleTreeState, lock: HashTimeLock)
    requires DisjointDictionaries(e) && lock.secrethash !in Pending(e)
    ensures DisjointDictionaries(AddLock(e, proof, tree, lock))
    ensures Pending(AddLock(e, proof, tree, lock)) == Pending(e)[lock.secrethash := lock]
    ensures AmountLocked(AddLock(e, proof, tree, lock)) == AmountLocked(e) + lock.amount
  {
    UnionWith(e.lockedLocks, LocksOf(e.unlockedLocks), lock);
    UnionWith(e.lockedLocks + LocksOf(e.unlockedLocks), LocksOf(e.onchainLocks), lock);
    SumAdd(e.lockedLocks, lock.secrethash, lock);
  }

  lemma UnionWith(m: LockMap, n: LockMap, lock: HashTimeLock)
    requires lock.secrethash !in n
    ensures m[lock.secrethash := lock] + n == (m + n)[lock.secrethash := lock]
  {
  }

  lemma AddLockKeepsInv(e: EndState, proof: BalanceProof, tree: MerkleTreeState, lock: HashTimeLock)
    requires EndInv(e) && lock.secrethash !in Pending(e)
    requires ComputeMerkletreeWith(Below, e.merkletree, LockHash(lock)) == Some(tree)
    requires proof.locksroot == Root(tree) && proof.lockedAmount == AmountLocked(e) + lock.amount
    requires proof.transferredAmount + proof.lockedAmount <= UINT256_MAX
    ensures EndInv(AddLock(e, proof, tree, lock))
    ensures Pending(AddLock(e, proof, tree, lock)) == Pending(e)[lock.secrethash := lock]
    ensures AmountLocked(AddLock(e, proof, tree, lock)) == AmountLocked(e) + lock.amount
  {
    AddLockPending(e, proof, tree, lock);
    TreeWithLock(e.merkletree, Pending(e), lock);
  }

  /** A second lock under a secret hash that is still pending always breaks the invariant. */
  lemma AddLockBreaksInv(e: EndState, proof: BalanceProof, tree: MerkleTreeState, lock: HashTimeLock)
    requires EndInv(e) && lock.secrethash in Pending(e)
    requires ComputeMerkletreeWith(Below, e.merkletree, LockHash(lock)) == Some(tree)
    ensures !EndInv(AddLock(e, proof, tree, lock))
  {
    var f := AddLock(e, proof, tree, lock);
    var kept := Pending(e)[lock.secrethash];
    TreeWithLock(e.merkletree, Pending(e), lock);
    LockHashOf(Pending(e), kept);
    assert LockHash(kept) in LockHashes(Pending(e)) + {LockHash(lock)};
    if DisjointDictionaries(f) && TreeMatchesLocks(f) {
      GetLockIsPending(f, lock.secrethash);
      assert Pending(f)[lock.secrethash] == lock != kept;
      LockHashOf(Pending(f), kept);
      assert false;
    }
  }

  // ---------------------------------------------------------------- a claimed or expired lock

  lemma PendingAfterDelLock(e: EndState, s: SecretHash)
    ensures Pending(DelLock(e, s)) == Pending(e) - {s}
  {
    assert LocksOf(e.unlockedLocks - {s}) == LocksOf(e.unlockedLocks) - {s};
    assert LocksOf(e.onchainLocks - {s}) == LocksOf(e.onchainLocks) - {s};
    UnionWithout(e.lockedLocks, LocksOf(e.unlockedLocks), s);
    UnionWithout(e.lockedLocks + LocksOf(e.unlockedLocks), LocksOf(e.onchainLocks), s);
  }

  lemma UnionWithout(m: LockMap, n: LockMap, s: SecretHash)
    ensures (m + n) - {s} == (m - {s}) + (n - {s})
  {
  }

  lemma DelLockPending(e: EndState, s: SecretHash)
    requires DisjointDictionaries(e) && s in Pending(e)
    ensures DisjointDictionaries(DelLock(e, s))
    ensures Pending(DelLock(e, s)) == Pending(e) - {s}
    ensures AmountLocked(DelLock(e, s)) == AmountLocked(e) - Pending(e)[s].amount
  {
    var f := DelLock(e, s);
    PendingAfterDelLock(e, s);
    AmountIsSumOfPending(e);
    AmountIsSumOfPending(f);
    SumRemove(Pending(e), s);
  }

  lemma DelLockKeepsInv(e: EndState, proof: BalanceProof, tree: MerkleTreeState, s: SecretHash)
    requires EndInv(e) && s in Pending(e)
    requires ComputeMerkletreeWithout(Below, e.merkletree, LockHash(Pending(e)[s])) == Some(tree)
    requires proof.locksroot == Root(tree) && proof.lockedAmount == AmountLocked(e) - Pending(e)[s].amount
    requires proof.transferredAmount + proof.lockedAmount <= UINT256_MAX
    ensures var f := DelLock(e.(balanceProof := Some(proof), merkletree := tree), s);
      && EndInv(f)
      && Pending(f) == Pending(e) - {s}
      && AmountLocked(f) == AmountLocked(e) - Pending(e)[s].amount
  {
    DelLockPending(e.(balanceProof := Some(proof), merkletree := tree), s);
    TreeWithoutLock(e.merkletree, Pending(e), Pending(e)[s]);
  }

  lemma DelUnclaimedIsDelLock(e: EndState, s: SecretHash)
    requires s !in e.onchainLocks
    ensures DelUnclaimedLock(e, s) == DelLock(e, s)
  {
    assert e.onchainLocks - {s} == e.onchainLocks;
  }

  /** A lock's leaf is in the tree exactly when the lock itself is pending. */
  lemma LeafIffPending(e: EndState, lock: HashTimeLock)
    requires EndInv(e)
    ensures ComputeMerkletreeWithout(Below, e.merkletree, LockHash(lock)).Some?
       <==> lock.secrethash in Pending(e) && Pending(e)[lock.secrethash] == lock
    ensures ComputeMerkletreeWith(Below, e.merkletree, LockHash(lock)).None?
       <==> lock.secrethash in Pending(e) && Pending(e)[lock.secrethash] == lock
  {
    TreeWithLock(e.merkletree, Pending(e), lock);
    TreeWithoutLock(e.merkletree, Pending(e), lock);
  }

  /** Letting a lock expire although its secret is in the on-chain dictionary breaks the invariant. */
  lemma ExpiringOnchainLockBreaksInv(e: EndState, proof: BalanceProof, tree: MerkleTreeState, s: SecretHash)
    requires EndInv(e) && s in e.onchainLocks
    requires ComputeMerkletreeWithout(Below, e.merkletree, LockHash(Pending(e)[s])) == Some(tree)
    ensures !EndInv(DelUnclaimedLock(e.(balanceProof := Some(proof), merkletree := tree), s))
  {
    var f := DelUnclaimedLock(e.(balanceProof := Some(proof), merkletree := tree), s);
    var lock := Pending(e)[s];
    TreeWithoutLock(e.merkletree, Pending(e), lock);
    LockHashOf(Pending(e) - {s}, lock);
    if EndInv(f) {
      LockHashOf(Pending(f), lock);
      assert false;
    }
  }

  // ---------------------------------------------------------------- secrets

  /** Only what is filed under `s` in the three dictionaries may differ. */
  ghost predicate OnlyAt(e: EndState, f: EndState, s: SecretHash) {
    && f.(lockedLocks := e.lockedLocks, unlockedLocks := e.unlockedLocks, onchainLocks := e.onchainLocks) == e
    && f.lockedLocks - {s} == e.lockedLocks - {s}
    && f.unlockedLocks - {s} == e.unlockedLocks - {s}
    && f.onchainLocks - {s} == e.onchainLocks - {s}
  }

  /** What an end does with a secret: a locked lock becomes an unlocked one that keeps the secret. */
  ghost predicate Learns(e: EndState, f: EndState, secret: Secret, s: SecretHash) {
    if s in e.lockedLocks then
      && OnlyAt(e, f, s) && f.onchainLocks == e.onchainLocks && s !in f.lockedLocks
      && s in f.unlockedLocks && f.unlockedLocks[s].lock == e.lockedLocks[s] && f.unlockedLocks[s].secret == secret
    else f == e
  }

  lemma LearningMovesLock(e: EndState, secret: Secret, s: SecretHash)
    ensures Learns(e, RegisterSecretEndState(e, secret, s), secret, s)
  {
  }

  /**
    What an end does with a reveal: an unclaimed lock, the unlocked one before the locked one, that was
    revealed up to its expiration becomes an on-chain one that keeps the secret, and is nowhere else.
   */
  ghost predicate TakesReveal(e: EndState, f: EndState, secret: Secret, s: SecretHash, revealBlock: nat) {
    var unclaimed := s in e.unlockedLocks || s in e.lockedLocks;
    if unclaimed && revealBlock <= (if s in e.unlockedLocks then e.unlockedLocks[s].lock else e.lockedLocks[s]).expiration then
      && OnlyAt(e, f, s) && s !in f.lockedLocks && s !in f.unlockedLocks
      && s in f.onchainLocks && f.onchainLocks[s].secret == secret
      && f.onchainLocks[s].lock == (if s in e.unlockedLocks then e.unlockedLocks[s].lock else e.lockedLocks[s])
    else f == e
  }

  lemma RevealMovesLock(e: EndState, secret: Secret, s: SecretHash, revealBlock: nat)
    ensures TakesReveal(e, RegisterOnchainSecretEndState(e, secret, s, revealBlock), secret, s, revealBlock)
  {
    var f := RegisterOnchainSecretEndState(e, secret, s, revealBlock);
    if f != e {
      assert f.onchainLocks - {s} == e.onchainLocks - {s};
    }
  }

  lemma RegisterSecretPending(e: EndState, secret: Secret, s: SecretHash)
    requires DisjointDictionaries(e)
    ensures DisjointDictionaries(RegisterSecretEndState(e, secret, s))
    ensures Pending(RegisterSecretEndState(e, secret, s)) == Pending(e)
  {
    var f := RegisterSecretEndState(e, secret, s);
    forall t ensures GetLock(f, t) == GetLock(e, t) {
    }
    SameLocksSamePending(e, f);
  }

  lemma RegisterSecretKeepsInv(e: EndState, secret: Secret, s: SecretHash)
    requires EndInv(e)
    ensures var f := RegisterSecretEndState(e, secret, s);
      EndInv(f) && Pending(f) == Pending(e) && AmountLocked(f) == AmountLocked(e)
  {
    RegisterSecretPending(e, secret, s);
    SamePendingKeepsInv(e, RegisterSecretEndState(e, secret, s));
  }

  lemma RegisterOnchainSecretPending(e: EndState, secret: Secret, s: SecretHash, revealBlock: nat)
    requires DisjointDictionaries(e)
    ensures DisjointDictionaries(RegisterOnchainSecretEndState(e, secret, s, revealBlock))
    ensures Pending(RegisterOnchainSecretEndState(e, secret, s, revealBlock)) == Pending(e)
  {
    var f := RegisterOnchainSecretEndState(e, secret, s, revealBlock);
    forall t ensures GetLock(f, t) == GetLock(e, t) {
    }
    SameLocksSamePending(e, f);
  }

  lemma RegisterOnchainSecretKeepsInv(e: EndState, secret: Secret, s: SecretHash, revealBlock: nat)
    requires EndInv(e)
    ensures var f := RegisterOnchainSecretEndState(e, secret, s, revealBlock);
      EndInv(f) && Pending(f) == Pending(e) && AmountLocked(f) == AmountLocked(e)
  {
    RegisterOnchainSecretPending(e, secret, s, revealBlock);
    SamePendingKeepsInv(e, RegisterOnchainSecretEndState(e, secret, s, revealBlock));
  }

  /** Without `delete_lock` the invariant survives exactly when the reveal moves no lock. */
  lemma KeepingTheLockKeepsInvIff(e: EndState, secret: Secret, s: SecretHash, revealBlock: nat)
    requires EndInv(e)
    ensures EndInv(RegisterOnchainSecretEndState(e, secret, s, revealBlock, false))
       <==> GetUnclaimedLock(e, s) == None || GetUnclaimedLock(e, s).value.expiration < revealBlock
  {
  }
}
