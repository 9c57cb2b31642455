/**
  The proof for unlocking every pending lock on-chain (raiden/transfer/channel.py, get_batch_unlock):
  the locks in leaf order, packed, from which the contract recomputes the leaves and the root.
 */
module BatchUnlock {
  import opened Wrappers
  import opened BigEndian
  import opened Hashes
  import opened MerkleTree
  import opened Locks
  import opened ChannelState
  import opened EndStateInvariant
  import opened Soundness

  lemma LockHashIsInjectiveEverywhere()
    ensures forall a: HashTimeLock, b: HashTimeLock :: LockHash(a) == LockHash(b) ==> a == b
  {
    forall a: HashTimeLock, b: HashTimeLock ensures LockHash(a) == LockHash(b) ==> a == b {
      LockHashIsInjective(a, b);
    }
  }

  function ByLockHash(m: LockMap): map<Hash, HashTimeLock> {
    LockHashIsInjectiveEverywhere();
    map s | s in m :: LockHash(m[s]) := m[s]
  }

  function LockHashesToLocks(e: EndState): map<Hash, HashTimeLock> {
    ByLockHash(e.lockedLocks) + ByLockHash(LocksOf(e.unlockedLocks)) + ByLockHash(LocksOf(e.onchainLocks))
  }

  /** The lock of each leaf, in order; a leaf without a lock is a failed dictionary lookup. */
  function OrderedLocks(leaves: seq<Hash>, locks: map<Hash, HashTimeLock>): Option<seq<HashTimeLock>> {
    if leaves == [] then Some([])
    else if leaves[0] !in locks then None
    else
      match OrderedLocks(leaves[1..], locks)
      case None => None
      case Some(rest) => Some([locks[leaves[0]]] + rest)
  }

  /** `None` when nothing is pending, otherwise the lookup of every leaf. */
  function GetBatchUnlock(e: EndState): Option<Option<seq<HashTimeLock>>> {
    if Leaves(e.merkletree) == [] then None
    else Some(OrderedLocks(Leaves(e.merkletree), LockHashesToLocks(e)))
  }

  function Pack(locks: seq<HashTimeLock>): (packed: seq<Byte>)
    ensures |packed| == LOCK_SIZE * |locks|
  {
    if locks == [] then [] else EncodeLock(locks[0]) + Pack(locks[1..])
  }

  function ChunkHashes(data: seq<Byte>): seq<Hash> {
    if |data| <= LOCK_SIZE then (if data == [] then [] else [Sha3(data)])
    else [Sha3(data[..LOCK_SIZE])] + ChunkHashes(data[LOCK_SIZE..])
  }

  /** Hashes the packed data in steps of 96 bytes; the last chunk may be shorter. */
  method MerkleLeavesFromPackedData(packedData: seq<Byte>) returns (leaves: seq<Hash>)
    ensures leaves == ChunkHashes(packedData)
  {
    leaves := [];
    var i := 0;
    assert packedData[i..] == packedData;
    while i < |packedData|
      invariant 0 <= i
      invariant leaves + ChunkHashes(packedData[ChunkEnd(packedData, i)..]) == ChunkHashes(packedData)
    {
      ChunkStep(packedData, i);
      leaves := leaves + [Sha3(packedData[i..ChunkEnd(packedData, i + LOCK_SIZE)])];
      i := i + LOCK_SIZE;
    }
    assert packedData[|packedData|..] == [];
  }

  /** Python slices stop at the end of the data. */
  function ChunkEnd(data: seq<Byte>, i: nat): (end: nat)
    ensures end <= |data| && (i <= |data| ==> i <= end)
  {
    if i <= |data| then i else |data|
  }

  lemma ChunkStep(data: seq<Byte>, i: nat)
    requires i < |data|
    ensures ChunkHashes(data[i..])
         == [Sha3(data[i..ChunkEnd(data, i + LOCK_SIZE)])] + ChunkHashes(data[ChunkEnd(data, i + LOCK_SIZE)..])
  {
    var rest, end := data[i..], ChunkEnd(data, i + LOCK_SIZE);
    if |rest| <= LOCK_SIZE {
      assert data[i..end] == rest && data[end..] == [];
    } else {
      assert rest[..LOCK_SIZE] == data[i..end];
      assert rest[LOCK_SIZE..] == data[end..];
    }
  }

  // ---------------------------------------------------------------- every leaf has its lock

  lemma ByLockHashFinds(m: LockMap, s: SecretHash)
    requires s in m
    ensures LockHash(m[s]) in ByLockHash(m) && ByLockHash(m)[LockHash(m[s])] == m[s]
  {
    LockHashIsInjectiveEverywhere();
  }

  lemma ByLockHashIsSound(m: LockMap, h: Hash)
    requires h in ByLockHash(m)
    ensures LockHash(ByLockHash(m)[h]) == h
  {
    LockHashIsInjectiveEverywhere();
  }

  ghost predicate HoldsLock(m: LockMap, h: Hash) {
    exists s :: s in m && LockHash(m[s]) == h
  }

  /** Some dictionary of the end still holds the lock of this leaf. */
  ghost predicate HasLock(e: EndState, h: Hash) {
    HoldsLock(e.lockedLocks, h) || HoldsLock(LocksOf(e.unlockedLocks), h) || HoldsLock(LocksOf(e.onchainLocks), h)
  }

  lemma ByLockHashIff(m: LockMap, h: Hash)
    ensures h in ByLockHash(m) <==> HoldsLock(m, h)
    ensures h in ByLockHash(m) ==> LockHash(ByLockHash(m)[h]) == h
  {
    LockHashIsInjectiveEverywhere();
    if HoldsLock(m, h) {
      var s :| s in m && LockHash(m[s]) == h;
      ByLockHashFinds(m, s);
    }
    if h in ByLockHash(m) {
      ByLockHashIsSound(m, h);
      var s :| s in m && LockHash(m[s]) == h;
    }
  }

  /** The lookup succeeds exactly for the leaves whose lock is still in some dictionary. */
  lemma LookupFinds(e: EndState, h: Hash)
    ensures h in LockHashesToLocks(e) <==> HasLock(e, h)
    ensures h in LockHashesToLocks(e) ==> LockHash(LockHashesToLocks(e)[h]) == h
  {
    ByLockHashIff(e.lockedLocks, h);
    ByLockHashIff(LocksOf(e.unlockedLocks), h);
    ByLockHashIff(LocksOf(e.onchainLocks), h);
  }

  lemma {:induction false} OrderedLocksIff(leaves: seq<Hash>, locks: map<Hash, HashTimeLock>)
    ensures OrderedLocks(leaves, locks) == None <==> exists h :: h in leaves && h !in locks
  {
    if leaves != [] {
      OrderedLocksIff(leaves[1..], locks);
      assert leaves == [leaves[0]] + leaves[1..];
    }
  }

  /** The lookup of a batch unlock fails exactly when some leaf has lost its lock. */
  lemma BatchUnlockFailsIff(e: EndState)
    ensures GetBatchUnlock(e) == Some(None) <==> exists h :: h in Leaves(e.merkletree) && !HasLock(e, h)
  {
    OrderedLocksIff(Leaves(e.merkletree), LockHashesToLocks(e));
    forall h ensures h in LockHashesToLocks(e) <==> HasLock(e, h) {
      LookupFinds(e, h);
    }
  }

  lemma {:induction false} OrderedLocksFound(leaves: seq<Hash>, locks: map<Hash, HashTimeLock>)
    requires forall h :: h in leaves ==> h in locks && LockHash(locks[h]) == h
    ensures var r := OrderedLocks(leaves, locks);
      && r.Some? && |r.value| == |leaves|
      && forall i :: 0 <= i < |leaves| ==> LockHash(r.value[i]) == leaves[i]
  {
    if leaves != [] {
      OrderedLocksFound(leaves[1..], locks);
    }
  }

  /** Packing loses nothing: the digests of the chunks are the lock hashes, in order. */
  lemma {:induction false} ChunksOfPacked(locks: seq<HashTimeLock>, leaves: seq<Hash>)
    requires |locks| == |leaves| && forall i :: 0 <= i < |locks| ==> LockHash(locks[i]) == leaves[i]
    ensures ChunkHashes(Pack(locks)) == leaves
  {
    if |locks| > 0 {
      var rest := Pack(locks[1..]);
      ChunksOfPacked(locks[1..], leaves[1..]);
      assert Pack(locks)[..LOCK_SIZE] == EncodeLock(locks[0]);
      assert Pack(locks)[LOCK_SIZE..] == rest;
      assert leaves == [leaves[0]] + leaves[1..];
      if |locks| == 1 {
        assert rest == [] && Pack(locks) == EncodeLock(locks[0]);
      }
    }
  }

  /**
    For any sound end: nothing is unlocked exactly when the tree is empty; and if no leaf has lost its
    lock, the leaves and the locksroot of the balance proof can be recomputed from the packed locks alone.
   */
  lemma BatchUnlockProvesLocksroot(e: EndState)
    requires SoundEnd(e)
    ensures GetBatchUnlock(e) == None <==> Leaves(e.merkletree) == []
    ensures Leaves(e.merkletree) != [] && (forall h :: h in Leaves(e.merkletree) ==> HasLock(e, h)) ==>
      && GetBatchUnlock(e).Some? && GetBatchUnlock(e).value.Some?
      && ChunkHashes(Pack(GetBatchUnlock(e).value.value)) == Leaves(e.merkletree)
      && e.balanceProof.Some?
      && e.balanceProof.value.locksroot == Root(Tree(Layers(Below, Leaves(e.merkletree))))
  {
    var leaves := Leaves(e.merkletree);
    EmptyIffNoElements(leaves);
    if leaves != [] && forall h :: h in leaves ==> HasLock(e, h) {
      assert HasLock(e, leaves[0]);
      NoLocksNoProof(e, leaves[0]);
      forall h | h in leaves ensures h in LockHashesToLocks(e) && LockHash(LockHashesToLocks(e)[h]) == h {
        LookupFinds(e, h);
      }
      OrderedLocksFound(leaves, LockHashesToLocks(e));
      ChunksOfPacked(GetBatchUnlock(e).value.value, leaves);
    }
  }

  lemma NoLocksNoProof(e: EndState, h: Hash)
    requires SoundEnd(e) && HasLock(e, h)
    ensures e.balanceProof.Some?
  {
    assert LocksOf(map[]) == map[];
  }

  /** A consistent end has not lost any lock, and has leaves exactly when it has pending locks. */
  lemma ConsistentEndUnlocks(e: EndState)
    requires EndInv(e)
    ensures GetBatchUnlock(e) == None <==> Pending(e) == map[]
    ensures forall h :: h in Leaves(e.merkletree) ==> HasLock(e, h)
  {
    EndInvIsSound(e);
    EmptyIffNoElements(Leaves(e.merkletree));
    forall h | h in Leaves(e.merkletree) ensures HasLock(e, h) {
      assert h in Elements(Leaves(e.merkletree));
      var s :| s in Pending(e) && LockHash(Pending(e)[s]) == h;
      PendingIsHeld(e, s);
    }
    if s :| s in Pending(e) {
      assert LockHash(Pending(e)[s]) in LockHashes(Pending(e));
    }
  }

  lemma PendingIsHeld(e: EndState, s: SecretHash)
    requires s in Pending(e)
    ensures HasLock(e, LockHash(Pending(e)[s]))
  {
    if s in e.onchainLocks {
      assert s in LocksOf(e.onchainLocks);
    } else if s in e.unlockedLocks {
      assert s in LocksOf(e.unlockedLocks);
    } else {
      assert s in e.lockedLocks;
    }
  }
}
