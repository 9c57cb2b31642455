/**
  The channel as the program keeps it: two end-state objects and a channel object whose methods update
  fields and dictionaries in place. Every method is proved to do what the function of the same name in
  `ChannelState` says, so all that is proved of runs of those functions holds of these objects.
 */
module ChannelObjects {
  import opened Wrappers
  import opened BigEndian
  import opened Hashes
  import opened MerkleTree
  import opened Locks
  import S = ChannelState
  import opened ChannelState

  /** Adds up the amounts of a dictionary of locks, one entry at a time. */
  method SumLockAmounts(locks: LockMap) returns (total: nat)
    ensures total == SumAmounts(locks)
  {
    total := 0;
    var rest := locks;
    while rest != map[]
      invariant total + SumAmounts(rest) == SumAmounts(locks)
      decreases |rest|
    {
      var s :| s in rest;
      SumRemove(rest, s);
      total := total + rest[s].amount;
      rest := rest - {s};
    }
  }

  class NettingChannelEndState {
    const address: Address
    var contractBalance: nat
    var lockedLocks: LockMap
    var unlockedLocks: ProofMap
    var onchainLocks: ProofMap
    var merkletree: MerkleTreeState
    var balanceProof: Option<BalanceProof>
    var onchainLocksroot: Hash

    function View(): EndState
      reads this
    {
      EndState(address, contractBalance, lockedLocks, unlockedLocks, onchainLocks, merkletree, balanceProof,
               onchainLocksroot)
    }

    constructor (address: Address, balance: nat)
      ensures View() == NewEndState(address, balance)
    {
      this.address, this.contractBalance := address, balance;
      lockedLocks, unlockedLocks, onchainLocks := map[], map[], map[];
      merkletree, balanceProof, onchainLocksroot := EMPTY_TREE, None, EMPTY_MERKLE_ROOT;
    }

    method GetAmountLocked() returns (amount: nat)
      ensures amount == AmountLocked(View())
    {
      var pending := SumLockAmounts(lockedLocks);
      var unclaimed := SumLockAmounts(LocksOf(unlockedLocks));
      var onchain := SumLockAmounts(LocksOf(onchainLocks));
      amount := pending + unclaimed + onchain;
    }

    method DelUnclaimedLock(s: SecretHash)
      modifies this
      ensures View() == S.DelUnclaimedLock(old(View()), s)
    {
      if s in lockedLocks {
        lockedLocks := lockedLocks - {s};
      }
      assert s !in old(lockedLocks) ==> old(lockedLocks) - {s} == old(lockedLocks);
      if s in unlockedLocks {
        unlockedLocks := unlockedLocks - {s};
      }
      assert s !in old(unlockedLocks) ==> old(unlockedLocks) - {s} == old(unlockedLocks);
    }

    method DelLock(s: SecretHash)
      requires IsLockPending(View(), s)
      modifies this
      ensures View() == S.DelLock(old(View()), s)
    {
      DelUnclaimedLock(s);
      if s in onchainLocks {
        onchainLocks := onchainLocks - {s};
      }
      assert s !in old(onchainLocks) ==> old(onchainLocks) - {s} == old(onchainLocks);
    }

    method RegisterSecret(secret: Secret, s: SecretHash)
      modifies this
      ensures View() == RegisterSecretEndState(old(View()), secret, s)
    {
      if s in lockedLocks {
        var pendingLock := lockedLocks[s];
        lockedLocks := lockedLocks - {s};
        unlockedLocks := unlockedLocks[s := UnlockPartialProof(pendingLock, secret)];
      }
    }

    method RegisterOnchainSecret(secret: Secret, s: SecretHash, revealBlock: nat, deleteLock: bool)
      modifies this
      ensures View() == RegisterOnchainSecretEndState(old(View()), secret, s, revealBlock, deleteLock)
    {
      var pendingLock: Option<HashTimeLock> := None;
      if s in lockedLocks {
        pendingLock := Some(lockedLocks[s]);
      }
      if s in unlockedLocks {
        pendingLock := Some(unlockedLocks[s].lock);
      }
      if pendingLock.Some? {
        if pendingLock.value.expiration < revealBlock {
          return;
        }
        if deleteLock {
          DelLock(s);
        }
        onchainLocks := onchainLocks[s := UnlockPartialProof(pendingLock.value, secret)];
      }
    }

    method UpdateContractBalance(balance: nat)
      modifies this
      ensures View() == S.UpdateContractBalance(old(View()), balance)
    {
      if balance > contractBalance {
        contractBalance := balance;
      }
    }

    method AddLock(proof: BalanceProof, tree: MerkleTreeState, lock: HashTimeLock)
      modifies this
      ensures View() == S.AddLock(old(View()), proof, tree, lock)
    {
      balanceProof := Some(proof);
      merkletree := tree;
      lockedLocks := lockedLocks[lock.secrethash := lock];
    }

    method ReplaceProof(proof: BalanceProof, tree: MerkleTreeState)
      modifies this
      ensures View() == old(View()).(balanceProof := Some(proof), merkletree := tree)
    {
      balanceProof := Some(proof);
      merkletree := tree;
    }
  }

  class NettingChannelState {
    const id: CanonicalIdentifier
    const settleTimeout: nat
    const our: NettingChannelEndState
    const partner: NettingChannelEndState
    var mediationFee: nat
    var depositQueue: seq<Deposit>
    var closeTx: Option<TxStatus>
    var settleTx: Option<TxStatus>
    var updateTx: Option<TxStatus>

    ghost predicate Valid()
      reads this
    {
      our != partner
    }

    function View(): Channel
      reads this, our, partner
    {
      Channel(id, settleTimeout, mediationFee, our.View(), partner.View(), depositQueue, closeTx, settleTx, updateTx)
    }

    constructor (id: CanonicalIdentifier, settleTimeout: nat, fee: nat,
                 our: NettingChannelEndState, partner: NettingChannelEndState)
      requires our != partner
      ensures Valid() && this.our == our && this.partner == partner
      ensures View() == NewChannel(id, settleTimeout, fee, our.View(), partner.View())
    {
      this.id, this.settleTimeout, this.mediationFee, this.our, this.partner := id, settleTimeout, fee, our, partner;
      depositQueue, closeTx, settleTx, updateTx := [], None, None, None;
    }

    method GetDistributable(sender: NettingChannelEndState, receiver: NettingChannelEndState) returns (r: int)
      ensures r == Distributable(sender.View(), receiver.View())
    {
      var locked := sender.GetAmountLocked();
      var current := if sender.balanceProof.Some? then locked else 0;
      var transferred := Transferred(sender.View());
      var distributable := Balance(sender.View(), receiver.View()) - locked;
      var overflowLimit := UINT256_MAX - transferred - current;
      if overflowLimit < 0 {
        overflowLimit := 0;
      }
      r := if overflowLimit < distributable then overflowLimit else distributable;
    }

    // ------------------------------------------------------------ sending

    method SendLockedTransfer(amount: nat, expiration: nat, s: SecretHash) returns (r: Result<Message, SendError>)
      requires Valid()
      modifies our
      ensures match S.SendLockedTransfer(old(View()), amount, expiration, s)
              case Failure(e) => r == Failure(e) && View() == old(View())
              case Success((after, message)) => r == Success(message) && View() == after
    {
      var distributable := GetDistributable(our, partner);
      if amount > distributable {
        return Failure(NotEnoughBalance);
      }
      if GetStatus(View()) != Opened {
        return Failure(ChannelNotOpen);
      }
      if amount > UINT256_MAX || expiration > UINT256_MAX {
        return Failure(InvalidLock);
      }
      var lock: HashTimeLock := Lock(amount, expiration, s);
      var tree := ComputeMerkletreeWith(Below, our.merkletree, LockHash(lock));
      if tree == None {
        return Failure(LockAlreadyRegistered);
      }
      var transferred := Transferred(our.View());
      if transferred + amount > UINT256_MAX {
        return Failure(WouldOverflow);
      }
      var locked := our.GetAmountLocked();
      var proof := MakeProof(NextNonce(our.View()), transferred, locked + amount, Root(tree.value), id);
      if proof == None {
        return Failure(InvalidProof);
      }
      r := Success(LockedTransfer(Sign(View(), proof.value), lock));
      our.AddLock(proof.value, tree.value, lock);
    }

    method SendUnlock(s: SecretHash) returns (r: Result<Message, SendError>)
      requires Valid()
      modifies our
      ensures match S.SendUnlock(old(View()), s)
              case Failure(e) => r == Failure(e) && View() == old(View())
              case Success((after, message)) => r == Success(message) && View() == after
    {
      var found := GetLock(our.View(), s);
      if found == None {
        return Failure(UnknownLock);
      }
      var lock := found.value;
      if !IsLockPending(our.View(), lock.secrethash) {
        return Failure(UnknownLock);
      }
      if GetStatus(View()) != Opened {
        return Failure(ChannelNotOpen);
      }
      if our.balanceProof == None {
        return Failure(NoBalanceProof);
      }
      var tree := ComputeMerkletreeWithout(Below, our.merkletree, LockHash(lock));
      if tree == None {
        return Failure(LockNotInTree);
      }
      var locked := our.GetAmountLocked();
      var proof := MakeProof(NextNonce(our.View()), Transferred(our.View()) + lock.amount, locked - lock.amount,
                             Root(tree.value), id);
      if proof == None {
        return Failure(InvalidProof);
      }
      r := Success(Unlock(Sign(View(), proof.value), lock.secrethash));
      our.ReplaceProof(proof.value, tree.value);
      our.DelLock(lock.secrethash);
    }

    method EventsForExpiredLock(lock: HashTimeLock) returns (r: Result<Option<Message>, SendError>)
      requires Valid()
      modifies our
      ensures match S.EventsForExpiredLock(old(View()), lock)
              case Failure(e) => r == Failure(e) && View() == old(View())
              case Success((after, message)) => r == Success(message) && View() == after
    {
      if GetStatus(View()) != Opened {
        return Failure(ChannelNotOpen);
      }
      if our.balanceProof == None {
        return Failure(NoBalanceProof);
      }
      var tree := ComputeMerkletreeWithout(Below, our.merkletree, LockHash(lock));
      if tree == None {
        return Success(None);
      }
      var locked := our.GetAmountLocked();
      var proof := MakeProof(NextNonce(our.View()), Transferred(our.View()), locked - lock.amount, Root(tree.value), id);
      if proof == None {
        return Failure(InvalidProof);
      }
      r := Success(Some(LockExpired(Sign(View(), proof.value), lock.secrethash)));
      our.ReplaceProof(proof.value, tree.value);
      our.DelUnclaimedLock(lock.secrethash);
    }

    // ------------------------------------------------------------ receiving

    method IsValidLockedTransfer(proof: BalanceProof, lock: HashTimeLock) returns (r: Result<MerkleTreeState, Rejection>)
      requires Valid()
      ensures r == CheckLockedTransfer(View(), partner.View(), our.View(), proof, lock)
    {
      var unusable := CheckProof(View(), partner.View(), proof);
      if unusable.Some? {
        return Failure(unusable.value);
      }
      var tree := ComputeMerkletreeWith(Below, partner.merkletree, LockHash(lock));
      if tree == None {
        return Failure(SameLockTwice);
      }
      var locked := partner.GetAmountLocked();
      var current := if partner.balanceProof.Some? then locked else 0;
      var distributable := GetDistributable(partner, our);
      if |Leaves(tree.value)| > MAXIMUM_PENDING_TRANSFERS {
        r := Failure(TooManyPendingTransfers);
      } else if proof.locksroot != Root(tree.value) {
        r := Failure(WrongLocksroot);
      } else if proof.transferredAmount != Transferred(partner.View()) {
        r := Failure(WrongTransferredAmount);
      } else if proof.lockedAmount != current + lock.amount {
        r := Failure(WrongLockedAmount);
      } else if lock.amount > distributable {
        r := Failure(AboveDistributable);
      } else if lock.secrethash == EMPTY_HASH_KECCAK {
        r := Failure(UnusableSecretHash);
      } else {
        r := Success(tree.value);
      }
    }

    method HandleReceiveLockedTransfer(proof: BalanceProof, lock: HashTimeLock) returns (events: seq<Event>)
      requires Valid()
      modifies partner
      ensures TransitionResult(Some(View()), events) == S.HandleReceiveLockedTransfer(old(View()), proof, lock)
    {
      var check := IsValidLockedTransfer(proof, lock);
      match check {
        case Failure(reason) => events := [InvalidReceived(reason)];
        case Success(tree) =>
          partner.AddLock(proof, tree, lock);
          events := [SendProcessed];
      }
    }

    method IsValidUnlock(proof: BalanceProof, s: SecretHash) returns (r: Result<MerkleTreeState, Rejection>)
      requires Valid()
      ensures r == CheckUnlock(View(), partner.View(), proof, s)
    {
      var found := GetLock(partner.View(), s);
      if found == None {
        return Failure(NoSuchLock);
      }
      var lock := found.value;
      var tree := ComputeMerkletreeWithout(Below, partner.merkletree, LockHash(lock));
      if tree == None {
        return Failure(UnknownLockHash);
      }
      var locked := partner.GetAmountLocked();
      var current := if partner.balanceProof.Some? then locked else 0;
      var unusable := CheckProof(View(), partner.View(), proof);
      if unusable.Some? {
        r := Failure(unusable.value);
      } else if proof.locksroot != Root(tree.value) {
        r := Failure(WrongLocksroot);
      } else if proof.transferredAmount != Transferred(partner.View()) + lock.amount {
        r := Failure(WrongTransferredAmount);
      } else if proof.lockedAmount != current - lock.amount {
        r := Failure(WrongLockedAmount);
      } else {
        r := Success(tree.value);
      }
    }

    method HandleUnlock(proof: BalanceProof, s: SecretHash) returns (events: seq<Event>)
      requires Valid()
      modifies partner
      ensures TransitionResult(Some(View()), events) == S.HandleUnlock(old(View()), proof, s)
    {
      var check := IsValidUnlock(proof, s);
      match check {
        case Failure(reason) => events := [InvalidReceived(reason)];
        case Success(tree) =>
          partner.ReplaceProof(proof, tree);
          partner.DelLock(s);
          events := [SendProcessed];
      }
    }

    method IsValidLockExpired(proof: BalanceProof, s: SecretHash, blockNumber: nat)
      returns (r: Result<MerkleTreeState, Rejection>)
      requires Valid()
      ensures r == CheckLockExpired(View(), partner.View(), our.View(), proof, s, blockNumber)
    {
      if s in partner.onchainLocks {
        return Failure(UnlockedOnChain);
      }
      var found := GetUnclaimedLock(partner.View(), s);
      if found == None {
        return Failure(NoSuchLock);
      }
      var lock := found.value;
      var unusable := CheckProof(View(), partner.View(), proof);
      if unusable.Some? {
        return Failure(unusable.value);
      }
      var tree := ComputeMerkletreeWithout(Below, partner.merkletree, LockHash(lock));
      if tree == None {
        return Failure(SameLockTwice);
      }
      var locked := partner.GetAmountLocked();
      var current := if partner.balanceProof.Some? then locked else 0;
      if !IsLockExpired(our.View(), lock, blockNumber, ReceiverExpirationThreshold(lock)) {
        r := Failure(LockNotExpired);
      } else if proof.locksroot != Root(tree.value) {
        r := Failure(WrongLocksroot);
      } else if proof.transferredAmount != Transferred(partner.View()) {
        r := Failure(WrongTransferredAmount);
      } else if proof.lockedAmount != current - lock.amount {
        r := Failure(WrongLockedAmount);
      } else {
        r := Success(tree.value);
      }
    }

    method HandleReceiveLockExpired(proof: BalanceProof, s: SecretHash, blockNumber: nat) returns (events: seq<Event>)
      requires Valid()
      modifies partner
      ensures TransitionResult(Some(View()), events) == S.HandleReceiveLockExpired(old(View()), proof, s, blockNumber)
    {
      var check := IsValidLockExpired(proof, s, blockNumber);
      match check {
        case Failure(reason) => events := [InvalidReceived(reason)];
        case Success(tree) =>
          partner.ReplaceProof(proof, tree);
          partner.DelUnclaimedLock(s);
          events := [SendProcessed];
      }
    }

    // ------------------------------------------------------------ secrets

    method RegisterOffchainSecret(secret: Secret, s: SecretHash)
      requires Valid()
      modifies our, partner
      ensures View() == S.RegisterOffchainSecret(old(View()), secret, s)
    {
      our.RegisterSecret(secret, s);
      partner.RegisterSecret(secret, s);
    }

    method RegisterOnchainSecret(secret: Secret, s: SecretHash, revealBlock: nat)
      requires Valid()
      modifies our, partner
      ensures View() == S.RegisterOnchainSecret(old(View()), secret, s, revealBlock)
    {
      our.RegisterOnchainSecret(secret, s, revealBlock, true);
      partner.RegisterOnchainSecret(secret, s, revealBlock, true);
    }

    // ------------------------------------------------------------ the chain

    method ApplyNewBalance(d: Deposit)
      requires Valid()
      modifies our, partner
      ensures View() == S.ApplyNewBalance(old(View()), d)
    {
      if d.participant == our.address {
        our.UpdateContractBalance(d.contractBalance);
      } else if d.participant == partner.address {
        partner.UpdateContractBalance(d.contractBalance);
      }
    }

    method HandleBlock(number: BlockNumber, blockNumber: BlockNumber) returns (events: seq<Event>)
      requires Valid()
      modifies this, our, partner
      ensures TransitionResult(Some(View()), events) == S.HandleBlock(old(View()), number, blockNumber)
    {
      if !BlockFits(View(), number, blockNumber) {
        return [AssertionFailed];
      }
      events := [];
      if SettlementEnded(View(), blockNumber) {
        settleTx := Some(TxStatus(Some(blockNumber), None, None));
        events := [ContractSendChannelSettle];
      }
      ghost var before := View();
      while IsDepositConfirmed(View(), blockNumber)
        invariant ApplyConfirmedDeposits(View(), blockNumber) == ApplyConfirmedDeposits(before, blockNumber)
        decreases |depositQueue|
      {
        var deposit := depositQueue[0];
        depositQueue := depositQueue[1..];
        ApplyNewBalance(deposit);
      }
    }

    method HandleActionClose(channelId: nat, blockNumber: BlockNumber) returns (events: seq<Event>)
      requires Valid()
      modifies this
      ensures TransitionResult(Some(View()), events) == S.HandleActionClose(old(View()), channelId, blockNumber)
    {
      if channelId != id.channelId {
        return [AssertionFailed];
      }
      events := [];
      if PriorToClosed(View()) {
        closeTx := Some(TxStatus(Some(blockNumber), None, None));
        events := [ContractSendChannelClose(partner.balanceProof)];
      }
    }

    method HandleChannelClosed(channelId: nat, transactionFrom: Address, closedAt: BlockNumber,
                               proof: Option<BalanceProof>) returns (events: seq<Event>)
      requires Valid()
      modifies this
      ensures TransitionResult(Some(View()), events)
           == S.HandleChannelClosed(old(View()), channelId, transactionFrom, closedAt, proof)
    {
      events := [];
      if channelId == id.channelId && PriorToClosed(View()) {
        closeTx := SetFinished(closeTx, closedAt);
        if transactionFrom != our.address && proof.Some? && updateTx == None {
          updateTx := Some(TxStatus(Some(closedAt), None, None));
          events := [ContractSendChannelUpdateTransfer(closedAt + settleTimeout, proof.value)];
        }
      }
    }

    method HandleChannelNewBalance(d: Deposit, blockNumber: BlockNumber)
      requires Valid()
      modifies this, our, partner
      ensures TransitionResult(Some(View()), []) == S.HandleChannelNewBalance(old(View()), d, blockNumber)
    {
      if IsTransactionConfirmed(d.blockNumber, blockNumber) {
        ApplyNewBalance(d);
      } else {
        depositQueue := HeapPush(depositQueue, d);
      }
    }

    /** Applies a state change; `survives` is false when the channel is cleared. */
    method StateTransition(change: StateChange, blockNumber: BlockNumber) returns (survives: bool, events: seq<Event>)
      requires Valid()
      modifies this, our, partner
      ensures events == S.StateTransition(old(View()), change, blockNumber).events
      ensures survives == S.StateTransition(old(View()), change, blockNumber).newState.Some?
      ensures survives ==> View() == S.StateTransition(old(View()), change, blockNumber).newState.value
    {
      survives, events := true, [];
      match change {
        case Block(number) => events := HandleBlock(number, blockNumber);
        case ActionChannelClose(channelId) => events := HandleActionClose(channelId, blockNumber);
        case ActionChannelSetFee(channelId, fee) =>
          if channelId == id.channelId {
            mediationFee := fee;
          } else {
            events := [AssertionFailed];
          }
        case ContractReceiveChannelClosed(channelId, from, closedAt) =>
          events := HandleChannelClosed(channelId, from, closedAt, partner.balanceProof);
        case ContractReceiveChannelClosedLight(channelId, from, closedAt, latestProof) =>
          events := HandleChannelClosed(channelId, from, closedAt, latestProof);
        case ContractReceiveUpdateTransfer(channelId) =>
          if channelId == id.channelId {
            updateTx := Some(TxStatus(None, Some(blockNumber), Some(TxSuccess)));
          }
        case ContractReceiveChannelSettled(channelId, settledAt, ourLocksroot, partnerLocksroot) =>
          if channelId == id.channelId {
            settleTx := SetFinished(settleTx, settledAt);
            if ourLocksroot == EMPTY_MERKLE_ROOT && partnerLocksroot == EMPTY_MERKLE_ROOT {
              survives := false;
            } else {
              our.onchainLocksroot := ourLocksroot;
              partner.onchainLocksroot := partnerLocksroot;
              events := [ContractSendChannelBatchUnlock(partner.address)];
            }
          }
        case ContractReceiveChannelNewBalance(d) => HandleChannelNewBalance(d, blockNumber);
        case ContractReceiveChannelBatchUnlock(unlockPartner) =>
          if GetStatus(View()) == Settled {
            if unlockPartner == our.address {
              our.onchainLocksroot := EMPTY_MERKLE_ROOT;
            } else if unlockPartner == partner.address {
              partner.onchainLocksroot := EMPTY_MERKLE_ROOT;
            }
            survives := !(our.onchainLocksroot == EMPTY_MERKLE_ROOT && partner.onchainLocksroot == EMPTY_MERKLE_ROOT);
          }
      }
    }
  }
}
