/**
  What each change of chain and user does to a channel, stated on `StateTransition` alone: which events
  it causes, what it records, which status it leads to, and that it does nothing else.
 */
module ChainOutcomes {
  import opened Wrappers
  import opened Hashes
  import opened ChannelState
  import opened ChannelInvariant
  import opened ChannelRuns

  ghost predicate StaysOut(ch: Channel, r: TransitionResult) {
    r == TransitionResult(Some(ch), [])
  }

  /** The status that is recorded by the two transactions, each of them absent, running or finished. */
  lemma StatusIsTheirProgress(ch: Channel)
    requires TxsInv(ch)
    ensures GetStatus(ch) == Opened <==> ch.settleTx == None && ch.closeTx == None
    ensures GetStatus(ch) == Closing <==> ch.settleTx == None && ch.closeTx.Some? && ch.closeTx.value.finished == None
    ensures GetStatus(ch) == Closed <==> ch.settleTx == None && ch.closeTx.Some? && ch.closeTx.value.finished.Some?
    ensures GetStatus(ch) == Settling <==> ch.settleTx.Some? && ch.settleTx.value.finished == None
    ensures GetStatus(ch) == Settled <==> ch.settleTx.Some? && ch.settleTx.value.finished.Some?
  {
  }

  // ---------------------------------------------------------------- closing

  ghost predicate IsClose(ch: Channel, change: StateChange, proof: Option<BalanceProof>) {
    || (change.ContractReceiveChannelClosed? && proof == ch.partner.balanceProof)
    || (change.ContractReceiveChannelClosedLight? && proof == change.latestProof)
  }

  ghost predicate NotClosedYet(ch: Channel) {
    GetStatus(ch) == Opened || GetStatus(ch) == Closing
  }

  /**
    The update of our half is sent exactly when this channel, not closed before, was closed by somebody
    else, there is a proof, and no update is under way; it carries that proof and its deadline.
   */
  lemma CloseUpdatesIff(ch: Channel, change: StateChange, proof: Option<BalanceProof>, blockNumber: BlockNumber)
    requires IsClose(ch, change, proof)
    ensures var r := StateTransition(ch, change, blockNumber);
      && (r.events != [] <==>
           && change.channelId == ch.id.channelId && NotClosedYet(ch)
           && change.transactionFrom != ch.our.address && proof.Some? && ch.updateTx == None)
      && (r.events != [] ==>
           && r.events == [ContractSendChannelUpdateTransfer(change.closedAt + ch.settleTimeout, proof.value)]
           && r.newState.Some? && r.newState.value.updateTx == Some(TxStatus(Some(change.closedAt), None, None)))
      && (r.events == [] ==> r.newState.Some? && r.newState.value.updateTx == ch.updateTx)
  {
  }

  /** A close of this channel is recorded with its block, once; any other changes nothing. */
  lemma CloseIsRecorded(ch: Channel, change: StateChange, proof: Option<BalanceProof>, blockNumber: BlockNumber)
    requires IsClose(ch, change, proof) && TxsInv(ch)
    ensures var r := StateTransition(ch, change, blockNumber);
      if change.channelId == ch.id.channelId && NotClosedYet(ch) then
        && r.newState.Some? && GetStatus(r.newState.value) == Closed
        && var ch' := r.newState.value;
        && ch'.closeTx.Some? && ch'.closeTx.value.finished == Some(change.closedAt)
        && ch'.closeTx.value.result == Some(TxSuccess)
        && ch'.closeTx.value.started == (if ch.closeTx.Some? then ch.closeTx.value.started else None)
        && ch' == ch.(closeTx := ch'.closeTx, updateTx := ch'.updateTx)
      else StaysOut(ch, r)
  {
  }

  /** The user closes a channel that is not closed yet, handing in the partner's proof. */
  lemma UserCloses(ch: Channel, channelId: nat, blockNumber: BlockNumber)
    requires TxsInv(ch)
    ensures var r := StateTransition(ch, ActionChannelClose(channelId), blockNumber);
      if channelId != ch.id.channelId then r == TransitionResult(Some(ch), [AssertionFailed])
      else if NotClosedYet(ch) then
        && r.events == [ContractSendChannelClose(ch.partner.balanceProof)]
        && r.newState.Some? && GetStatus(r.newState.value) == Closing
        && var ch' := r.newState.value;
        && ch'.closeTx.Some? && ch'.closeTx.value.started == Some(blockNumber)
        && ch' == ch.(closeTx := ch'.closeTx)
      else StaysOut(ch, r)
  {
  }

  /** The update is recorded as done, at the current block, whatever the status. */
  lemma UpdateIsRecorded(ch: Channel, channelId: nat, blockNumber: BlockNumber)
    ensures var r := StateTransition(ch, ContractReceiveUpdateTransfer(channelId), blockNumber);
      if channelId != ch.id.channelId then StaysOut(ch, r)
      else
        && r.events == [] && r.newState.Some?
        && var ch' := r.newState.value;
        && ch'.updateTx.Some? && ch'.updateTx.value.finished == Some(blockNumber)
        && ch'.updateTx.value.result == Some(TxSuccess) && ch' == ch.(updateTx := ch'.updateTx)
  {
  }

  // ---------------------------------------------------------------- settling

  /** A block settles a closed channel exactly when more than the settle timeout has passed since the close. */
  lemma BlockSettlesIff(ch: Channel, blockNumber: BlockNumber)
    requires TxsInv(ch)
    ensures var r := StateTransition(ch, Block(blockNumber), blockNumber);
      && r.newState.Some?
      && (if GetStatus(ch) == Closed && blockNumber > ch.closeTx.value.finished.value + ch.settleTimeout then
            && r.events == [ContractSendChannelSettle] && GetStatus(r.newState.value) == Settling
            && r.newState.value.settleTx.Some? && r.newState.value.settleTx.value.started == Some(blockNumber)
          else
            r.events == [] && r.newState.value.settleTx == ch.settleTx)
      && r.newState.value.closeTx == ch.closeTx && r.newState.value.updateTx == ch.updateTx
  {
    HandleBlockEffect(ch, blockNumber, blockNumber);
  }

  /** A block under another number fails. */
  lemma WrongBlockFails(ch: Channel, number: BlockNumber, blockNumber: BlockNumber)
    requires number != blockNumber
    ensures StateTransition(ch, Block(number), blockNumber) == TransitionResult(Some(ch), [AssertionFailed])
  {
  }

  /**
    A settled channel is cleared exactly when nothing is locked on either end; otherwise each end records
    the locksroot that the chain has of it, and the partner's locks are unlocked.
   */
  lemma SettlementIsRecorded(ch: Channel, settledAt: BlockNumber, ours: Hash, theirs: Hash, blockNumber: BlockNumber)
    requires TxsInv(ch)
    ensures var r := StateTransition(ch, ContractReceiveChannelSettled(ch.id.channelId, settledAt, ours, theirs), blockNumber);
      if ours == EMPTY_MERKLE_ROOT && theirs == EMPTY_MERKLE_ROOT then r == TransitionResult(None, [])
      else
        && r.events == [ContractSendChannelBatchUnlock(ch.partner.address)]
        && r.newState.Some? && GetStatus(r.newState.value) == Settled
        && var ch' := r.newState.value;
        && ch'.our == ch.our.(onchainLocksroot := ours) && ch'.partner == ch.partner.(onchainLocksroot := theirs)
        && ch'.settleTx.Some?
        && ch'.settleTx.value.finished == (if GetStatus(ch) == Settled then ch.settleTx.value.finished else Some(settledAt))
        && ch' == ch.(settleTx := ch'.settleTx, our := ch'.our, partner := ch'.partner)
  {
  }

  lemma ForeignSettlementIsIgnored(ch: Channel, channelId: nat, settledAt: BlockNumber, ours: Hash, theirs: Hash,
                                   blockNumber: BlockNumber)
    requires channelId != ch.id.channelId
    ensures StaysOut(ch, StateTransition(ch, ContractReceiveChannelSettled(channelId, settledAt, ours, theirs), blockNumber))
  {
  }

  /** Before settlement an unlock is ignored. */
  lemma EarlyUnlockIsIgnored(ch: Channel, unlockPartner: Address, blockNumber: BlockNumber)
    requires GetStatus(ch) != Settled
    ensures StaysOut(ch, StateTransition(ch, ContractReceiveChannelBatchUnlock(unlockPartner), blockNumber))
  {
  }

  /**
    After settlement an unlock empties the locksroot of the end it names, and no other; the channel is
    cleared exactly when then nothing is left to unlock.
   */
  lemma UnlockClearsItsEnd(ch: Channel, unlockPartner: Address, blockNumber: BlockNumber)
    requires GetStatus(ch) == Settled && ch.our.address != ch.partner.address
    ensures var r := StateTransition(ch, ContractReceiveChannelBatchUnlock(unlockPartner), blockNumber);
      var oursLeft := ch.our.onchainLocksroot != EMPTY_MERKLE_ROOT && unlockPartner != ch.our.address;
      var theirsLeft := ch.partner.onchainLocksroot != EMPTY_MERKLE_ROOT && unlockPartner != ch.partner.address;
      && r.events == []
      && (r.newState == None <==> !oursLeft && !theirsLeft)
      && (r.newState.Some? ==>
           && var ch' := r.newState.value;
           && ch'.our == ch.our.(onchainLocksroot := if oursLeft then ch.our.onchainLocksroot else EMPTY_MERKLE_ROOT)
           && ch'.partner
              == ch.partner.(onchainLocksroot := if theirsLeft then ch.partner.onchainLocksroot else EMPTY_MERKLE_ROOT)
           && ch' == ch.(our := ch'.our, partner := ch'.partner))
  {
  }

  // ---------------------------------------------------------------- fee and deposits

  lemma FeeIsSet(ch: Channel, channelId: nat, fee: nat, blockNumber: BlockNumber)
    ensures StateTransition(ch, ActionChannelSetFee(channelId, fee), blockNumber)
         == if channelId == ch.id.channelId then TransitionResult(Some(ch.(mediationFee := fee)), [])
            else TransitionResult(Some(ch), [AssertionFailed])
  {
  }

  /** A deposit counts at once from the sixth block after it on, and only for its participant; else it waits. */
  lemma DepositCountsOrWaits(ch: Channel, d: Deposit, blockNumber: BlockNumber)
    requires ch.our.address != ch.partner.address
    ensures var r := StateTransition(ch, ContractReceiveChannelNewBalance(d), blockNumber);
      && r.events == [] && r.newState.Some?
      && var ch' := r.newState.value;
      if blockNumber > d.blockNumber + 5 then
        && ch' == ch.(our := ch'.our, partner := ch'.partner)
        && ch'.our == ch.our.(contractBalance := ch'.our.contractBalance)
        && ch'.partner == ch.partner.(contractBalance := ch'.partner.contractBalance)
        && ch'.our.contractBalance == AtLeast(ch.our.contractBalance, ch.our.address, d)
        && ch'.partner.contractBalance == AtLeast(ch.partner.contractBalance, ch.partner.address, d)
      else ch' == ch.(depositQueue := ch'.depositQueue) && d in ch'.depositQueue
  {
    PushedIsIn(ch.depositQueue, d);
  }

  function AtLeast(balance: nat, participant: Address, d: Deposit): nat {
    if d.participant == participant && d.contractBalance > balance then d.contractBalance else balance
  }

  lemma {:induction false} PushedIsIn(queue: seq<Deposit>, d: Deposit)
    ensures d in HeapPush(queue, d)
  {
    if queue != [] && DepositBefore(queue[0], d) {
      PushedIsIn(queue[1..], d);
    }
  }

  // ---------------------------------------------------------------- a whole life

  /**
    From the opening to the end: an open channel that we close, that is closed, settled with locks left on
    both ends and unlocked for both, goes through every status, with one event at each step we take, and
    is cleared by the second unlock and not by the first.
   */
  lemma WholeLife(ch: Channel, startedAt: BlockNumber, closedAt: BlockNumber, settleBlock: BlockNumber,
                  settledAt: BlockNumber, ours: Hash, theirs: Hash, b: BlockNumber)
    requires TxsInv(ch) && GetStatus(ch) == Opened && ch.our.address != ch.partner.address
    requires settleBlock > closedAt + ch.settleTimeout
    requires ours != EMPTY_MERKLE_ROOT && theirs != EMPTY_MERKLE_ROOT
    ensures var closing := StateTransition(ch, ActionChannelClose(ch.id.channelId), startedAt);
      && closing.newState.Some? && GetStatus(closing.newState.value) == Closing
      && var closed := StateTransition(closing.newState.value,
                                       ContractReceiveChannelClosed(ch.id.channelId, ch.our.address, closedAt), b);
      && closed.newState.Some? && GetStatus(closed.newState.value) == Closed && closed.events == []
      && var settling := StateTransition(closed.newState.value, Block(settleBlock), settleBlock);
      && settling.newState.Some? && GetStatus(settling.newState.value) == Settling
      && settling.events == [ContractSendChannelSettle]
      && var settled := StateTransition(settling.newState.value,
                                        ContractReceiveChannelSettled(ch.id.channelId, settledAt, ours, theirs), b);
      && settled.newState.Some? && GetStatus(settled.newState.value) == Settled
      && var half := StateTransition(settled.newState.value, ContractReceiveChannelBatchUnlock(ch.partner.address), b);
      && half.newState.Some?
      && StateTransition(half.newState.value, ContractReceiveChannelBatchUnlock(ch.our.address), b).newState == None
  {
    var closing := StateTransition(ch, ActionChannelClose(ch.id.channelId), startedAt).newState.value;
    UserCloses(ch, ch.id.channelId, startedAt);
    StatusIsTheirProgress(closing);
    StateTransitionKeepsTxInv(ch, ActionChannelClose(ch.id.channelId), startedAt);
    ClosingToTheEnd(closing, closedAt, settleBlock, settledAt, ours, theirs, b);
  }

  lemma ClosingToTheEnd(ch: Channel, closedAt: BlockNumber, settleBlock: BlockNumber, settledAt: BlockNumber,
                        ours: Hash, theirs: Hash, b: BlockNumber)
    requires TxsInv(ch) && GetStatus(ch) == Closing && ch.our.address != ch.partner.address
    requires settleBlock > closedAt + ch.settleTimeout
    requires ours != EMPTY_MERKLE_ROOT && theirs != EMPTY_MERKLE_ROOT
    ensures var closed := StateTransition(ch, ContractReceiveChannelClosed(ch.id.channelId, ch.our.address, closedAt), b);
      && closed.newState.Some? && GetStatus(closed.newState.value) == Closed && closed.events == []
      && var settling := StateTransition(closed.newState.value, Block(settleBlock), settleBlock);
      && settling.newState.Some? && GetStatus(settling.newState.value) == Settling
      && settling.events == [ContractSendChannelSettle]
      && var settled := StateTransition(settling.newState.value,
                                        ContractReceiveChannelSettled(ch.id.channelId, settledAt, ours, theirs), b);
      && settled.newState.Some? && GetStatus(settled.newState.value) == Settled
      && var half := StateTransition(settled.newState.value, ContractReceiveChannelBatchUnlock(ch.partner.address), b);
      && half.newState.Some?
      && StateTransition(half.newState.value, ContractReceiveChannelBatchUnlock(ch.our.address), b).newState == None
  {
    var close := ContractReceiveChannelClosed(ch.id.channelId, ch.our.address, closedAt);
    CloseUpdatesIff(ch, close, ch.partner.balanceProof, b);
    CloseIsRecorded(ch, close, ch.partner.balanceProof, b);
    StateTransitionKeepsTxInv(ch, close, b);
    var closed := StateTransition(ch, close, b).newState.value;
    BlockSettlesIff(closed, settleBlock);
    HandleBlockEffect(closed, settleBlock, settleBlock);
    StateTransitionKeepsTxInv(closed, Block(settleBlock), settleBlock);
    var settling := StateTransition(closed, Block(settleBlock), settleBlock).newState.value;
    SettledToTheEnd(settling, settledAt, ours, theirs, b);
  }

  lemma SettledToTheEnd(ch: Channel, settledAt: BlockNumber, ours: Hash, theirs: Hash, b: BlockNumber)
    requires TxsInv(ch) && ch.our.address != ch.partner.address
    requires ours != EMPTY_MERKLE_ROOT && theirs != EMPTY_MERKLE_ROOT
    ensures var settled := StateTransition(ch, ContractReceiveChannelSettled(ch.id.channelId, settledAt, ours, theirs), b);
      && settled.newState.Some? && GetStatus(settled.newState.value) == Settled
      && var half := StateTransition(settled.newState.value, ContractReceiveChannelBatchUnlock(ch.partner.address), b);
      && half.newState.Some?
      && StateTransition(half.newState.value, ContractReceiveChannelBatchUnlock(ch.our.address), b).newState == None
  {
    SettlementIsRecorded(ch, settledAt, ours, theirs, b);
    var settled := StateTransition(ch, ContractReceiveChannelSettled(ch.id.channelId, settledAt, ours, theirs), b).newState.value;
    UnlockClearsItsEnd(settled, ch.partner.address, b);
    var half := StateTransition(settled, ContractReceiveChannelBatchUnlock(ch.partner.address), b).newState.value;
    UnlockClearsItsEnd(half, ch.our.address, b);
  }
}
