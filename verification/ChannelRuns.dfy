/**
  One node's channel as a state machine: every operation of raiden/transfer/channel.py is an action, and
  what holds here is proved of every run, whatever the node does and whatever messages arrive.
 */
module ChannelRuns {
  import opened Wrappers
  import opened Locks
  import opened ChannelState
  import opened EndStateInvariant
  import opened ChannelInvariant
  import opened Soundness

  datatype Action =
    | TransferOut(amount: nat, expiration: nat, secrethash: SecretHash)
    | RefundOut(amount: nat, expiration: nat, secrethash: SecretHash)
    | UnlockOut(secrethash: SecretHash)
    | ExpireOut(lock: HashTimeLock, atBlock: nat)
    | MessageIn(message: Message, atBlock: nat)
    | LearnSecret(secret: Secret, secrethash: SecretHash)
    | SecretRevealed(secret: Secret, secrethash: SecretHash, revealBlock: nat)
    | Change(change: StateChange, blockNumber: BlockNumber)

  function Sent(ch: Channel, r: Result<(Channel, Message), SendError>): TransitionResult {
    match r
    case Failure(_) => TransitionResult(Some(ch), [])
    case Success((ch', m)) => TransitionResult(Some(ch'), [SendMessage(m)])
  }

  function Expired(ch: Channel, r: Result<(Channel, Option<Message>), SendError>): TransitionResult {
    match r
    case Failure(_) => TransitionResult(Some(ch), [])
    case Success((ch', None)) => TransitionResult(Some(ch'), [])
    case Success((ch', Some(m))) => TransitionResult(Some(ch'), [SendMessage(m)])
  }

  ghost function Receive(ch: Channel, message: Message, atBlock: nat): TransitionResult {
    match message
    case LockedTransfer(proof, lock) => HandleReceiveLockedTransfer(ch, proof, lock)
    case Unlock(proof, s) => HandleUnlock(ch, proof, s)
    case LockExpired(proof, s) => HandleReceiveLockExpired(ch, proof, s, atBlock)
  }

  /** An operation that raises leaves the channel as it was: the caller works on a copy. */
  ghost function Step(ch: Channel, a: Action): TransitionResult {
    match a
    case TransferOut(amount, expiration, s) => Sent(ch, SendLockedTransfer(ch, amount, expiration, s))
    case RefundOut(amount, expiration, s) => Sent(ch, SendRefundTransfer(ch, amount, expiration, s))
    case UnlockOut(s) => Sent(ch, SendUnlock(ch, s))
    case ExpireOut(lock, _) => Expired(ch, EventsForExpiredLock(ch, lock))
    case MessageIn(message, atBlock) => Receive(ch, message, atBlock)
    case LearnSecret(secret, s) => TransitionResult(Some(RegisterOffchainSecret(ch, secret, s)), [])
    case SecretRevealed(secret, s, revealBlock) =>
      TransitionResult(Some(RegisterOnchainSecret(ch, secret, s, revealBlock)), [])
    case Change(change, blockNumber) => StateTransition(ch, change, blockNumber)
  }

  /** The channel after a run, or nothing once it has been settled and cleared. */
  ghost function Run(ch: Channel, actions: seq<Action>): Option<Channel>
    decreases |actions|
  {
    if actions == [] then Some(ch)
    else
      match Step(ch, actions[0]).newState
      case None => None
      case Some(ch') => Run(ch', actions[1..])
  }

  ghost function RunEvents(ch: Channel, actions: seq<Action>): seq<Event>
    decreases |actions|
  {
    if actions == [] then []
    else
      Step(ch, actions[0]).events +
      (match Step(ch, actions[0]).newState
       case None => []
       case Some(ch') => RunEvents(ch', actions[1..]))
  }

  // ---------------------------------------------------------------- proofs

  /** What one action enters on an end: nothing, or one proof that adds, claims or drops a lock. */
  datatype Entry = NoEntry | NewLock(lock: HashTimeLock) | Claimed(s: SecretHash) | Dropped(s: SecretHash)

  function OurEntry(r: TransitionResult): Entry {
    if !(|r.events| == 1 && r.events[0].SendMessage?) then NoEntry
    else match r.events[0].message
      case LockedTransfer(_, lock) => NewLock(lock)
      case Unlock(_, s) => Claimed(s)
      case LockExpired(_, s) => Dropped(s)
  }

  function PartnerEntry(a: Action, r: TransitionResult): Entry {
    if !(a.MessageIn? && r.events == [SendProcessed]) then NoEntry
    else match a.message
      case LockedTransfer(_, lock) => NewLock(lock)
      case Unlock(_, s) => Claimed(s)
      case LockExpired(_, s) => Dropped(s)
  }

  /** An entry is one proof with the next nonce; without one, proof, tree and pending locks stay. */
  ghost predicate Advances(before: EndState, after: EndState, entry: Entry) {
    if entry == NoEntry then
      && after.balanceProof == before.balanceProof && after.merkletree == before.merkletree
      && (DisjointDictionaries(before) ==> DisjointDictionaries(after) && Pending(after) == Pending(before))
    else
      Nonce(after) == Nonce(before) + 1 && Transferred(before) <= Transferred(after)
  }

  lemma NothingHappens(e: EndState)
    ensures Advances(e, e, NoEntry)
  {
  }

  /** A sending action touches our end only, and only with a proof, while the channel is open. */
  ghost predicate SendsOnly(ch: Channel, a: Action, r: TransitionResult) {
    && r.newState.Some? && r.newState.value == ch.(our := r.newState.value.our)
    && PartnerEntry(a, r) == NoEntry
    && (if OurEntry(r) == NoEntry then r.newState == Some(ch) else GetStatus(ch) == Opened)
    && Advances(ch.our, r.newState.value.our, OurEntry(r))
  }

  lemma TransferAdvances(ch: Channel, a: Action)
    requires a.TransferOut?
    ensures SendsOnly(ch, a, Step(ch, a))
  {
    NothingHappens(ch.our);
  }

  lemma RefundAdvances(ch: Channel, a: Action)
    requires a.RefundOut?
    ensures SendsOnly(ch, a, Step(ch, a))
  {
    NothingHappens(ch.our);
  }

  lemma UnlockAdvances(ch: Channel, a: Action)
    requires a.UnlockOut?
    ensures SendsOnly(ch, a, Step(ch, a))
  {
    NothingHappens(ch.our);
  }

  lemma ExpireAdvances(ch: Channel, a: Action)
    requires a.ExpireOut?
    ensures SendsOnly(ch, a, Step(ch, a))
  {
    NothingHappens(ch.our);
  }

  /** A message touches the partner's end only, and only with a proof, while the channel is open. */
  ghost predicate ReceivesOnly(ch: Channel, a: Action, r: TransitionResult) {
    && r.newState.Some? && r.newState.value == ch.(partner := r.newState.value.partner)
    && OurEntry(r) == NoEntry
    && (if PartnerEntry(a, r) == NoEntry then r.newState == Some(ch) else GetStatus(ch) == Opened)
    && Advances(ch.partner, r.newState.value.partner, PartnerEntry(a, r))
  }

  lemma ReceivedTransferAdvances(ch: Channel, proof: BalanceProof, lock: HashTimeLock, atBlock: nat)
    ensures var a := MessageIn(LockedTransfer(proof, lock), atBlock); ReceivesOnly(ch, a, Step(ch, a))
  {
    NothingHappens(ch.partner);
    match CheckLockedTransfer(ch, ch.partner, ch.our, proof, lock) {
      case Failure(_) =>
      case Success(tree) => CheckedTransfer(ch, proof, lock, tree);
    }
  }

  lemma ReceivedUnlockAdvances(ch: Channel, proof: BalanceProof, s: SecretHash, atBlock: nat)
    ensures var a := MessageIn(Unlock(proof, s), atBlock); ReceivesOnly(ch, a, Step(ch, a))
  {
    NothingHappens(ch.partner);
    match CheckUnlock(ch, ch.partner, proof, s) {
      case Failure(_) =>
      case Success(tree) => var _ := CheckedUnlock(ch, proof, s, tree);
    }
  }

  lemma ReceivedExpiryAdvances(ch: Channel, proof: BalanceProof, s: SecretHash, atBlock: nat)
    ensures var a := MessageIn(LockExpired(proof, s), atBlock); ReceivesOnly(ch, a, Step(ch, a))
  {
    NothingHappens(ch.partner);
    match CheckLockExpired(ch, ch.partner, ch.our, proof, s, atBlock) {
      case Failure(_) =>
      case Success(tree) => var _ := CheckedExpiry(ch, proof, s, atBlock, tree);
    }
  }

  lemma MessageAdvances(ch: Channel, a: Action)
    requires a.MessageIn?
    ensures ReceivesOnly(ch, a, Step(ch, a))
  {
    match a.message {
      case LockedTransfer(proof, lock) => ReceivedTransferAdvances(ch, proof, lock, a.atBlock);
      case Unlock(proof, s) => ReceivedUnlockAdvances(ch, proof, s, a.atBlock);
      case LockExpired(proof, s) => ReceivedExpiryAdvances(ch, proof, s, a.atBlock);
    }
  }

  lemma SecretAdvances(ch: Channel, a: Action)
    requires a.LearnSecret? || a.SecretRevealed?
    ensures var r := Step(ch, a);
      && r.newState.Some? && r.newState.value == ch.(our := r.newState.value.our, partner := r.newState.value.partner)
      && OurEntry(r) == NoEntry && PartnerEntry(a, r) == NoEntry
      && Advances(ch.our, r.newState.value.our, NoEntry) && Advances(ch.partner, r.newState.value.partner, NoEntry)
  {
    if a.LearnSecret? {
      LearningAdvances(ch.our, a.secret, a.secrethash);
      LearningAdvances(ch.partner, a.secret, a.secrethash);
    } else {
      RevealAdvances(ch.our, a.secret, a.secrethash, a.revealBlock);
      RevealAdvances(ch.partner, a.secret, a.secrethash, a.revealBlock);
    }
  }

  lemma LearningAdvances(e: EndState, secret: Secret, s: SecretHash)
    ensures Advances(e, RegisterSecretEndState(e, secret, s), NoEntry)
  {
    if DisjointDictionaries(e) {
      RegisterSecretPending(e, secret, s);
    }
  }

  lemma RevealAdvances(e: EndState, secret: Secret, s: SecretHash, revealBlock: nat)
    ensures Advances(e, RegisterOnchainSecretEndState(e, secret, s, revealBlock), NoEntry)
  {
    if DisjointDictionaries(e) {
      RegisterOnchainSecretPending(e, secret, s, revealBlock);
    }
  }

  lemma ChangeAdvances(ch: Channel, a: Action)
    requires a.Change?
    ensures var r := Step(ch, a);
      && OurEntry(r) == NoEntry && PartnerEntry(a, r) == NoEntry
      && (r.newState.Some? ==>
           && OnlyChainDataChanged(ch, r.newState.value)
           && Advances(ch.our, r.newState.value.our, NoEntry) && Advances(ch.partner, r.newState.value.partner, NoEntry))
  {
    StateTransitionEffect(ch, a.change, a.blockNumber);
    ChangeSendsNothing(ch, a.change, a.blockNumber);
  }

  lemma ChangeSendsNothing(ch: Channel, change: StateChange, blockNumber: BlockNumber)
    ensures var events := StateTransition(ch, change, blockNumber).events;
      |events| <= 1 && (events != [] ==> !events[0].SendMessage? && events[0] != SendProcessed)
  {
  }

  /** Each action enters at most one proof, on one end, with the next nonce, while the channel is open. */
  lemma StepAdvances(ch: Channel, a: Action)
    ensures var r := Step(ch, a);
      && (r.newState.Some? ==>
           && Advances(ch.our, r.newState.value.our, OurEntry(r))
           && Advances(ch.partner, r.newState.value.partner, PartnerEntry(a, r)))
      && (OurEntry(r) == NoEntry || PartnerEntry(a, r) == NoEntry)
      && (OurEntry(r) != NoEntry || PartnerEntry(a, r) != NoEntry ==> r.newState.Some? && GetStatus(ch) == Opened)
  {
    NothingHappens(ch.our);
    NothingHappens(ch.partner);
    match a {
      case TransferOut(_, _, _) => TransferAdvances(ch, a);
      case RefundOut(_, _, _) => RefundAdvances(ch, a);
      case UnlockOut(_) => UnlockAdvances(ch, a);
      case ExpireOut(_, _) => ExpireAdvances(ch, a);
      case MessageIn(_, _) => MessageAdvances(ch, a);
      case LearnSecret(_, _) => SecretAdvances(ch, a);
      case SecretRevealed(_, _, _) => SecretAdvances(ch, a);
      case Change(_, _) => ChangeAdvances(ch, a);
    }
  }

  function CountsAsProof(entry: Entry): nat {
    if entry == NoEntry then 0 else 1
  }

  /** How many proofs a run enters on our end and on the partner's end. */
  ghost function ProofsOf(ch: Channel, actions: seq<Action>): (nat, nat)
    decreases |actions|
  {
    if actions == [] then (0, 0)
    else
      var r := Step(ch, actions[0]);
      var (ours, theirs) :=
        match r.newState
        case None => (0, 0)
        case Some(ch') => ProofsOf(ch', actions[1..]);
      (CountsAsProof(OurEntry(r)) + ours, CountsAsProof(PartnerEntry(actions[0], r)) + theirs)
  }

  /** Nonces count the proofs that were sent or accepted, and transferred amounts never fall. */
  lemma {:induction false} NoncesCountProofs(ch: Channel, actions: seq<Action>)
    requires Run(ch, actions).Some?
    ensures var end := Run(ch, actions).value;
      && Nonce(end.our) == Nonce(ch.our) + ProofsOf(ch, actions).0
      && Nonce(end.partner) == Nonce(ch.partner) + ProofsOf(ch, actions).1
      && Transferred(ch.our) <= Transferred(end.our)
      && Transferred(ch.partner) <= Transferred(end.partner)
    decreases |actions|
  {
    if actions != [] {
      StepAdvances(ch, actions[0]);
      NoncesCountProofs(Step(ch, actions[0]).newState.value, actions[1..]);
    }
  }

  // ---------------------------------------------------------------- the life of a channel

  function Rank(status: Status): nat {
    match status
    case Opened => 0
    case Closing => 1
    case Closed => 2
    case Settling => 3
    case Settled => 4
    case Unusable => 5
  }

  /** The chain and the user move the status forward; settle and update events mark two of the moves. */
  lemma StateTransitionMovesForward(ch: Channel, change: StateChange, blockNumber: BlockNumber)
    requires TxInv(ch.closeTx) && TxInv(ch.settleTx)
    ensures var r := StateTransition(ch, change, blockNumber);
      && |r.events| <= 1
      && (r.newState.Some? ==> Rank(GetStatus(ch)) <= Rank(GetStatus(r.newState.value)))
      && (r.events != [] ==>
           var e := r.events[0];
           && !e.SendMessage?
           && (e.ContractSendChannelSettle? ==>
                && r.newState.Some? && GetStatus(ch) == Closed && GetStatus(r.newState.value) == Settling
                && ch.closeTx.value.finished.value + ch.settleTimeout < blockNumber)
           && (e.ContractSendChannelUpdateTransfer? ==>
                r.newState.Some? && PriorToClosed(ch) && GetStatus(r.newState.value) == Closed))
  {
    if change.Block? {
      HandleBlockEffect(ch, change.number, blockNumber);
    }
  }

  /** Close and settle transactions never fail; only state changes touch them. */
  ghost predicate TxsInv(ch: Channel) {
    TxInv(ch.closeTx) && TxInv(ch.settleTx)
  }

  lemma OnlyChangesTouchTxs(ch: Channel, a: Action)
    requires !a.Change?
    ensures var r := Step(ch, a).newState;
      r.Some? && r.value == ch.(our := r.value.our, partner := r.value.partner)
  {
    match a {
      case TransferOut(_, _, _) => TransferAdvances(ch, a);
      case RefundOut(_, _, _) => RefundAdvances(ch, a);
      case UnlockOut(_) => UnlockAdvances(ch, a);
      case ExpireOut(_, _) => ExpireAdvances(ch, a);
      case MessageIn(_, _) => MessageAdvances(ch, a);
      case LearnSecret(_, _) => SecretAdvances(ch, a);
      case SecretRevealed(_, _, _) => SecretAdvances(ch, a);
    }
  }

  lemma StepMovesForward(ch: Channel, a: Action)
    requires TxsInv(ch)
    ensures GetStatus(ch) != Unusable
    ensures var next := Step(ch, a).newState;
      next.Some? ==> TxsInv(next.value) && Rank(GetStatus(ch)) <= Rank(GetStatus(next.value))
  {
    if a.Change? {
      StateTransitionMovesForward(ch, a.change, a.blockNumber);
      StateTransitionKeepsTxInv(ch, a.change, a.blockNumber);
    } else {
      OnlyChangesTouchTxs(ch, a);
    }
  }

  /** Over every run the status only moves forward and never becomes unusable. */
  lemma {:induction false} StatusOnlyMovesForward(ch: Channel, actions: seq<Action>)
    requires TxsInv(ch) && Run(ch, actions).Some?
    ensures TxsInv(Run(ch, actions).value)
    ensures Rank(GetStatus(ch)) <= Rank(GetStatus(Run(ch, actions).value)) < Rank(Unusable)
    decreases |actions|
  {
    if actions != [] {
      StepMovesForward(ch, actions[0]);
      StatusOnlyMovesForward(Step(ch, actions[0]).newState.value, actions[1..]);
    }
  }

  /** A closed channel of any run knows its close block, so a block with the right number never fails. */
  lemma BlocksNeverFail(ch: Channel, actions: seq<Action>, blockNumber: BlockNumber)
    requires TxsInv(ch) && Run(ch, actions).Some?
    ensures AssertionFailed !in HandleBlock(Run(ch, actions).value, blockNumber, blockNumber).events
  {
    StatusOnlyMovesForward(ch, actions);
  }

  /** What stays of an end once its channel is not open: proof and tree, and the locks still pending. */
  ghost predicate Frozen(before: EndState, after: EndState) {
    && after.balanceProof == before.balanceProof && after.merkletree == before.merkletree
    && (DisjointDictionaries(before) ==> DisjointDictionaries(after) && LedgerOf(after) == LedgerOf(before))
  }

  /** Once the channel is no longer open, nothing either node does changes what the ends owe. */
  lemma {:induction false} FrozenOnceNotOpen(ch: Channel, actions: seq<Action>)
    requires TxsInv(ch) && GetStatus(ch) != Opened && Run(ch, actions).Some?
    ensures var end := Run(ch, actions).value;
      Frozen(ch.our, end.our) && Frozen(ch.partner, end.partner)
    decreases |actions|
  {
    if actions != [] {
      StepAdvances(ch, actions[0]);
      StepMovesForward(ch, actions[0]);
      FrozenOnceNotOpen(Step(ch, actions[0]).newState.value, actions[1..]);
    }
  }

  ghost function CountSettles(events: seq<Event>): nat {
    if events == [] then 0
    else (if events[0].ContractSendChannelSettle? then 1 else 0) + CountSettles(events[1..])
  }

  ghost function CountUpdates(events: seq<Event>): nat {
    if events == [] then 0
    else (if events[0].ContractSendChannelUpdateTransfer? then 1 else 0) + CountUpdates(events[1..])
  }

  lemma {:induction false} CountsAdd(a: seq<Event>, b: seq<Event>)
    ensures CountSettles(a + b) == CountSettles(a) + CountSettles(b)
    ensures CountUpdates(a + b) == CountUpdates(a) + CountUpdates(b)
  {
    if a == [] {
      assert a + b == b;
    } else {
      CountsAdd(a[1..], b);
      assert (a + b)[1..] == a[1..] + b;
    }
  }

  /** Messages and secrets lead to no transaction. */
  lemma OnlyChangesTransact(ch: Channel, a: Action)
    requires !a.Change?
    ensures var events := Step(ch, a).events;
      events == [] || (|events| == 1 && !events[0].ContractSendChannelSettle? && !events[0].ContractSendChannelUpdateTransfer?)
  {
  }

  lemma CountsOfOne(events: seq<Event>)
    requires |events| <= 1
    ensures CountSettles(events) == (if events != [] && events[0].ContractSendChannelSettle? then 1 else 0)
    ensures CountUpdates(events) == (if events != [] && events[0].ContractSendChannelUpdateTransfer? then 1 else 0)
  {
    if events != [] {
      assert events[1..] == [];
    }
  }

  /** A settle or an update is sent only on leaving the status that permits it. */
  lemma StepEvents(ch: Channel, a: Action)
    requires TxsInv(ch)
    ensures var r := Step(ch, a);
      && CountSettles(r.events) + CountUpdates(r.events) <= 1
      && (CountSettles(r.events) == 1 ==>
           && a.Change? && r.newState.Some?
           && GetStatus(ch) == Closed && GetStatus(r.newState.value) == Settling
           && ch.closeTx.value.finished.value + ch.settleTimeout < a.blockNumber)
      && (CountUpdates(r.events) == 1 ==>
           r.newState.Some? && PriorToClosed(ch) && GetStatus(r.newState.value) == Closed)
  {
    if a.Change? {
      StateTransitionMovesForward(ch, a.change, a.blockNumber);
    } else {
      OnlyChangesTransact(ch, a);
    }
    CountsOfOne(Step(ch, a).events);
  }

  /** A run sends at most one settle transaction and at most one update of the partner's proof. */
  lemma {:induction false} AtMostOneSettleAndUpdate(ch: Channel, actions: seq<Action>)
    requires TxsInv(ch)
    ensures CountSettles(RunEvents(ch, actions)) <= (if Rank(GetStatus(ch)) <= Rank(Closed) then 1 else 0)
    ensures CountUpdates(RunEvents(ch, actions)) <= (if PriorToClosed(ch) then 1 else 0)
    decreases |actions|
  {
    if actions != [] {
      var r := Step(ch, actions[0]);
      StepMovesForward(ch, actions[0]);
      StepEvents(ch, actions[0]);
      if r.newState.Some? {
        AtMostOneSettleAndUpdate(r.newState.value, actions[1..]);
        CountsAdd(r.events, RunEvents(r.newState.value, actions[1..]));
      } else {
        CountsAdd(r.events, []);
      }
    }
  }

  // ---------------------------------------------------------------- soundness

  lemma TransferIsSolid(ch: Channel, amount: nat, expiration: nat, s: SecretHash)
    requires Solid(ch) && SendLockedTransfer(ch, amount, expiration, s).Success?
    ensures Solid(SendLockedTransfer(ch, amount, expiration, s).value.0)
  {
    var our := SendLockedTransfer(ch, amount, expiration, s).value.0.our;
    CurrentIsAmount(ch.our);
    assert AddsLock(ch.our, our, Lock(amount, expiration, s));
    SoundWithLock(ch.our, our, Lock(amount, expiration, s));
  }

  lemma SentUnlockRemoves(ch: Channel, s: SecretHash) returns (lock: HashTimeLock)
    requires SendUnlock(ch, s).Success? && KeyedLocks(ch.our)
    ensures var ch' := SendUnlock(ch, s).value.0;
      ch' == ch.(our := ch'.our) && RemovesLock(ch.our, ch'.our, lock, lock.amount)
  {
    lock := GetLock(ch.our, s).value;
    LookupIsKeyed(ch.our, s);
  }

  lemma UnlockIsSolid(ch: Channel, s: SecretHash)
    requires Solid(ch) && SendUnlock(ch, s).Success?
    ensures Solid(SendUnlock(ch, s).value.0)
  {
    var lock := SentUnlockRemoves(ch, s);
    SoundWithoutLock(ch.our, SendUnlock(ch, s).value.0.our, lock, lock.amount);
  }

  lemma ExpireIsSolid(ch: Channel, lock: HashTimeLock)
    requires Solid(ch) && EventsForExpiredLock(ch, lock).Success?
    ensures Solid(EventsForExpiredLock(ch, lock).value.0)
  {
    var (ch', m) := EventsForExpiredLock(ch, lock).value;
    if m.Some? {
      assert DropsUnclaimed(ch.our, ch'.our, lock);
      SoundWithoutUnclaimed(ch.our, ch'.our, lock);
    }
  }

  lemma ReceivedTransferIsSolid(ch: Channel, proof: BalanceProof, lock: HashTimeLock)
    requires Solid(ch)
    ensures Solid(HandleReceiveLockedTransfer(ch, proof, lock).newState.value)
  {
    match CheckLockedTransfer(ch, ch.partner, ch.our, proof, lock) {
      case Failure(_) =>
      case Success(tree) =>
        CheckedTransfer(ch, proof, lock, tree);
        CurrentIsAmount(ch.partner);
        var partner := AddLock(ch.partner, proof, tree, lock);
        SoundWithLock(ch.partner, partner, lock);
    }
  }

  lemma PartnerLosesLock(ch: Channel, partner: EndState, lock: HashTimeLock, claimed: nat)
    requires Solid(ch) && RemovesLock(ch.partner, partner, lock, claimed)
    ensures Solid(ch.(partner := partner))
  {
    SoundWithoutLock(ch.partner, partner, lock, claimed);
  }

  lemma ReceivedUnlockIsSolid(ch: Channel, proof: BalanceProof, s: SecretHash)
    requires Solid(ch)
    ensures Solid(HandleUnlock(ch, proof, s).newState.value)
  {
    match CheckUnlock(ch, ch.partner, proof, s) {
      case Failure(_) =>
      case Success(tree) =>
        var lock := CheckedUnlock(ch, proof, s, tree);
        LookupIsKeyed(ch.partner, s);
        var partner := DelLock(ch.partner.(balanceProof := Some(proof), merkletree := tree), s);
        PartnerLosesLock(ch, partner, lock, lock.amount);
    }
  }

  lemma ReceivedExpiryIsSolid(ch: Channel, proof: BalanceProof, s: SecretHash, blockNumber: nat)
    requires Solid(ch)
    ensures Solid(HandleReceiveLockExpired(ch, proof, s, blockNumber).newState.value)
  {
    match CheckLockExpired(ch, ch.partner, ch.our, proof, s, blockNumber) {
      case Failure(_) =>
      case Success(tree) =>
        var lock := CheckedExpiry(ch, proof, s, blockNumber, tree);
        LookupIsKeyed(ch.partner, s);
        var before := ch.partner.(balanceProof := Some(proof), merkletree := tree);
        DelUnclaimedIsDelLock(before, s);
        PartnerLosesLock(ch, DelLock(before, s), lock, 0);
    }
  }

  lemma LearningIsSolid(ch: Channel, secret: Secret, s: SecretHash)
    requires Solid(ch)
    ensures Solid(RegisterOffchainSecret(ch, secret, s))
  {
    SoundWithSecret(ch.our, secret, s);
    SoundWithSecret(ch.partner, secret, s);
    BothEndsMove(ch, RegisterSecretEndState(ch.our, secret, s), RegisterSecretEndState(ch.partner, secret, s));
  }

  lemma RevealIsSolid(ch: Channel, secret: Secret, s: SecretHash, revealBlock: nat)
    requires Solid(ch)
    ensures Solid(RegisterOnchainSecret(ch, secret, s, revealBlock))
  {
    SoundWithOnchainSecret(ch.our, secret, s, revealBlock);
    SoundWithOnchainSecret(ch.partner, secret, s, revealBlock);
    BothEndsMove(ch, RegisterOnchainSecretEndState(ch.our, secret, s, revealBlock),
                 RegisterOnchainSecretEndState(ch.partner, secret, s, revealBlock));
  }

  lemma BothEndsMove(ch: Channel, our: EndState, partner: EndState)
    requires Solid(ch) && SoundEnd(our) && SoundEnd(partner) && Backed(partner)
    requires SameProof(ch.our, our) && AmountLocked(our) <= AmountLocked(ch.our)
    requires SameProof(ch.partner, partner) && AmountLocked(partner) <= AmountLocked(ch.partner)
    ensures Solid(ch.(our := our, partner := partner))
  {
  }

  lemma ChangeIsSolid(ch: Channel, change: StateChange, blockNumber: BlockNumber)
    requires Solid(ch)
    ensures var r := StateTransition(ch, change, blockNumber).newState; r.Some? ==> Solid(r.value)
  {
    var r := StateTransition(ch, change, blockNumber).newState;
    StateTransitionEffect(ch, change, blockNumber);
    StateTransitionKeepsTxInv(ch, change, blockNumber);
    if r.Some? {
      SoundButChain(ch.our, r.value.our);
      SoundButChain(ch.partner, r.value.partner);
    }
  }

  lemma SendIsSolid(ch: Channel, a: Action)
    requires Solid(ch) && (a.TransferOut? || a.RefundOut? || a.UnlockOut? || a.ExpireOut?)
    ensures var r := Step(ch, a).newState; r.Some? && Solid(r.value)
  {
    match a {
      case TransferOut(amount, expiration, s) =>
        if SendLockedTransfer(ch, amount, expiration, s).Success? {
          TransferIsSolid(ch, amount, expiration, s);
        }
      case RefundOut(amount, expiration, s) =>
        if SendLockedTransfer(ch, amount, expiration, s).Success? {
          TransferIsSolid(ch, amount, expiration, s);
        }
      case UnlockOut(s) =>
        if SendUnlock(ch, s).Success? {
          UnlockIsSolid(ch, s);
        }
      case ExpireOut(lock, _) =>
        if EventsForExpiredLock(ch, lock).Success? {
          ExpireIsSolid(ch, lock);
        }
    }
  }

  lemma StepIsSolid(ch: Channel, a: Action)
    requires Solid(ch)
    ensures var r := Step(ch, a).newState; r.Some? ==> Solid(r.value)
  {
    match a {
      case MessageIn(message, atBlock) =>
        match message {
          case LockedTransfer(proof, lock) => ReceivedTransferIsSolid(ch, proof, lock);
          case Unlock(proof, s) => ReceivedUnlockIsSolid(ch, proof, s);
          case LockExpired(proof, s) => ReceivedExpiryIsSolid(ch, proof, s, atBlock);
        }
      case LearnSecret(secret, s) => LearningIsSolid(ch, secret, s);
      case SecretRevealed(secret, s, revealBlock) => RevealIsSolid(ch, secret, s, revealBlock);
      case Change(change, blockNumber) => ChangeIsSolid(ch, change, blockNumber);
      case _ => SendIsSolid(ch, a);
    }
  }

  lemma {:induction false} EveryRunIsSolid(ch: Channel, actions: seq<Action>)
    requires Solid(ch)
    ensures Run(ch, actions).Some? ==> Solid(Run(ch, actions).value)
    decreases |actions|
  {
    if actions != [] {
      StepIsSolid(ch, actions[0]);
      var next := Step(ch, actions[0]).newState;
      if next.Some? {
        EveryRunIsSolid(next.value, actions[1..]);
      }
    }
  }

  // ---------------------------------------------------------------- the partner's proof

  /** An accepted proof replaces the stored one, and passed the checks that make it usable. */
  lemma ReceivedTransferIsUsable(ch: Channel, proof: BalanceProof, lock: HashTimeLock)
    requires Usable(ch)
    ensures Usable(HandleReceiveLockedTransfer(ch, proof, lock).newState.value)
  {
  }

  lemma ReceivedUnlockIsUsable(ch: Channel, proof: BalanceProof, s: SecretHash)
    requires Usable(ch)
    ensures Usable(HandleUnlock(ch, proof, s).newState.value)
  {
  }

  lemma ReceivedExpiryIsUsable(ch: Channel, proof: BalanceProof, s: SecretHash, blockNumber: nat)
    requires Usable(ch)
    ensures Usable(HandleReceiveLockExpired(ch, proof, s, blockNumber).newState.value)
  {
  }

  lemma ChangeIsUsable(ch: Channel, change: StateChange, blockNumber: BlockNumber)
    requires Usable(ch)
    ensures var r := StateTransition(ch, change, blockNumber).newState; r.Some? ==> Usable(r.value)
  {
    StateTransitionEffect(ch, change, blockNumber);
  }

  lemma SendIsUsable(ch: Channel, a: Action)
    requires Usable(ch) && (a.TransferOut? || a.RefundOut? || a.UnlockOut? || a.ExpireOut?)
    ensures var r := Step(ch, a).newState; r.Some? && Usable(r.value)
  {
    match a {
      case TransferOut(_, _, _) => TransferAdvances(ch, a);
      case RefundOut(_, _, _) => RefundAdvances(ch, a);
      case UnlockOut(_) => UnlockAdvances(ch, a);
      case ExpireOut(_, _) => ExpireAdvances(ch, a);
    }
  }

  lemma StepIsUsable(ch: Channel, a: Action)
    requires Usable(ch)
    ensures var r := Step(ch, a).newState; r.Some? ==> Usable(r.value)
  {
    match a {
      case MessageIn(message, atBlock) =>
        match message {
          case LockedTransfer(proof, lock) => ReceivedTransferIsUsable(ch, proof, lock);
          case Unlock(proof, s) => ReceivedUnlockIsUsable(ch, proof, s);
          case LockExpired(proof, s) => ReceivedExpiryIsUsable(ch, proof, s, atBlock);
        }
      case LearnSecret(_, _) =>
      case SecretRevealed(_, _, _) =>
      case Change(change, blockNumber) => ChangeIsUsable(ch, change, blockNumber);
      case _ => SendIsUsable(ch, a);
    }
  }

  lemma {:induction false} EveryRunIsUsable(ch: Channel, actions: seq<Action>)
    requires Usable(ch)
    ensures Run(ch, actions).Some? ==> Usable(Run(ch, actions).value)
    decreases |actions|
  {
    if actions != [] {
      StepIsUsable(ch, actions[0]);
      var next := Step(ch, actions[0]).newState;
      if next.Some? {
        EveryRunIsUsable(next.value, actions[1..]);
      }
    }
  }

  /**
    Whatever a node does and whatever it is sent, also when secret hashes are used twice: each end can
    cover its locks and states the root of a well-formed tree; and the proof we hold of the partner is
    signed by the partner for this channel, its amounts fit 256 bits, and it covers every lock we hold
    against the partner, by a leaf and by its amount.
   */
  lemma EveryRunIsSound(ch: Channel, actions: seq<Action>)
    requires Sound(ch)
    ensures Run(ch, actions).Some? ==> Sound(Run(ch, actions).value)
  {
    EveryRunIsSolid(ch, actions);
    EveryRunIsUsable(ch, actions);
  }

  /** After no run does the overflow assertion of a transfer fail: the balance check always fails first. */
  lemma OverflowNeverFails(ch: Channel, actions: seq<Action>, amount: nat, expiration: nat, s: SecretHash)
    requires Solid(ch) && Run(ch, actions).Some?
    ensures SendLockedTransfer(Run(ch, actions).value, amount, expiration, s) != Failure(WouldOverflow)
  {
    EveryRunIsSolid(ch, actions);
    CurrentIsAmount(Run(ch, actions).value.our);
  }
}
