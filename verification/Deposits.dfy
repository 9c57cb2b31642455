/**
  Deposits and their confirmation, over every run; and how the channel responds to an action that is
  applied twice, as replaying a write-ahead log does.
 */
module Deposits {
  import opened Wrappers
  import opened Locks
  import opened ChannelState
  import opened ChannelInvariant
  import opened Soundness
  import opened ChannelRuns

  ghost predicate Ordered(queue: seq<Deposit>) {
    forall i, j :: 0 <= i < j < |queue| ==> !DepositBefore(queue[j], queue[i])
  }

  ghost predicate Counts(d: Deposit, p: Address, b: nat) {
    d.participant == p && d.blockNumber + 5 < b
  }

  /** `v` is the largest of `initial` and the deposits of `p` in `ds` that are confirmed at block `b`. */
  ghost predicate IsMaximum(v: nat, initial: nat, ds: multiset<Deposit>, p: Address, b: nat) {
    && initial <= v
    && (forall d :: d in ds && Counts(d, p, b) ==> d.contractBalance <= v)
    && (v == initial || exists d :: d in ds && Counts(d, p, b) && d.contractBalance == v)
  }

  /** The queue holds exactly the deposits of `ds` that are not confirmed at block `b`. */
  ghost predicate HoldsUnconfirmed(queue: seq<Deposit>, ds: multiset<Deposit>, b: nat) {
    forall d :: multiset(queue)[d] == if d.blockNumber + 5 < b then 0 else ds[d]
  }

  lemma MaximumIsUnique(v: nat, w: nat, initial: nat, ds: multiset<Deposit>, es: multiset<Deposit>, p: Address, b: nat)
    requires IsMaximum(v, initial, ds, p, b) && IsMaximum(w, initial, es, p, b)
    requires forall d :: d in ds <==> d in es
    ensures v == w
  {
  }

  // ---------------------------------------------------------------- the heap

  lemma {:induction false} HeapPushAdds(queue: seq<Deposit>, d: Deposit)
    ensures multiset(HeapPush(queue, d)) == multiset(queue) + multiset{d}
  {
    if !(queue == [] || !DepositBefore(queue[0], d)) {
      HeapPushAdds(queue[1..], d);
      assert queue == [queue[0]] + queue[1..];
    }
  }

  lemma {:induction false} HeapPushKeepsOrder(queue: seq<Deposit>, d: Deposit)
    requires Ordered(queue)
    ensures Ordered(HeapPush(queue, d))
  {
    if queue != [] && DepositBefore(queue[0], d) {
      var rest := queue[1..];
      HeapPushKeepsOrder(rest, d);
      HeapPushAdds(rest, d);
      var pushed := HeapPush(rest, d);
      forall x | x in pushed ensures !DepositBefore(x, queue[0]) {
        assert x in multiset(pushed);
        assert x == d || x in rest;
      }
    } else if queue != [] {
      forall x | x in queue ensures !DepositBefore(x, d) {
        var i :| 0 <= i < |queue| && queue[i] == x;
        assert i == 0 || !DepositBefore(queue[i], queue[0]);
      }
    }
  }

  lemma FrontDecides(queue: seq<Deposit>, b: nat)
    requires Ordered(queue) && (queue == [] || !IsTransactionConfirmed(queue[0].blockNumber, b))
    ensures HoldsUnconfirmed(queue, multiset(queue), b)
  {
    forall d | d in multiset(queue) ensures !IsTransactionConfirmed(d.blockNumber, b) {
      var i :| 0 <= i < |queue| && queue[i] == d;
      assert i == 0 || !DepositBefore(queue[i], queue[0]);
    }
  }

  // ---------------------------------------------------------------- one block

  /** What the pop loop of `handle_block` computes, stated without the loop. */
  ghost predicate Absorbed(ch: Channel, ch': Channel, ds: multiset<Deposit>, b: nat) {
    && Ordered(ch'.depositQueue) && HoldsUnconfirmed(ch'.depositQueue, ds, b)
    && ch'.our.address == ch.our.address && ch'.partner.address == ch.partner.address
    && IsMaximum(ch'.our.contractBalance, ch.our.contractBalance, ds, ch.our.address, b)
    && IsMaximum(ch'.partner.contractBalance, ch.partner.contractBalance, ds, ch.partner.address, b)
  }

  lemma {:induction false} ConfirmedDepositsAreAbsorbed(ch: Channel, b: nat)
    requires Ordered(ch.depositQueue) && ch.our.address != ch.partner.address
    ensures Absorbed(ch, ApplyConfirmedDeposits(ch, b), multiset(ch.depositQueue), b)
    decreases |ch.depositQueue|
  {
    if !IsDepositConfirmed(ch, b) {
      FrontDecides(ch.depositQueue, b);
    } else {
      var d, rest := ch.depositQueue[0], ch.depositQueue[1..];
      assert ch.depositQueue == [d] + rest;
      var next := ApplyNewBalance(ch.(depositQueue := rest), d);
      OrderedRest(ch.depositQueue);
      ConfirmedDepositsAreAbsorbed(next, b);
      AbsorbedAfterPop(ch, next, ApplyConfirmedDeposits(next, b), d, rest, b);
    }
  }

  lemma AbsorbedAfterPop(ch: Channel, next: Channel, end: Channel, d: Deposit, rest: seq<Deposit>, b: nat)
    requires ch.depositQueue == [d] + rest && IsTransactionConfirmed(d.blockNumber, b)
    requires ch.our.address != ch.partner.address
    requires next == ApplyNewBalance(ch.(depositQueue := rest), d)
    requires Absorbed(next, end, multiset(rest), b)
    ensures Absorbed(ch, end, multiset(ch.depositQueue), b)
  {
    assert multiset(ch.depositQueue) == multiset{d} + multiset(rest);
    HoldsWithoutConfirmed(end.depositQueue, multiset(rest), d, b);
    AbsorbOneMore(ch.our.contractBalance, next.our.contractBalance, end.our.contractBalance, d, multiset(rest),
                  ch.our.address, b);
    AbsorbOneMore(ch.partner.contractBalance, next.partner.contractBalance, end.partner.contractBalance, d,
                  multiset(rest), ch.partner.address, b);
  }

  lemma HoldsWithoutConfirmed(queue: seq<Deposit>, rest: multiset<Deposit>, d: Deposit, b: nat)
    requires HoldsUnconfirmed(queue, rest, b) && IsTransactionConfirmed(d.blockNumber, b)
    ensures HoldsUnconfirmed(queue, multiset{d} + rest, b)
  {
    forall x ensures multiset(queue)[x] == if IsTransactionConfirmed(x.blockNumber, b) then 0 else (multiset{d} + rest)[x] {
      assert multiset(queue)[x] == if IsTransactionConfirmed(x.blockNumber, b) then 0 else rest[x];
    }
  }

  lemma OrderedRest(queue: seq<Deposit>)
    requires Ordered(queue) && queue != []
    ensures Ordered(queue[1..])
  {
  }

  lemma AbsorbOneMore(initial: nat, v: nat, w: nat, d: Deposit, rest: multiset<Deposit>, p: Address, b: nat)
    requires IsTransactionConfirmed(d.blockNumber, b)
    requires v == if d.participant == p && initial < d.contractBalance then d.contractBalance else initial
    requires IsMaximum(w, v, rest, p, b)
    ensures IsMaximum(w, initial, multiset{d} + rest, p, b)
  {
    var ds := multiset{d} + rest;
    assert d in ds;
    if w != v {
      var e :| e in rest && Counts(e, p, b) && e.contractBalance == w;
      assert e in ds;
    } else if v != initial {
      assert Counts(d, p, b);
    }
  }

  // ---------------------------------------------------------------- every run

  function BlockAfter(current: nat, a: Action): nat {
    if a.Change? then a.blockNumber else current
  }

  /** The block number rises only with the block of that number; everything else keeps it. */
  ghost predicate Paced(current: nat, actions: seq<Action>)
    decreases |actions|
  {
    actions == [] ||
    (&& (actions[0].Change? ==>
          if actions[0].change.Block? then current <= actions[0].blockNumber == actions[0].change.number
          else actions[0].blockNumber == current)
     && Paced(BlockAfter(current, actions[0]), actions[1..]))
  }

  function LastBlock(current: nat, actions: seq<Action>): nat
    decreases |actions|
  {
    if actions == [] then current else LastBlock(BlockAfter(current, actions[0]), actions[1..])
  }

  function ReceivedWith(a: Action): multiset<Deposit> {
    if a.Change? && a.change.ContractReceiveChannelNewBalance? then multiset{a.change.deposit} else multiset{}
  }

  function Received(actions: seq<Action>): multiset<Deposit> {
    if actions == [] then multiset{} else ReceivedWith(actions[0]) + Received(actions[1..])
  }

  /** Neither a block nor a deposit. */
  predicate LeavesDeposits(a: Action) {
    !(a.Change? && (a.change.Block? || a.change.ContractReceiveChannelNewBalance?))
  }

  ghost predicate SameDeposits(ch: Channel, ch': Channel) {
    && ch'.depositQueue == ch.depositQueue
    && ch'.our.contractBalance == ch.our.contractBalance && ch'.our.address == ch.our.address
    && ch'.partner.contractBalance == ch.partner.contractBalance && ch'.partner.address == ch.partner.address
  }

  lemma ChangesKeepDeposits(ch: Channel, change: StateChange, blockNumber: BlockNumber)
    requires !change.Block? && !change.ContractReceiveChannelNewBalance?
    ensures var r := StateTransition(ch, change, blockNumber).newState; r.Some? ==> SameDeposits(ch, r.value)
  {
  }

  lemma SendsKeepDeposits(ch: Channel, a: Action)
    requires a.TransferOut? || a.RefundOut? || a.UnlockOut? || a.ExpireOut?
    ensures var r := Step(ch, a).newState; r.Some? && SameDeposits(ch, r.value)
  {
  }

  lemma MessagesKeepDeposits(ch: Channel, a: Action)
    requires a.MessageIn?
    ensures var r := Step(ch, a).newState; r.Some? && SameDeposits(ch, r.value)
  {
  }

  lemma OthersKeepDeposits(ch: Channel, a: Action)
    requires LeavesDeposits(a)
    ensures var r := Step(ch, a).newState; r.Some? ==> SameDeposits(ch, r.value)
  {
    match a {
      case Change(change, blockNumber) => ChangesKeepDeposits(ch, change, blockNumber);
      case MessageIn(_, _) => MessagesKeepDeposits(ch, a);
      case LearnSecret(_, _) =>
      case SecretRevealed(_, _, _) =>
      case _ => SendsKeepDeposits(ch, a);
    }
  }

  lemma BlockMovesOn(initial: nat, v: nat, w: nat, ds: multiset<Deposit>, queue: seq<Deposit>, p: Address, b: nat, b': nat)
    requires b <= b' && IsMaximum(v, initial, ds, p, b) && HoldsUnconfirmed(queue, ds, b)
    requires IsMaximum(w, v, multiset(queue), p, b')
    ensures IsMaximum(w, initial, ds, p, b')
  {
    forall d | d in ds && Counts(d, p, b') ensures d.contractBalance <= w {
      if !IsTransactionConfirmed(d.blockNumber, b) {
        assert d in multiset(queue);
      }
    }
    if w != v {
      var d :| d in multiset(queue) && Counts(d, p, b') && d.contractBalance == w;
      assert d in ds && Counts(d, p, b');
    } else if v != initial {
      var d :| d in ds && Counts(d, p, b) && d.contractBalance == v;
      assert Counts(d, p, b');
    }
  }

  lemma BlockStep(ch0: Channel, ch: Channel, ds: multiset<Deposit>, b: nat, b': BlockNumber)
    requires Absorbed(ch0, ch, ds, b) && b <= b' && ch0.our.address != ch0.partner.address && TxsInv(ch)
    ensures HandleBlock(ch, b', b').newState.Some?
    ensures Absorbed(ch0, HandleBlock(ch, b', b').newState.value, ds, b')
  {
    var settling := if SettlementEnded(ch, b') then ch.(settleTx := Some(TxStatus(Some(b'), None, None))) else ch;
    var end := ApplyConfirmedDeposits(settling, b');
    assert HandleBlock(ch, b', b').newState == Some(end);
    ConfirmedDepositsAreAbsorbed(settling, b');
    BlockMovesOn(ch0.our.contractBalance, ch.our.contractBalance, end.our.contractBalance, ds,
                 ch.depositQueue, ch0.our.address, b, b');
    BlockMovesOn(ch0.partner.contractBalance, ch.partner.contractBalance, end.partner.contractBalance, ds,
                 ch.depositQueue, ch0.partner.address, b, b');
    forall d ensures multiset(end.depositQueue)[d] == if IsTransactionConfirmed(d.blockNumber, b') then 0 else ds[d] {
      assert multiset(ch.depositQueue)[d] == if IsTransactionConfirmed(d.blockNumber, b) then 0 else ds[d];
    }
  }

  lemma HoldsOneMore(queue: seq<Deposit>, pushed: seq<Deposit>, ds: multiset<Deposit>, d: Deposit, b: nat)
    requires HoldsUnconfirmed(queue, ds, b)
    requires if IsTransactionConfirmed(d.blockNumber, b) then pushed == queue
             else multiset(pushed) == multiset(queue) + multiset{d}
    ensures HoldsUnconfirmed(pushed, ds + multiset{d}, b)
  {
    forall x ensures multiset(pushed)[x] == if IsTransactionConfirmed(x.blockNumber, b) then 0 else (ds + multiset{d})[x] {
      assert multiset(queue)[x] == if IsTransactionConfirmed(x.blockNumber, b) then 0 else ds[x];
    }
  }

  lemma NewBalanceStep(ch0: Channel, ch: Channel, ds: multiset<Deposit>, d: Deposit, b: BlockNumber)
    requires Absorbed(ch0, ch, ds, b) && ch0.our.address != ch0.partner.address
    ensures HandleChannelNewBalance(ch, d, b).newState.Some?
    ensures Absorbed(ch0, HandleChannelNewBalance(ch, d, b).newState.value, ds + multiset{d}, b)
  {
    var ch' := HandleChannelNewBalance(ch, d, b).newState.value;
    HeapPushAdds(ch.depositQueue, d);
    HeapPushKeepsOrder(ch.depositQueue, d);
    HoldsOneMore(ch.depositQueue, ch'.depositQueue, ds, d, b);
    OneMoreDeposit(ch0.our.contractBalance, ch.our.contractBalance, ch'.our.contractBalance, ds, d, ch0.our.address, b);
    OneMoreDeposit(ch0.partner.contractBalance, ch.partner.contractBalance, ch'.partner.contractBalance, ds, d,
                   ch0.partner.address, b);
  }

  lemma OneMoreDeposit(initial: nat, v: nat, w: nat, ds: multiset<Deposit>, d: Deposit, p: Address, b: nat)
    requires IsMaximum(v, initial, ds, p, b)
    requires w == if Counts(d, p, b) && v < d.contractBalance then d.contractBalance else v
    ensures IsMaximum(w, initial, ds + multiset{d}, p, b)
  {
    var es := ds + multiset{d};
    if w != v {
      assert d in es;
    } else if v != initial {
      var e :| e in ds && Counts(e, p, b) && e.contractBalance == v;
      assert e in es;
    }
  }

  /**
    Whatever the order in which deposits arrive, at every point of a run each end's contract balance is
    the largest of where it started and its deposits confirmed by then, and the heap holds exactly the
    received deposits that are still unconfirmed.
   */
  lemma {:induction false} DepositsOverEveryRun(ch0: Channel, ch: Channel, ds: multiset<Deposit>, b: nat, actions: seq<Action>)
    requires Absorbed(ch0, ch, ds, b) && Paced(b, actions) && ch0.our.address != ch0.partner.address && TxsInv(ch)
    requires Run(ch, actions).Some?
    ensures Absorbed(ch0, Run(ch, actions).value, ds + Received(actions), LastBlock(b, actions))
    decreases |actions|
  {
    if actions == [] {
      assert ds + Received(actions) == ds;
    } else {
      var next := Step(ch, actions[0]).newState.value;
      var here := ds + ReceivedWith(actions[0]);
      assert ds + Received(actions) == here + Received(actions[1..]);
      OneStepAbsorbs(ch0, ch, ds, b, actions[0]);
      StepMovesForward(ch, actions[0]);
      DepositsOverEveryRun(ch0, next, here, BlockAfter(b, actions[0]), actions[1..]);
    }
  }

  lemma KeptIsAbsorbed(ch0: Channel, ch: Channel, ch': Channel, ds: multiset<Deposit>, b: nat)
    requires Absorbed(ch0, ch, ds, b) && SameDeposits(ch, ch')
    ensures Absorbed(ch0, ch', ds, b)
  {
  }

  lemma OtherStepAbsorbs(ch0: Channel, ch: Channel, ds: multiset<Deposit>, b: nat, a: Action)
    requires Absorbed(ch0, ch, ds, b) && LeavesDeposits(a)
    ensures var next := Step(ch, a).newState; next.Some? ==> Absorbed(ch0, next.value, ds, b)
  {
    OthersKeepDeposits(ch, a);
    var next := Step(ch, a).newState;
    if next.Some? {
      KeptIsAbsorbed(ch0, ch, next.value, ds, b);
    }
  }

  lemma BlockAbsorbs(ch0: Channel, ch: Channel, ds: multiset<Deposit>, b: nat, b': BlockNumber)
    requires Absorbed(ch0, ch, ds, b) && b <= b' && ch0.our.address != ch0.partner.address && TxsInv(ch)
    ensures var next := StateTransition(ch, Block(b'), b').newState;
      next.Some? ==> Absorbed(ch0, next.value, ds + multiset{}, b')
  {
    assert ds + multiset{} == ds;
    BlockStep(ch0, ch, ds, b, b');
  }

  lemma NewBalanceIsHandled(ch: Channel, d: Deposit, b: BlockNumber)
    ensures StateTransition(ch, ContractReceiveChannelNewBalance(d), b) == HandleChannelNewBalance(ch, d, b)
  {
  }

  lemma DepositAbsorbs(ch0: Channel, ch: Channel, ds: multiset<Deposit>, d: Deposit, b: BlockNumber)
    requires Absorbed(ch0, ch, ds, b) && ch0.our.address != ch0.partner.address
    ensures var next := StateTransition(ch, ContractReceiveChannelNewBalance(d), b).newState;
      next.Some? ==> Absorbed(ch0, next.value, ds + multiset{d}, b)
  {
    NewBalanceIsHandled(ch, d, b);
    NewBalanceStep(ch0, ch, ds, d, b);
  }

  lemma OneStepAbsorbs(ch0: Channel, ch: Channel, ds: multiset<Deposit>, b: nat, a: Action)
    requires Absorbed(ch0, ch, ds, b) && ch0.our.address != ch0.partner.address && TxsInv(ch) && Paced(b, [a])
    ensures var next := Step(ch, a).newState;
      next.Some? ==> Absorbed(ch0, next.value, ds + ReceivedWith(a), BlockAfter(b, a))
  {
    match a {
      case Change(Block(number), blockNumber) => BlockAbsorbs(ch0, ch, ds, b, blockNumber);
      case Change(ContractReceiveChannelNewBalance(d), blockNumber) => DepositAbsorbs(ch0, ch, ds, d, blockNumber);
      case _ =>
        assert ds + ReceivedWith(a) == ds;
        OtherStepAbsorbs(ch0, ch, ds, b, a);
    }
  }

  lemma NewChannelAbsorbed(ch: Channel, b: nat)
    requires ch.depositQueue == []
    ensures Absorbed(ch, ch, multiset{}, b)
  {
  }

  /** From the opening of a channel on: balances are maxima, and the heap holds what is unconfirmed. */
  lemma DepositsFromOpening(id: CanonicalIdentifier, settleTimeout: nat, fee: nat, our: EndState, partner: EndState,
                            b: nat, actions: seq<Action>)
    requires our.address != partner.address && Paced(b, actions)
    requires Run(NewChannel(id, settleTimeout, fee, our, partner), actions).Some?
    ensures var end := Run(NewChannel(id, settleTimeout, fee, our, partner), actions).value;
      && HoldsUnconfirmed(end.depositQueue, Received(actions), LastBlock(b, actions))
      && IsMaximum(end.our.contractBalance, our.contractBalance, Received(actions), our.address, LastBlock(b, actions))
      && IsMaximum(end.partner.contractBalance, partner.contractBalance, Received(actions), partner.address,
                   LastBlock(b, actions))
  {
    var ch := NewChannel(id, settleTimeout, fee, our, partner);
    NewChannelAbsorbed(ch, b);
    DepositsOverEveryRun(ch, ch, multiset{}, b, actions);
    assert multiset{} + Received(actions) == Received(actions);
  }

  // ---------------------------------------------------------------- applying a change twice

  lemma {:induction false} NoConfirmedDepositLeft(ch: Channel, b: nat)
    ensures !IsDepositConfirmed(ApplyConfirmedDeposits(ch, b), b)
    decreases |ch.depositQueue|
  {
    if IsDepositConfirmed(ch, b) {
      NoConfirmedDepositLeft(ApplyNewBalance(ch.(depositQueue := ch.depositQueue[1..]), ch.depositQueue[0]), b);
    }
  }

  lemma BlockTwice(ch: Channel, number: BlockNumber, b: BlockNumber)
    ensures var once := HandleBlock(ch, number, b).newState;
      once.Some? && HandleBlock(once.value, number, b).newState == once
  {
    if BlockFits(ch, number, b) {
      var once := EnterBlock(ch, b).newState.value;
      HandleBlockEffect(ch, b, b);
      NoConfirmedDepositLeft(ch, b);
      NoConfirmedDepositLeft(ch.(settleTx := Some(TxStatus(Some(b), None, None))), b);
      assert ApplyConfirmedDeposits(once, b) == once;
    }
  }

  /**
    Applying any state change again at the same block leaves a surviving channel as it was, except that
    a deposit which is not confirmed yet is queued a second time.
   */
  lemma AppliedTwice(ch: Channel, change: StateChange, b: BlockNumber)
    ensures var once := StateTransition(ch, change, b).newState;
      once.Some? ==>
        var twice := StateTransition(once.value, change, b).newState;
        if change.ContractReceiveChannelNewBalance? && !IsTransactionConfirmed(change.deposit.blockNumber, b)
        then twice == Some(once.value.(depositQueue := HeapPush(once.value.depositQueue, change.deposit)))
        else twice == once
  {
    if change.Block? {
      BlockTwice(ch, change.number, b);
    }
  }

  lemma TransferTwice(ch: Channel, amount: nat, expiration: nat, s: SecretHash)
    requires Solid(ch)
    ensures var once := Step(ch, TransferOut(amount, expiration, s)).newState;
      once.Some? && Step(once.value, TransferOut(amount, expiration, s)).newState == once
  {
    var r := SendLockedTransfer(ch, amount, expiration, s);
    if r.Success? {
      TreeAfterWith(ch.our.merkletree, Lock(amount, expiration, s), r.value.0.our.merkletree);
    }
  }

  lemma RefundTwice(ch: Channel, amount: nat, expiration: nat, s: SecretHash)
    requires Solid(ch)
    ensures var once := Step(ch, RefundOut(amount, expiration, s)).newState;
      once.Some? && Step(once.value, RefundOut(amount, expiration, s)).newState == once
  {
    var r := SendRefundTransfer(ch, amount, expiration, s);
    if r.Success? {
      TreeAfterWith(ch.our.merkletree, Lock(amount, expiration, s), r.value.0.our.merkletree);
    }
  }

  lemma UnlockTwice(ch: Channel, s: SecretHash)
    requires Solid(ch)
    ensures var once := Step(ch, UnlockOut(s)).newState;
      once.Some? && Step(once.value, UnlockOut(s)).newState == once
  {
    LookupIsKeyed(ch.our, s);
  }

  /** Once the expiry of a lock has been sent, there is nothing to send for it. */
  lemma ExpiryIsSentOnce(ch: Channel, lock: HashTimeLock)
    requires Solid(ch) && EventsForExpiredLock(ch, lock).Success? && EventsForExpiredLock(ch, lock).value.1.Some?
    ensures var sent := EventsForExpiredLock(ch, lock).value.0; EventsForExpiredLock(sent, lock) == Success((sent, None))
  {
    TreeAfterWithout(ch.our.merkletree, lock, EventsForExpiredLock(ch, lock).value.0.our.merkletree);
  }

  lemma ExpireTwice(ch: Channel, lock: HashTimeLock, atBlock: nat)
    requires Solid(ch)
    ensures var once := Step(ch, ExpireOut(lock, atBlock)).newState;
      once.Some? && Step(once.value, ExpireOut(lock, atBlock)).newState == once
  {
    var r := EventsForExpiredLock(ch, lock);
    if r.Success? && r.value.1.Some? {
      ExpiryIsSentOnce(ch, lock);
      assert Expired(r.value.0, Success((r.value.0, None))).newState == Some(r.value.0);
    }
  }

  lemma TransferInTwice(ch: Channel, proof: BalanceProof, lock: HashTimeLock)
    ensures var once := HandleReceiveLockedTransfer(ch, proof, lock).newState;
      once.Some? && HandleReceiveLockedTransfer(once.value, proof, lock).newState == once
  {
  }

  lemma UnlockInTwice(ch: Channel, proof: BalanceProof, s: SecretHash)
    ensures var once := HandleUnlock(ch, proof, s).newState;
      once.Some? && HandleUnlock(once.value, proof, s).newState == once
  {
  }

  lemma ExpiryInTwice(ch: Channel, proof: BalanceProof, s: SecretHash, atBlock: nat)
    ensures var once := HandleReceiveLockExpired(ch, proof, s, atBlock).newState;
      once.Some? && HandleReceiveLockExpired(once.value, proof, s, atBlock).newState == once
  {
  }

  lemma SecretTwice(ch: Channel, secret: Secret, s: SecretHash, revealBlock: nat)
    ensures var once := RegisterOffchainSecret(ch, secret, s); RegisterOffchainSecret(once, secret, s) == once
    ensures var once := RegisterOnchainSecret(ch, secret, s, revealBlock);
      RegisterOnchainSecret(once, secret, s, revealBlock) == once
  {
  }

  predicate QueuesDeposit(a: Action) {
    && a.Change? && a.change.ContractReceiveChannelNewBalance?
    && !IsTransactionConfirmed(a.change.deposit.blockNumber, a.blockNumber)
  }

  lemma SendTwice(ch: Channel, a: Action)
    requires Solid(ch) && (a.TransferOut? || a.RefundOut? || a.UnlockOut? || a.ExpireOut?)
    ensures var once := Step(ch, a).newState; once.Some? && Step(once.value, a).newState == once
  {
    match a {
      case TransferOut(amount, expiration, s) => TransferTwice(ch, amount, expiration, s);
      case RefundOut(amount, expiration, s) => RefundTwice(ch, amount, expiration, s);
      case UnlockOut(s) => UnlockTwice(ch, s);
      case ExpireOut(lock, atBlock) => ExpireTwice(ch, lock, atBlock);
    }
  }

  lemma MessageTwice(ch: Channel, message: Message, atBlock: nat)
    ensures var once := Receive(ch, message, atBlock).newState;
      once.Some? && Receive(once.value, message, atBlock).newState == once
  {
    match message {
      case LockedTransfer(proof, lock) => TransferInTwice(ch, proof, lock);
      case Unlock(proof, s) => UnlockInTwice(ch, proof, s);
      case LockExpired(proof, s) => ExpiryInTwice(ch, proof, s, atBlock);
    }
  }

  /** The same for every action: a message received or sent, a secret learnt, a reveal, a state change. */
  lemma StepTwice(ch: Channel, a: Action)
    requires Solid(ch)
    ensures var once := Step(ch, a).newState;
      once.Some? ==>
        var twice := Step(once.value, a).newState;
        if QueuesDeposit(a)
        then twice == Some(once.value.(depositQueue := HeapPush(once.value.depositQueue, a.change.deposit)))
        else twice == once
  {
    match a {
      case MessageIn(message, atBlock) => MessageTwice(ch, message, atBlock);
      case LearnSecret(secret, s) => SecretTwice(ch, secret, s, 0);
      case SecretRevealed(secret, s, revealBlock) => SecretTwice(ch, secret, s, revealBlock);
      case Change(change, blockNumber) => AppliedTwice(ch, change, blockNumber);
      case _ => SendTwice(ch, a);
    }
  }

  /** Equal but for how often a deposit sits in the queue. */
  ghost predicate SameUpToRepeats(ch: Channel, ch': Channel) {
    && ch'.(depositQueue := ch.depositQueue) == ch
    && Ordered(ch.depositQueue) && Ordered(ch'.depositQueue)
    && forall d :: d in ch.depositQueue <==> d in ch'.depositQueue
  }

  lemma RepeatedDepositIsRepeat(ch: Channel, d: Deposit)
    requires Ordered(ch.depositQueue) && d in ch.depositQueue
    ensures SameUpToRepeats(ch.(depositQueue := HeapPush(ch.depositQueue, d)), ch)
  {
    HeapPushAdds(ch.depositQueue, d);
    HeapPushKeepsOrder(ch.depositQueue, d);
    var pushed := HeapPush(ch.depositQueue, d);
    forall x ensures x in pushed <==> x in ch.depositQueue {
      assert x in pushed <==> x in multiset(pushed);
      assert x in ch.depositQueue <==> x in multiset(ch.depositQueue);
    }
  }

  lemma ConfirmedDepositsRespectRepeats(ch: Channel, ch': Channel, b: nat)
    requires SameUpToRepeats(ch, ch') && ch.our.address != ch.partner.address
    ensures SameUpToRepeats(ApplyConfirmedDeposits(ch, b), ApplyConfirmedDeposits(ch', b))
  {
    var end, end' := ApplyConfirmedDeposits(ch, b), ApplyConfirmedDeposits(ch', b);
    var ds, ds' := multiset(ch.depositQueue), multiset(ch'.depositQueue);
    forall d ensures d in ds <==> d in ds' {
      assert (d in ds <==> d in ch.depositQueue) && (d in ds' <==> d in ch'.depositQueue);
    }
    ConfirmedDepositsAreAbsorbed(ch, b);
    ConfirmedDepositsAreAbsorbed(ch', b);
    DepositsTouchOnlyDeposits(ch, b);
    DepositsTouchOnlyDeposits(ch', b);
    MaximumIsUnique(end.our.contractBalance, end'.our.contractBalance, ch.our.contractBalance, ds, ds', ch.our.address, b);
    MaximumIsUnique(end.partner.contractBalance, end'.partner.contractBalance, ch.partner.contractBalance, ds, ds',
                    ch.partner.address, b);
    SameUnconfirmed(end.depositQueue, end'.depositQueue, ds, ds', b);
  }

  lemma SameUnconfirmed(q: seq<Deposit>, q': seq<Deposit>, ds: multiset<Deposit>, ds': multiset<Deposit>, b: nat)
    requires HoldsUnconfirmed(q, ds, b) && HoldsUnconfirmed(q', ds', b)
    requires forall d :: d in ds <==> d in ds'
    ensures forall d :: d in q <==> d in q'
  {
    forall d ensures d in q <==> d in q' {
      assert (d in q <==> multiset(q)[d] > 0) && (d in q' <==> multiset(q')[d] > 0);
      assert d in ds <==> d in ds';
    }
  }

  lemma PushRespectsRepeats(ch: Channel, ch': Channel, d: Deposit)
    requires SameUpToRepeats(ch, ch')
    ensures SameUpToRepeats(ch.(depositQueue := HeapPush(ch.depositQueue, d)),
                            ch'.(depositQueue := HeapPush(ch'.depositQueue, d)))
  {
    HeapPushAdds(ch.depositQueue, d);
    HeapPushAdds(ch'.depositQueue, d);
    HeapPushKeepsOrder(ch.depositQueue, d);
    HeapPushKeepsOrder(ch'.depositQueue, d);
    var q, q' := HeapPush(ch.depositQueue, d), HeapPush(ch'.depositQueue, d);
    forall x ensures x in q <==> x in q' {
      assert (x in q <==> x in multiset(q)) && (x in q' <==> x in multiset(q'));
      assert (x in ch.depositQueue <==> x in multiset(ch.depositQueue));
      assert (x in ch'.depositQueue <==> x in multiset(ch'.depositQueue));
    }
  }

  ghost predicate RespondAlike(ch: Channel, r: TransitionResult, r': TransitionResult) {
    && (r.newState.Some? <==> r'.newState.Some?)
    && (r.newState.Some? ==>
         && SameUpToRepeats(r.newState.value, r'.newState.value)
         && r.newState.value.our.address == ch.our.address && r.newState.value.partner.address == ch.partner.address)
  }

  lemma BlockRespectsRepeats(ch: Channel, ch': Channel, number: BlockNumber, b: BlockNumber)
    requires SameUpToRepeats(ch, ch') && ch.our.address != ch.partner.address
    ensures RespondAlike(ch, HandleBlock(ch, number, b), HandleBlock(ch', number, b))
  {
    var tx := Some(TxStatus(Some(b), None, None));
    HandleBlockEffect(ch, number, b);
    if SettlementEnded(ch, b) {
      ConfirmedDepositsRespectRepeats(ch.(settleTx := tx), ch'.(settleTx := tx), b);
    } else {
      ConfirmedDepositsRespectRepeats(ch, ch', b);
    }
  }

  lemma NewBalanceRespectsRepeats(ch: Channel, ch': Channel, d: Deposit, b: BlockNumber)
    requires SameUpToRepeats(ch, ch')
    ensures RespondAlike(ch, HandleChannelNewBalance(ch, d, b), HandleChannelNewBalance(ch', d, b))
  {
    PushRespectsRepeats(ch, ch', d);
  }

  /** All actions but blocks and deposits do the same whatever the queue holds. */
  ghost predicate IgnoresQueue(ch: Channel, queue: seq<Deposit>, r: TransitionResult, r': TransitionResult) {
    r'.newState == if r.newState == None then None else Some(r.newState.value.(depositQueue := queue))
  }

  lemma ChangeIgnoresQueue(ch: Channel, queue: seq<Deposit>, change: StateChange, blockNumber: BlockNumber)
    requires !change.Block? && !change.ContractReceiveChannelNewBalance?
    ensures IgnoresQueue(ch, queue, StateTransition(ch, change, blockNumber),
                         StateTransition(ch.(depositQueue := queue), change, blockNumber))
  {
  }

  lemma CreationIgnoresQueue(ch: Channel, queue: seq<Deposit>, amount: nat, expiration: nat, s: SecretHash)
    ensures var ch' := ch.(depositQueue := queue);
      CreateSendLockedTransfer(ch', amount, expiration, s) == CreateSendLockedTransfer(ch, amount, expiration, s)
  {
  }

  lemma SendIgnoresQueue(ch: Channel, queue: seq<Deposit>, a: Action)
    requires a.TransferOut? || a.RefundOut?
    ensures IgnoresQueue(ch, queue, Step(ch, a), Step(ch.(depositQueue := queue), a))
  {
    CreationIgnoresQueue(ch, queue, a.amount, a.expiration, a.secrethash);
  }

  lemma UnlockIgnoresQueue(ch: Channel, queue: seq<Deposit>, s: SecretHash)
    ensures IgnoresQueue(ch, queue, Step(ch, UnlockOut(s)), Step(ch.(depositQueue := queue), UnlockOut(s)))
  {
    var ch' := ch.(depositQueue := queue);
    assert GetLock(ch.our, s).Some? ==> CreateUnlock(ch', GetLock(ch.our, s).value) == CreateUnlock(ch, GetLock(ch.our, s).value);
  }

  lemma ExpireIgnoresQueue(ch: Channel, queue: seq<Deposit>, lock: HashTimeLock, atBlock: nat)
    ensures IgnoresQueue(ch, queue, Step(ch, ExpireOut(lock, atBlock)), Step(ch.(depositQueue := queue), ExpireOut(lock, atBlock)))
  {
  }

  lemma ValidationIgnoresQueue(ch: Channel, queue: seq<Deposit>, sender: EndState, receiver: EndState,
                               proof: BalanceProof, lock: HashTimeLock)
    ensures var ch' := ch.(depositQueue := queue);
      CheckLockedTransfer(ch', sender, receiver, proof, lock) == CheckLockedTransfer(ch, sender, receiver, proof, lock)
  {
    assert CheckProof(ch.(depositQueue := queue), sender, proof) == CheckProof(ch, sender, proof);
  }

  lemma TransferInIgnoresQueue(ch: Channel, queue: seq<Deposit>, proof: BalanceProof, lock: HashTimeLock)
    ensures IgnoresQueue(ch, queue, HandleReceiveLockedTransfer(ch, proof, lock),
                         HandleReceiveLockedTransfer(ch.(depositQueue := queue), proof, lock))
  {
    ValidationIgnoresQueue(ch, queue, ch.partner, ch.our, proof, lock);
  }

  lemma UnlockInIgnoresQueue(ch: Channel, queue: seq<Deposit>, proof: BalanceProof, s: SecretHash)
    ensures IgnoresQueue(ch, queue, HandleUnlock(ch, proof, s), HandleUnlock(ch.(depositQueue := queue), proof, s))
  {
  }

  lemma ExpiryInIgnoresQueue(ch: Channel, queue: seq<Deposit>, proof: BalanceProof, s: SecretHash, atBlock: nat)
    ensures IgnoresQueue(ch, queue, HandleReceiveLockExpired(ch, proof, s, atBlock),
                         HandleReceiveLockExpired(ch.(depositQueue := queue), proof, s, atBlock))
  {
  }

  lemma StepIgnoresQueue(ch: Channel, queue: seq<Deposit>, a: Action)
    requires LeavesDeposits(a)
    ensures IgnoresQueue(ch, queue, Step(ch, a), Step(ch.(depositQueue := queue), a))
  {
    match a {
      case TransferOut(_, _, _) => SendIgnoresQueue(ch, queue, a);
      case RefundOut(_, _, _) => SendIgnoresQueue(ch, queue, a);
      case UnlockOut(s) => UnlockIgnoresQueue(ch, queue, s);
      case ExpireOut(lock, atBlock) => ExpireIgnoresQueue(ch, queue, lock, atBlock);
      case MessageIn(message, atBlock) =>
        match message {
          case LockedTransfer(proof, lock) => TransferInIgnoresQueue(ch, queue, proof, lock);
          case Unlock(proof, s) => UnlockInIgnoresQueue(ch, queue, proof, s);
          case LockExpired(proof, s) => ExpiryInIgnoresQueue(ch, queue, proof, s, atBlock);
        }
      case LearnSecret(_, _) =>
      case SecretRevealed(_, _, _) =>
      case Change(change, blockNumber) => ChangeIgnoresQueue(ch, queue, change, blockNumber);
    }
  }

  lemma OthersRespectRepeats(ch: Channel, ch': Channel, a: Action)
    requires SameUpToRepeats(ch, ch') && LeavesDeposits(a)
    ensures RespondAlike(ch, Step(ch, a), Step(ch', a))
  {
    OthersKeepDeposits(ch, a);
    StepIgnoresQueue(ch, ch'.depositQueue, a);
    assert ch' == ch.(depositQueue := ch'.depositQueue);
    AlikeButQueue(ch, ch', Step(ch, a), Step(ch', a));
  }

  lemma AlikeButQueue(ch: Channel, ch': Channel, r: TransitionResult, r': TransitionResult)
    requires SameUpToRepeats(ch, ch') && IgnoresQueue(ch, ch'.depositQueue, r, r')
    requires r.newState.Some? ==> SameDeposits(ch, r.newState.value)
    ensures RespondAlike(ch, r, r')
  {
  }

  /** Channels that differ only in repeated deposits respond alike to every action. */
  lemma StepRespectsRepeats(ch: Channel, ch': Channel, a: Action)
    requires SameUpToRepeats(ch, ch') && ch.our.address != ch.partner.address
    ensures RespondAlike(ch, Step(ch, a), Step(ch', a))
  {
    if LeavesDeposits(a) {
      OthersRespectRepeats(ch, ch', a);
    } else if a.change.Block? {
      BlockRespectsRepeats(ch, ch', a.change.number, a.blockNumber);
    } else {
      NewBalanceRespectsRepeats(ch, ch', a.change.deposit, a.blockNumber);
    }
  }

  /** On every later run they stay so, and have the same contract balances throughout. */
  lemma {:induction false} RunsRespectRepeats(ch: Channel, ch': Channel, actions: seq<Action>)
    requires SameUpToRepeats(ch, ch') && ch.our.address != ch.partner.address
    ensures var r, r' := Run(ch, actions), Run(ch', actions);
      && (r.Some? <==> r'.Some?)
      && (r.Some? ==>
           && SameUpToRepeats(r.value, r'.value)
           && r.value.our.contractBalance == r'.value.our.contractBalance
           && r.value.partner.contractBalance == r'.value.partner.contractBalance)
    decreases |actions|
  {
    if actions != [] {
      StepRespectsRepeats(ch, ch', actions[0]);
      var next, next' := Step(ch, actions[0]).newState, Step(ch', actions[0]).newState;
      if next.Some? {
        RunsRespectRepeats(next.value, next'.value, actions[1..]);
      }
    }
  }
}
