/**
  The write-ahead log of a channel. Its entries are everything that changes a channel: messages received
  and sent, secrets learnt and revealed, and the changes of chain and user. A node that restarts from a
  snapshot gets its channel back, with every lock, tree and proof, up to deposits that sit in the queue
  more than once and make no difference to any balance.
 */
module ChannelLog {
  import opened Wrappers
  import opened Locks
  import opened ChannelState
  import opened ChannelInvariant
  import opened Soundness
  import opened ChannelRuns
  import opened Deposits
  import opened WriteAheadLog

  /** The transition of a channel that was opened as `start`; nothing is left once it has been cleared. */
  ghost function ChannelTransition(start: Channel): Transition<Option<Channel>, Action> {
    (state: Option<Option<Channel>>, a: Action) => Continue(if state == None then Some(start) else state.value, a)
  }

  ghost function Continue(ch: Option<Channel>, a: Action): Option<Channel> {
    if ch == None then None else Step(ch.value, a).newState
  }

  ghost predicate Good(ch: Channel) {
    Solid(ch) && Ordered(ch.depositQueue)
  }

  ghost predicate SameChannel(a: Option<Channel>, b: Option<Channel>) {
    || (a == None && b == None)
    || (a.Some? && b.Some? && Good(a.value) && SameUpToRepeats(a.value, b.value))
  }

  ghost function SameChannels(): (Option<Channel>, Option<Channel>) -> bool {
    (a, b) => SameChannel(a, b)
  }

  lemma StepIsGood(ch: Channel, a: Action)
    requires Good(ch)
    ensures var r := Step(ch, a).newState; r.Some? ==> Good(r.value)
  {
    StepIsSolid(ch, a);
    assert SameUpToRepeats(ch, ch);
    StepRespectsRepeats(ch, ch, a);
  }

  lemma {:induction false} LogLeadsToGood(start: Channel, state: Option<Option<Channel>>, log: seq<Action>)
    requires Good(start) && (state.Some? && state.value.Some? ==> Good(state.value.value))
    ensures var r := Fold(ChannelTransition(start), state, log);
      r.Some? && r.value.Some? ==> Good(r.value.value)
    decreases |log|
  {
    if log != [] {
      var before := if state == None then Some(start) else state.value;
      if before.Some? {
        StepIsGood(before.value, log[0]);
      }
      LogLeadsToGood(start, Some(ChannelTransition(start)(state, log[0])), log[1..]);
    }
  }

  lemma RepeatedDepositIsSame(ch: Channel, d: Deposit)
    requires Good(ch)
    ensures var once := ch.(depositQueue := HeapPush(ch.depositQueue, d));
      var twice := once.(depositQueue := HeapPush(once.depositQueue, d));
      Good(twice) && SameUpToRepeats(twice, once)
  {
    HeapPushKeepsOrder(ch.depositQueue, d);
    HeapPushAdds(ch.depositQueue, d);
    var once := ch.(depositQueue := HeapPush(ch.depositQueue, d));
    assert d in multiset(once.depositQueue);
    RepeatedDepositIsRepeat(once, d);
  }

  lemma QueuedTwiceIsSame(ch: Channel, a: Action)
    requires Good(ch) && QueuesDeposit(a)
    ensures var once := Step(ch, a).newState;
      once.Some? && SameChannel(Some(once.value.(depositQueue := HeapPush(once.value.depositQueue, a.change.deposit))), once)
  {
    RepeatedDepositIsSame(ch, a.change.deposit);
  }

  /** Applying an action twice is as good as applying it once. */
  lemma RepeatedStepIsSame(before: Option<Channel>, a: Action)
    requires before.Some? ==> Good(before.value)
    ensures var after := Continue(before, a);
      SameChannel(after, after) && SameChannel(Continue(after, a), after)
  {
    if before.Some? {
      StepIsGood(before.value, a);
      StepTwice(before.value, a);
      if QueuesDeposit(a) {
        QueuedTwiceIsSame(before.value, a);
      }
    }
  }

  lemma SameChannelStep(x: Option<Channel>, y: Option<Channel>, a: Action)
    requires SameChannel(x, y)
    ensures SameChannel(Continue(x, a), Continue(y, a))
  {
    if x.Some? {
      StepRespectsRepeats(x.value, y.value, a);
      StepIsGood(x.value, a);
    }
  }

  lemma SameChannelIsTransitive(a: Option<Channel>, b: Option<Channel>, c: Option<Channel>)
    requires SameChannel(a, b) && SameChannel(b, c)
    ensures SameChannel(a, c)
  {
  }

  lemma ChannelsAreTreatedAlike(start: Channel)
    requires Good(start)
    ensures TreatsAlike(ChannelTransition(start), SameChannels())
    ensures RepeatsHarmless(ChannelTransition(start), SameChannels())
  {
    var t, r := ChannelTransition(start), SameChannels();
    forall a, b, c | r(a, b) && r(b, c) ensures r(a, c) {
      SameChannelIsTransitive(a, b, c);
    }
    forall a, b, entry | r(a, b) ensures r(t(Some(a), entry), t(Some(b), entry)) {
      SameChannelStep(a, b, entry);
    }
    forall log: seq<Action>, entry
      ensures var after := t(Fold(t, None, log), entry); r(after, after) && r(t(Some(after), entry), after)
    {
      LogLeadsToGood(start, None, log);
      var state := Fold(t, None, log);
      RepeatedStepIsSame(if state == None then Some(start) else state.value, entry);
    }
  }

  /**
    In every run of logging, snapshots and restarts, the channel in memory is the one that replaying
    its whole log gives, with equal balances, proofs and locks, but for deposits queued repeatedly.
   */
  lemma RestartKeepsChannel(start: Channel, actions: seq<WalAction<Action>>)
    requires Good(start)
    ensures var wal := WalRun(ChannelTransition(start), EmptyWal(), actions);
      var exact := Fold(ChannelTransition(start), None, wal.changes);
      && (wal.current.Some? <==> wal.changes != [])
      && (wal.changes != [] ==> exact.Some? && SameChannel(wal.current.value, exact.value))
  {
    var t, r := ChannelTransition(start), SameChannels();
    ChannelsAreTreatedAlike(start);
    EveryRunFitsLog(t, r, EmptyWal(), actions);
    var wal := WalRun(t, EmptyWal(), actions);
    if wal.changes != [] {
      FoldIsSome(t, None, wal.changes);
    }
  }

  // ---------------------------------------------------------------- entries that raise

  /** Whether an action stops with an exception, which leaves the channel as it was. */
  ghost predicate Raises(ch: Channel, a: Action) {
    match a
    case TransferOut(amount, expiration, s) => SendLockedTransfer(ch, amount, expiration, s).Failure?
    case RefundOut(amount, expiration, s) => SendRefundTransfer(ch, amount, expiration, s).Failure?
    case UnlockOut(s) => SendUnlock(ch, s).Failure?
    case ExpireOut(lock, _) => EventsForExpiredLock(ch, lock).Failure?
    case Change(change, blockNumber) => StateTransition(ch, change, blockNumber).events == [AssertionFailed]
    case _ => false
  }

  /** No entry of the log raises; a cleared channel is not asked any more. */
  ghost predicate RunsThrough(ch: Option<Channel>, log: seq<Action>)
    decreases |log|
  {
    log == [] || ((ch.Some? ==> !Raises(ch.value, log[0])) && RunsThrough(Continue(ch, log[0]), log[1..]))
  }

  /** The channel after a log, when each entry is applied once. */
  ghost function After(ch: Option<Channel>, log: seq<Action>): Option<Channel>
    decreases |log|
  {
    if log == [] then ch else After(Continue(ch, log[0]), log[1..])
  }

  lemma {:induction false} FoldIsAfter(start: Channel, state: Option<Option<Channel>>, log: seq<Action>)
    ensures var before := if state == None then Some(start) else state.value;
      Fold(ChannelTransition(start), state, log) == if log == [] then state else Some(After(before, log))
    decreases |log|
  {
    if log != [] {
      FoldIsAfter(start, Some(ChannelTransition(start)(state, log[0])), log[1..]);
    }
  }

  /** The actions that make a new claim on the sender, and so cannot be made twice. */
  predicate MakesNewProof(a: Action) {
    a.TransferOut? || a.RefundOut? || a.UnlockOut?
  }

  lemma TransferRepeated(ch: Channel, a: Action)
    requires Solid(ch) && a.TransferOut? && !Raises(ch, a)
    ensures var once := Step(ch, a).newState; once.Some? && Raises(once.value, a)
  {
    var our := Step(ch, a).newState.value.our;
    TreeAfterWith(ch.our.merkletree, Lock(a.amount, a.expiration, a.secrethash), our.merkletree);
  }

  lemma RefundRepeated(ch: Channel, a: Action)
    requires Solid(ch) && a.RefundOut? && !Raises(ch, a)
    ensures var once := Step(ch, a).newState; once.Some? && Raises(once.value, a)
  {
    var our := Step(ch, a).newState.value.our;
    TreeAfterWith(ch.our.merkletree, Lock(a.amount, a.expiration, a.secrethash), our.merkletree);
  }

  lemma UnlockRepeated(ch: Channel, s: SecretHash)
    requires Solid(ch) && !Raises(ch, UnlockOut(s))
    ensures var once := Step(ch, UnlockOut(s)).newState; once.Some? && Raises(once.value, UnlockOut(s))
  {
    LookupIsKeyed(ch.our, s);
  }

  lemma ExpireRepeated(ch: Channel, lock: HashTimeLock, atBlock: nat)
    requires Solid(ch) && !Raises(ch, ExpireOut(lock, atBlock))
    ensures var once := Step(ch, ExpireOut(lock, atBlock)).newState; once.Some? && !Raises(once.value, ExpireOut(lock, atBlock))
  {
    var r := EventsForExpiredLock(ch, lock);
    if r.value.1.Some? {
      TreeAfterWithout(ch.our.merkletree, lock, r.value.0.our.merkletree);
    }
  }

  lemma ChangeRepeated(ch: Channel, change: StateChange, blockNumber: BlockNumber)
    requires TxsInv(ch) && !Raises(ch, Change(change, blockNumber))
    ensures var once := StateTransition(ch, change, blockNumber).newState;
      once.Some? ==> !Raises(once.value, Change(change, blockNumber))
  {
    StateTransitionEffect(ch, change, blockNumber);
    StateTransitionKeepsTxInv(ch, change, blockNumber);
  }

  /** An action that did not raise raises when it is applied again exactly if it makes a new proof. */
  lemma RepeatRaisesIff(ch: Channel, a: Action)
    requires Solid(ch) && !Raises(ch, a)
    ensures var once := Step(ch, a).newState; once.Some? ==> (Raises(once.value, a) <==> MakesNewProof(a))
  {
    match a {
      case TransferOut(_, _, _) => TransferRepeated(ch, a);
      case RefundOut(_, _, _) => RefundRepeated(ch, a);
      case UnlockOut(s) => UnlockRepeated(ch, s);
      case ExpireOut(lock, atBlock) => ExpireRepeated(ch, lock, atBlock);
      case Change(change, blockNumber) => ChangeRepeated(ch, change, blockNumber);
      case _ =>
    }
  }

  lemma SendRaisesAlike(ch: Channel, queue: seq<Deposit>, a: Action)
    requires a.TransferOut? || a.RefundOut?
    ensures Raises(ch.(depositQueue := queue), a) <==> Raises(ch, a)
  {
    CreationIgnoresQueue(ch, queue, a.amount, a.expiration, a.secrethash);
  }

  lemma RemovalRaisesAlike(ch: Channel, queue: seq<Deposit>, a: Action)
    requires a.UnlockOut? || a.ExpireOut?
    ensures Raises(ch.(depositQueue := queue), a) <==> Raises(ch, a)
  {
  }

  lemma ChangeRaisesAlike(ch: Channel, queue: seq<Deposit>, change: StateChange, blockNumber: BlockNumber)
    ensures Raises(ch.(depositQueue := queue), Change(change, blockNumber)) <==> Raises(ch, Change(change, blockNumber))
  {
  }

  lemma RaisesAlike(ch: Channel, ch': Channel, a: Action)
    requires SameUpToRepeats(ch, ch')
    ensures Raises(ch, a) <==> Raises(ch', a)
  {
    assert ch' == ch.(depositQueue := ch'.depositQueue);
    match a {
      case TransferOut(_, _, _) => SendRaisesAlike(ch, ch'.depositQueue, a);
      case RefundOut(_, _, _) => SendRaisesAlike(ch, ch'.depositQueue, a);
      case UnlockOut(_) => RemovalRaisesAlike(ch, ch'.depositQueue, a);
      case ExpireOut(_, _) => RemovalRaisesAlike(ch, ch'.depositQueue, a);
      case Change(change, blockNumber) => ChangeRaisesAlike(ch, ch'.depositQueue, change, blockNumber);
      case _ =>
    }
  }

  lemma {:induction false} RunsThroughAlike(x: Option<Channel>, y: Option<Channel>, log: seq<Action>)
    requires SameChannel(x, y)
    ensures RunsThrough(x, log) <==> RunsThrough(y, log)
    decreases |log|
  {
    if log != [] {
      if x.Some? {
        RaisesAlike(x.value, y.value, log[0]);
      }
      SameChannelStep(x, y, log[0]);
      RunsThroughAlike(Continue(x, log[0]), Continue(y, log[0]), log[1..]);
    }
  }

  lemma {:induction false} RunsThroughParts(ch: Option<Channel>, a: seq<Action>, b: seq<Action>)
    ensures RunsThrough(ch, a + b) <==> RunsThrough(ch, a) && RunsThrough(After(ch, a), b)
    ensures After(ch, a + b) == After(After(ch, a), b)
    decreases |a|
  {
    if a == [] {
      assert a + b == b;
    } else {
      RunsThroughParts(Continue(ch, a[0]), a[1..], b);
      assert (a + b)[1..] == a[1..] + b;
    }
  }

  lemma {:induction false} AfterIsGood(ch: Option<Channel>, log: seq<Action>)
    requires ch.Some? ==> Good(ch.value)
    ensures After(ch, log).Some? ==> Good(After(ch, log).value)
    decreases |log|
  {
    if log != [] {
      if ch.Some? {
        StepIsGood(ch.value, log[0]);
      }
      AfterIsGood(Continue(ch, log[0]), log[1..]);
    }
  }

  /** Going on after an entry, and going on after that entry applied twice. */
  lemma ReplayedEntryRunsThrough(before: Option<Channel>, a: Action, rest: seq<Action>, state: Option<Channel>)
    requires before.Some? ==> Good(before.value) && !Raises(before.value, a)
    requires SameChannel(state, Continue(before, a)) && RunsThrough(Continue(before, a), rest)
    ensures RunsThrough(state, [a] + rest) <==> state == None || !MakesNewProof(a)
  {
    var exact := Continue(before, a);
    assert ([a] + rest)[1..] == rest;
    RepeatedStepIsSame(before, a);
    SameChannelStep(state, exact, a);
    SameChannelIsTransitive(Continue(state, a), Continue(exact, a), exact);
    RunsThroughAlike(Continue(state, a), exact, rest);
    if state.Some? {
      RepeatRaisesIff(before.value, a);
      RaisesAlike(state.value, exact.value, a);
    }
  }

  lemma OneEntry(ch: Option<Channel>, a: Action)
    ensures After(ch, [a]) == Continue(ch, a)
    ensures RunsThrough(ch, [a]) ==> ch == None || !Raises(ch.value, a)
  {
    assert [a][1..] == [];
  }

  lemma CutAt(log: seq<Action>, k: nat)
    requires 0 < k <= |log|
    ensures log[..k] == log[..k - 1] + [log[k - 1]] && log == log[..k] + log[k..]
  {
  }

  /** A log that ran through, cut at its entry `k`. */
  lemma EntryRanThrough(start: Channel, log: seq<Action>, k: nat) returns (before: Option<Channel>)
    requires Good(start) && RunsThrough(Some(start), log) && 0 < k <= |log|
    ensures before.Some? ==> Good(before.value) && !Raises(before.value, log[k - 1])
    ensures Continue(before, log[k - 1]) == After(Some(start), log[..k])
    ensures RunsThrough(Continue(before, log[k - 1]), log[k..])
  {
    var a := log[k - 1];
    before := After(Some(start), log[..k - 1]);
    AfterIsGood(Some(start), log[..k - 1]);
    CutAt(log, k);
    RunsThroughParts(Some(start), log[..k], log[k..]);
    RunsThroughParts(Some(start), log[..k - 1], [a]);
    OneEntry(before, a);
  }

  /**
    A log that ran through once is replayed from a snapshot without an exception exactly if the channel
    has been cleared or the snapshot's own change, which is applied again, makes no new proof.
   */
  lemma RestartRunsThroughIff(start: Channel, log: seq<Action>, k: nat, state: Option<Channel>)
    requires Good(start) && RunsThrough(Some(start), log) && 0 < k <= |log|
    requires var exact := Fold(ChannelTransition(start), None, log[..k]);
      exact.Some? && SameChannel(state, exact.value)
    ensures RunsThrough(state, [log[k - 1]] + log[k..]) <==> state == None || !MakesNewProof(log[k - 1])
  {
    var before := EntryRanThrough(start, log, k);
    FoldIsAfter(start, None, log[..k]);
    ReplayedEntryRunsThrough(before, log[k - 1], log[k..], state);
  }
}
