/**
  Two honest nodes that share an open channel and exchange messages over two first-in first-out queues.
  `registry` is the on-chain secret registry: which secret hash is registered in which block.

  The rules an honest pair keeps: a node uses a secret hash for one lock only, and not once its secret
  is known on-chain; a refund may take up the secret hash of the partner's lock; at most 160 locks are
  pending; a node processes every reveal of a block before it moves on to that block; neither node is
  more than five blocks ahead of the other; a deposit is counted by its owner only once the partner
  counts it too; and a message stays at the head of its queue until it is accepted.
 */
module TwoNodes {
  import opened Wrappers
  import opened BigEndian
  import opened Hashes
  import opened MerkleTree
  import opened Locks
  import opened ChannelState
  import opened EndStateInvariant
  import opened ChannelInvariant
  import opened ChannelRuns
  import opened Acceptance

  type Registry = map<SecretHash, nat>

  /** A node: its channel, its block number, the reveals it has processed, the secret hashes it has used. */
  datatype Node = Node(channel: Channel, block: nat, seen: set<SecretHash>, used: set<SecretHash>)

  /** `ab` holds what `a` has sent and `b` has not received yet; `ba` the reverse. */
  datatype System = System(a: Node, b: Node, ab: seq<Message>, ba: seq<Message>)

  function Flip(sys: System): System {
    System(sys.b, sys.a, sys.ba, sys.ab)
  }

  datatype Move =
    | Transfer(amount: nat, expiration: nat, secrethash: SecretHash)
    | Refund(amount: nat, expiration: nat, secrethash: SecretHash)
    | Claim(secrethash: SecretHash)
    | Expire(lock: HashTimeLock)
    | Deliver
    | Learn(secret: Secret, secrethash: SecretHash)
    | Reveal(secret: Secret, secrethash: SecretHash)
    | Local(change: StateChange, blockNumber: BlockNumber)

  ghost predicate MayUse(n: Node, s: SecretHash) {
    && s !in n.used && s !in n.seen && s != EMPTY_HASH_KECCAK
    && |Pending(n.channel.our)| < MAXIMUM_PENDING_TRANSFERS
  }

  /** Which moves node `a` may make. */
  ghost predicate Enabled(sys: System, m: Move, registry: Registry) {
    var ch := sys.a.channel;
    match m
    case Transfer(_, _, s) => MayUse(sys.a, s)
    case Refund(_, _, s) => MayUse(sys.a, s)
    case Claim(_) => true
    case Expire(lock) => IsTransferExpired(ch, lock, sys.a.block)
    case Deliver => sys.ba != []
    case Learn(_, _) => true
    case Reveal(_, s) => s in registry
    case Local(change, blockNumber) =>
      var r := StateTransition(ch, change, blockNumber).newState;
      && r.Some? && GetStatus(r.value) == Opened
      && r.value.our.contractBalance <= sys.b.channel.partner.contractBalance
      && (change.Block? ==>
           && change.number == blockNumber
           && sys.a.block <= blockNumber <= sys.b.block + NUMBER_OF_CONFIRMATIONS
           && forall s :: s in registry && registry[s] <= blockNumber ==> s in sys.a.seen)
  }

  function Outgoing(events: seq<Event>): seq<Message> {
    if |events| == 1 && events[0].SendMessage? then [events[0].message] else []
  }

  ghost function ActionOf(sys: System, m: Move, registry: Registry): Action
    requires Enabled(sys, m, registry)
  {
    match m
    case Transfer(amount, expiration, s) => TransferOut(amount, expiration, s)
    case Refund(amount, expiration, s) => RefundOut(amount, expiration, s)
    case Claim(s) => UnlockOut(s)
    case Expire(lock) => ExpireOut(lock, sys.a.block)
    case Deliver => MessageIn(sys.ba[0], sys.a.block)
    case Learn(secret, s) => LearnSecret(secret, s)
    case Reveal(secret, s) => SecretRevealed(secret, s, registry[s])
    case Local(change, blockNumber) => Change(change, blockNumber)
  }

  /** Node `a` makes a move: it runs one action, and what it sends joins its queue. */
  ghost function Next(sys: System, m: Move, registry: Registry): System
    requires Enabled(sys, m, registry)
  {
    Outcome(sys, m, Step(sys.a.channel, ActionOf(sys, m, registry)))
  }

  ghost function Outcome(sys: System, m: Move, r: TransitionResult): System
    requires m.Deliver? ==> sys.ba != []
  {
    var sent := Outgoing(r.events);
    var node := sys.a.(
      channel := if r.newState.Some? then r.newState.value else sys.a.channel,
      block := if m.Local? && m.change.Block? then m.blockNumber else sys.a.block,
      seen := if m.Reveal? then sys.a.seen + {m.secrethash} else sys.a.seen,
      used := if (m.Transfer? || m.Refund?) && sent != [] then sys.a.used + {m.secrethash} else sys.a.used);
    System(node, sys.b, sys.ab + sent, if m.Deliver? && r.events == [SendProcessed] then sys.ba[1..] else sys.ba)
  }

  // ---------------------------------------------------------------- messages in flight

  /** What the receiver of a message can count on; it only ever gets better. */
  datatype Terms = Terms(id: CanonicalIdentifier, sender: Address, funds: int, block: nat, used: set<SecretHash>)

  function TermsOf(sys: System): Terms {
    Terms(sys.b.channel.id, sys.a.channel.our.address,
          sys.b.channel.partner.contractBalance + Transferred(sys.b.channel.our), sys.b.block, sys.a.used)
  }

  ghost predicate BetterTerms(t: Terms, u: Terms) {
    && u.id == t.id && u.sender == t.sender && t.funds <= u.funds && t.block <= u.block && t.used <= u.used
  }

  ghost predicate NoTimelyReveal(registry: Registry, s: SecretHash, expiration: nat) {
    s in registry ==> expiration < registry[s]
  }

  ghost function After(ledger: Ledger, m: Message): Ledger {
    match m
    case LockedTransfer(_, lock) => WithLock(ledger, lock)
    case Unlock(_, s) => if s in ledger.pending then WithClaim(ledger, s) else ledger
    case LockExpired(_, s) => WithoutLock(ledger, s)
  }

  /** A message that is acceptable to a receiver whose view of the sender is `ledger`. */
  ghost predicate Fits(ledger: Ledger, m: Message, t: Terms, registry: Registry) {
    && Attests(m.proof, After(ledger, m), t.id, t.sender)
    && match m
       case LockedTransfer(_, lock) =>
         && lock.secrethash !in ledger.pending && |ledger.pending| < MAXIMUM_PENDING_TRANSFERS
         && lock.secrethash != EMPTY_HASH_KECCAK
         && lock.amount + ledger.transferred + SumAmounts(ledger.pending) <= t.funds
       case Unlock(_, s) => s in ledger.pending
       case LockExpired(_, s) =>
         && s in ledger.pending && s in t.used
         && NoTimelyReveal(registry, s, ledger.pending[s].expiration)
         && ledger.pending[s].expiration + NUMBER_OF_CONFIRMATIONS <= t.block
  }

  /** The queue leads from the receiver's view of the sender to the sender itself, message by message. */
  ghost predicate LeadsTo(view: Ledger, queue: seq<Message>, sender: Ledger, t: Terms, registry: Registry)
    decreases |queue|
  {
    if queue == [] then view == sender
    else Fits(view, queue[0], t, registry) && LeadsTo(After(view, queue[0]), queue[1..], sender, t, registry)
  }

  lemma {:induction false} LeadsToUnderBetterTerms(
    view: Ledger, queue: seq<Message>, sender: Ledger, t: Terms, u: Terms, registry: Registry)
    requires LeadsTo(view, queue, sender, t, registry) && BetterTerms(t, u)
    ensures LeadsTo(view, queue, sender, u, registry)
    decreases |queue|
  {
    if queue != [] {
      LeadsToUnderBetterTerms(After(view, queue[0]), queue[1..], sender, t, u, registry);
    }
  }

  lemma {:induction false} OneMoreInFlight(
    view: Ledger, queue: seq<Message>, sender: Ledger, m: Message, t: Terms, registry: Registry)
    requires LeadsTo(view, queue, sender, t, registry) && Fits(sender, m, t, registry)
    ensures LeadsTo(view, queue + [m], After(sender, m), t, registry)
    decreases |queue|
  {
    if queue == [] {
      assert (queue + [m])[1..] == [];
    } else {
      OneMoreInFlight(After(view, queue[0]), queue[1..], sender, m, t, registry);
      assert (queue + [m])[1..] == queue[1..] + [m];
    }
  }

  lemma {:induction false} ViewLagsBehind(
    view: Ledger, queue: seq<Message>, sender: Ledger, t: Terms, registry: Registry)
    requires LeadsTo(view, queue, sender, t, registry)
    ensures view.transferred <= sender.transferred
    decreases |queue|
  {
    if queue != [] {
      ViewLagsBehind(After(view, queue[0]), queue[1..], sender, t, registry);
    }
  }

  // ---------------------------------------------------------------- the system invariant

  /** Every timely reveal a node has processed is in its dictionary of on-chain locks. */
  ghost predicate RevealsRecorded(n: Node, registry: Registry) {
    forall s :: s in Pending(n.channel.our) && s in n.seen && s in registry
                && registry[s] <= Pending(n.channel.our)[s].expiration
      ==> s in n.channel.our.onchainLocks
  }

  /** Only timely reveals are in the dictionary of the partner's on-chain locks. */
  ghost predicate RevealsAreTimely(n: Node, registry: Registry) {
    forall s :: s in n.channel.partner.onchainLocks ==>
      s in registry && registry[s] <= n.channel.partner.onchainLocks[s].lock.expiration
  }

  ghost predicate NodeInv(n: Node, registry: Registry) {
    && ChannelInv(n.channel) && GetStatus(n.channel) == Opened
    && RevealsRecorded(n, registry) && RevealsAreTimely(n, registry)
    && Pending(n.channel.our).Keys <= n.used
    && forall s :: s in registry && registry[s] <= n.block ==> s in n.seen
  }

  /** Towards `b`: the queue explains the difference in views, and `a` is neither ahead in time nor in funds. */
  ghost predicate LinkInv(sys: System, registry: Registry) {
    && sys.b.channel.id == sys.a.channel.id
    && sys.b.channel.partner.address == sys.a.channel.our.address
    && sys.a.channel.our.contractBalance <= sys.b.channel.partner.contractBalance
    && sys.a.block <= sys.b.block + NUMBER_OF_CONFIRMATIONS
    && LeadsTo(LedgerOf(sys.b.channel.partner), sys.ab, LedgerOf(sys.a.channel.our), TermsOf(sys), registry)
  }

  ghost predicate SystemInv(sys: System, registry: Registry) {
    && NodeInv(sys.a, registry) && NodeInv(sys.b, registry)
    && LinkInv(sys, registry) && LinkInv(Flip(sys), registry)
  }

  /** The next message tells `a` of an expiry under a secret hash of which `a` has a lock known on-chain. */
  ghost predicate Blocked(sys: System) {
    && sys.ba != [] && sys.ba[0].LockExpired?
    && sys.ba[0].secrethash in sys.a.channel.our.onchainLocks
  }

  /** The message at the head of the queue to `a` is accepted exactly if it is not blocked in this way. */
  lemma HeadIsAcceptedIff(sys: System, registry: Registry)
    requires SystemInv(sys, registry) && sys.ba != []
    ensures Receive(sys.a.channel, sys.ba[0], sys.a.block).events == [SendProcessed] <==> !Blocked(sys)
  {
    var ch, m, t := sys.a.channel, sys.ba[0], TermsOf(Flip(sys));
    assert Fits(LedgerOf(ch.partner), m, t, registry);
    AmountIsSumOfPending(ch.partner);
    match m {
      case LockedTransfer(proof, lock) => AcceptsLockedTransferIff(ch, proof, lock);
      case Unlock(proof, s) => AcceptsUnlockIff(ch, proof, s);
      case LockExpired(proof, s) =>
        GetLockIsPending(ch.partner, s);
        AcceptsLockExpiredIff(ch, proof, s, sys.a.block);
    }
  }

  // ---------------------------------------------------------------- sending

  lemma SentProofAttests(ch: Channel, after: EndState, ledger: Ledger)
    requires Becomes(ch.our, after, ledger) && after.balanceProof.value.id == ch.id
    ensures Attests(Sign(ch, after.balanceProof.value), ledger, ch.id, ch.our.address)
  {
    AmountIsSumOfPending(after);
    TreeStatesRoot(after.merkletree, ledger.pending);
  }

  /** Node `a` has moved its own end on by `message`, which fits the ledger it had before. */
  ghost predicate Emits(sys: System, sys': System, message: Message, registry: Registry) {
    var ch, ch' := sys.a.channel, sys'.a.channel;
    && sys' == sys.(a := sys.a.(channel := ch', used := sys'.a.used), ab := sys.ab + [message])
    && sys.a.used <= sys'.a.used
    && ch' == ch.(our := ch'.our)
    && ch'.our.address == ch.our.address && ch'.our.contractBalance == ch.our.contractBalance
    && NodeInv(sys'.a, registry)
    && Fits(LedgerOf(ch.our), message, TermsOf(sys').(used := sys'.a.used), registry)
    && LedgerOf(ch'.our) == After(LedgerOf(ch.our), message)
  }

  lemma EmittingKeepsInv(sys: System, sys': System, message: Message, registry: Registry)
    requires SystemInv(sys, registry) && Emits(sys, sys', message, registry)
    ensures SystemInv(sys', registry)
  {
    var view, back := LedgerOf(sys.b.channel.partner), LedgerOf(sys.a.channel.partner);
    LeadsToUnderBetterTerms(view, sys.ab, LedgerOf(sys.a.channel.our), TermsOf(sys), TermsOf(sys'), registry);
    OneMoreInFlight(view, sys.ab, LedgerOf(sys.a.channel.our), message, TermsOf(sys'), registry);
    AfterTransfersMore(LedgerOf(sys.a.channel.our), message);
    LeadsToUnderBetterTerms(back, sys.ba, LedgerOf(sys.b.channel.our), TermsOf(Flip(sys)), TermsOf(Flip(sys')), registry);
  }

  lemma AfterTransfersMore(ledger: Ledger, m: Message)
    ensures ledger.transferred <= After(ledger, m).transferred
  {
  }

  /** Our end loses no recorded reveal and gains at most locks whose secret is not known on-chain. */
  ghost predicate OurEndMovesOn(n: Node, our: EndState, used: set<SecretHash>) {
    && n.used <= used && Pending(our).Keys <= used
    && forall s :: s in Pending(our) && s in n.seen ==>
         && s in Pending(n.channel.our) && Pending(our)[s] == Pending(n.channel.our)[s]
         && (s in n.channel.our.onchainLocks ==> s in our.onchainLocks)
  }

  lemma NodeStaysValid(n: Node, our: EndState, used: set<SecretHash>, registry: Registry)
    requires NodeInv(n, registry) && ChannelInv(n.channel.(our := our)) && OurEndMovesOn(n, our, used)
    ensures NodeInv(n.(channel := n.channel.(our := our), used := used), registry)
  {
    var n' := n.(channel := n.channel.(our := our), used := used);
    assert RevealsRecorded(n', registry);
    assert RevealsAreTimely(n', registry);
  }

  lemma NewLockMovesOn(n: Node, our: EndState, lock: HashTimeLock)
    requires Pending(n.channel.our).Keys <= n.used && lock.secrethash !in n.seen
    requires Pending(our) == Pending(n.channel.our)[lock.secrethash := lock]
    requires our.onchainLocks == n.channel.our.onchainLocks
    ensures OurEndMovesOn(n, our, n.used + {lock.secrethash})
  {
  }

  lemma LostLockMovesOn(n: Node, our: EndState, s: SecretHash)
    requires Pending(n.channel.our).Keys <= n.used
    requires Pending(our) == Pending(n.channel.our) - {s}
    requires our.onchainLocks == n.channel.our.onchainLocks || our.onchainLocks == n.channel.our.onchainLocks - {s}
    ensures OurEndMovesOn(n, our, n.used)
  {
  }

  /** The system once `a` has replaced its end and put `message` into its queue. */
  function Sends(sys: System, our: EndState, used: set<SecretHash>, message: Message): System {
    sys.(a := sys.a.(channel := sys.a.channel.(our := our), used := used), ab := sys.ab + [message])
  }

  lemma EmitsFromParts(sys: System, our: EndState, used: set<SecretHash>, message: Message, registry: Registry)
    requires sys.a.used <= used
    requires NodeInv(sys.a.(channel := sys.a.channel.(our := our), used := used), registry)
    requires our.address == sys.a.channel.our.address && our.contractBalance == sys.a.channel.our.contractBalance
    requires Fits(LedgerOf(sys.a.channel.our), message, TermsOf(sys).(used := used), registry)
    requires LedgerOf(our) == After(LedgerOf(sys.a.channel.our), message)
    ensures Emits(sys, Sends(sys, our, used, message), message, registry)
  {
  }

  lemma TransferIsFunded(sys: System, amount: nat, registry: Registry)
    requires SystemInv(sys, registry)
    requires amount + AmountLocked(sys.a.channel.our) <= Balance(sys.a.channel.our, sys.a.channel.partner)
    ensures amount + Transferred(sys.a.channel.our) + SumAmounts(Pending(sys.a.channel.our)) <= TermsOf(sys).funds
  {
    AmountIsSumOfPending(sys.a.channel.our);
    ViewLagsBehind(LedgerOf(sys.a.channel.partner), sys.ba, LedgerOf(sys.b.channel.our), TermsOf(Flip(sys)), registry);
  }

  // A transfer.

  lemma TransferNode(n: Node, m: Move, registry: Registry, r: Result<(Channel, Message), SendError>)
    requires NodeInv(n, registry) && (m.Transfer? || m.Refund?) && m.secrethash !in n.seen && m.secrethash !in Pending(n.channel.our)
    requires TransferOutcome(n.channel, m.amount, m.expiration, m.secrethash, r) && r.Success?
    ensures NodeInv(n.(channel := n.channel.(our := r.value.0.our), used := n.used + {m.secrethash}), registry)
  {
    NewLockMovesOn(n, r.value.0.our, Lock(m.amount, m.expiration, m.secrethash));
    NodeStaysValid(n, r.value.0.our, n.used + {m.secrethash}, registry);
  }

  lemma TransferFits(ch: Channel, m: Move, t: Terms, registry: Registry, r: Result<(Channel, Message), SendError>)
    requires (m.Transfer? || m.Refund?) && TransferOutcome(ch, m.amount, m.expiration, m.secrethash, r) && r.Success?
    requires m.secrethash !in Pending(ch.our) && m.secrethash != EMPTY_HASH_KECCAK
    requires |Pending(ch.our)| < MAXIMUM_PENDING_TRANSFERS
    requires t.id == ch.id && t.sender == ch.our.address
    requires m.amount + Transferred(ch.our) + SumAmounts(Pending(ch.our)) <= t.funds
    ensures Fits(LedgerOf(ch.our), r.value.1, t, registry)
    ensures LedgerOf(r.value.0.our) == After(LedgerOf(ch.our), r.value.1)
  {
    SentProofAttests(ch, r.value.0.our, LedgerOf(r.value.0.our));
  }

  lemma TransferKeepsInv(sys: System, m: Move, registry: Registry, r: Result<(Channel, Message), SendError>)
    requires SystemInv(sys, registry) && (m.Transfer? || m.Refund?) && Enabled(sys, m, registry)
    requires TransferOutcome(sys.a.channel, m.amount, m.expiration, m.secrethash, r) && r.Success?
    ensures SystemInv(Sends(sys, r.value.0.our, sys.a.used + {m.secrethash}, r.value.1), registry)
  {
    var used := sys.a.used + {m.secrethash};
    TransferNode(sys.a, m, registry, r);
    TransferIsFunded(sys, m.amount, registry);
    TransferFits(sys.a.channel, m, TermsOf(sys).(used := used), registry, r);
    EmitsFromParts(sys, r.value.0.our, used, r.value.1, registry);
    EmittingKeepsInv(sys, Sends(sys, r.value.0.our, used, r.value.1), r.value.1, registry);
  }

  // A claim.

  lemma ClaimNode(n: Node, s: SecretHash, registry: Registry, r: Result<(Channel, Message), SendError>)
    requires NodeInv(n, registry) && UnlockOutcome(n.channel, s, r) && r.Success?
    ensures NodeInv(n.(channel := n.channel.(our := r.value.0.our), used := n.used), registry)
  {
    LostLockMovesOn(n, r.value.0.our, s);
    NodeStaysValid(n, r.value.0.our, n.used, registry);
  }

  lemma ClaimFits(ch: Channel, s: SecretHash, t: Terms, registry: Registry, r: Result<(Channel, Message), SendError>)
    requires UnlockOutcome(ch, s, r) && r.Success? && t.id == ch.id && t.sender == ch.our.address
    ensures Fits(LedgerOf(ch.our), r.value.1, t, registry)
    ensures LedgerOf(r.value.0.our) == After(LedgerOf(ch.our), r.value.1)
  {
    SentProofAttests(ch, r.value.0.our, LedgerOf(r.value.0.our));
  }

  lemma ClaimKeepsInv(sys: System, s: SecretHash, registry: Registry, r: Result<(Channel, Message), SendError>)
    requires SystemInv(sys, registry) && UnlockOutcome(sys.a.channel, s, r) && r.Success?
    ensures SystemInv(Sends(sys, r.value.0.our, sys.a.used, r.value.1), registry)
  {
    ClaimNode(sys.a, s, registry, r);
    ClaimFits(sys.a.channel, s, TermsOf(sys), registry, r);
    EmitsFromParts(sys, r.value.0.our, sys.a.used, r.value.1, registry);
    EmittingKeepsInv(sys, Sends(sys, r.value.0.our, sys.a.used, r.value.1), r.value.1, registry);
  }

  // An expiry.

  lemma ExpireNode(n: Node, lock: HashTimeLock, registry: Registry, r: Result<(Channel, Option<Message>), SendError>)
    requires NodeInv(n, registry) && ExpireOutcome(n.channel, lock, r) && r.Success? && r.value.1.Some?
    requires lock.secrethash !in n.channel.our.onchainLocks
    ensures NodeInv(n.(channel := n.channel.(our := r.value.0.our), used := n.used), registry)
  {
    LostLockMovesOn(n, r.value.0.our, lock.secrethash);
    NodeStaysValid(n, r.value.0.our, n.used, registry);
  }

  /** By the time the sender may expire a lock, it would know of every reveal that was in time. */
  lemma ExpiredWithoutReveal(n: Node, lock: HashTimeLock, registry: Registry)
    requires NodeInv(n, registry) && IsTransferExpired(n.channel, lock, n.block)
    requires lock.secrethash in Pending(n.channel.our) && Pending(n.channel.our)[lock.secrethash] == lock
    ensures NoTimelyReveal(registry, lock.secrethash, lock.expiration) && lock.secrethash in n.used
  {
  }

  lemma ExpireFits(ch: Channel, lock: HashTimeLock, t: Terms, registry: Registry,
                   r: Result<(Channel, Option<Message>), SendError>)
    requires ExpireOutcome(ch, lock, r) && r.Success? && r.value.1.Some? && lock.secrethash !in ch.our.onchainLocks
    requires t.id == ch.id && t.sender == ch.our.address && lock.secrethash in t.used
    requires NoTimelyReveal(registry, lock.secrethash, lock.expiration)
    requires lock.expiration + NUMBER_OF_CONFIRMATIONS <= t.block
    ensures Fits(LedgerOf(ch.our), r.value.1.value, t, registry)
    ensures LedgerOf(r.value.0.our) == After(LedgerOf(ch.our), r.value.1.value)
  {
    SentProofAttests(ch, r.value.0.our, LedgerOf(r.value.0.our));
  }

  lemma ExpireKeepsInv(sys: System, lock: HashTimeLock, registry: Registry,
                       r: Result<(Channel, Option<Message>), SendError>)
    requires SystemInv(sys, registry) && IsTransferExpired(sys.a.channel, lock, sys.a.block)
    requires ExpireOutcome(sys.a.channel, lock, r) && r.Success? && r.value.1.Some?
    ensures SystemInv(Sends(sys, r.value.0.our, sys.a.used, r.value.1.value), registry)
  {
    var message := r.value.1.value;
    ExpireNode(sys.a, lock, registry, r);
    ExpiredWithoutReveal(sys.a, lock, registry);
    ExpireFits(sys.a.channel, lock, TermsOf(sys), registry, r);
    EmitsFromParts(sys, r.value.0.our, sys.a.used, message, registry);
    EmittingKeepsInv(sys, Sends(sys, r.value.0.our, sys.a.used, message), message, registry);
  }

  // ---------------------------------------------------------------- receiving

  /** An accepted message moves the partner's end on by exactly that message. */
  ghost predicate ReceiveOutcome(ch: Channel, m: Message, r: TransitionResult) {
    && r.newState.Some? && r.events == [SendProcessed]
    && var ch' := r.newState.value;
    && ChannelInv(ch') && ch' == ch.(partner := ch'.partner)
    && ch'.partner.address == ch.partner.address && ch'.partner.contractBalance == ch.partner.contractBalance
    && LedgerOf(ch'.partner) == After(LedgerOf(ch.partner), m)
    && (forall s :: s in ch'.partner.onchainLocks ==>
         s in ch.partner.onchainLocks && ch'.partner.onchainLocks[s] == ch.partner.onchainLocks[s])
  }

  lemma ReceiveEffect(ch: Channel, m: Message, atBlock: nat)
    requires ChannelInv(ch) && Receive(ch, m, atBlock).events == [SendProcessed]
    requires m.LockedTransfer? ==> m.lock.secrethash !in Pending(ch.partner)
    ensures ReceiveOutcome(ch, m, Receive(ch, m, atBlock))
  {
    match m {
      case LockedTransfer(proof, lock) => ReceiveLockedTransferEffect(ch, proof, lock);
      case Unlock(proof, s) => ReceiveUnlockEffect(ch, proof, s);
      case LockExpired(proof, s) => ReceiveLockExpiredEffect(ch, proof, s, atBlock);
    }
  }

  lemma DeliveredNode(n: Node, m: Message, r: TransitionResult, registry: Registry)
    requires NodeInv(n, registry) && ReceiveOutcome(n.channel, m, r)
    ensures NodeInv(n.(channel := r.newState.value), registry)
  {
    var n' := n.(channel := r.newState.value);
    assert RevealsRecorded(n', registry);
    assert RevealsAreTimely(n', registry);
  }

  /** Taking the head of the queue moves the view one message closer to its sender. */
  lemma DeliverLinks(sys: System, partner: EndState, registry: Registry)
    requires LinkInv(sys, registry) && LinkInv(Flip(sys), registry) && sys.ba != []
    requires partner.address == sys.a.channel.partner.address
    requires partner.contractBalance == sys.a.channel.partner.contractBalance
    requires LedgerOf(partner) == After(LedgerOf(sys.a.channel.partner), sys.ba[0])
    ensures var sys' := sys.(a := sys.a.(channel := sys.a.channel.(partner := partner)), ba := sys.ba[1..]);
      LinkInv(sys', registry) && LinkInv(Flip(sys'), registry)
  {
    var sys' := sys.(a := sys.a.(channel := sys.a.channel.(partner := partner)), ba := sys.ba[1..]);
    LeadsToUnderBetterTerms(LedgerOf(sys.b.channel.partner), sys.ab, LedgerOf(sys.a.channel.our),
                            TermsOf(sys), TermsOf(sys'), registry);
    HeadDelivered(LedgerOf(sys.a.channel.partner), LedgerOf(partner), sys.ba, LedgerOf(sys.b.channel.our),
                  TermsOf(Flip(sys)), registry);
    LeadsToUnderBetterTerms(LedgerOf(partner), sys'.ba, LedgerOf(sys.b.channel.our),
                            TermsOf(Flip(sys)), TermsOf(Flip(sys')), registry);
  }

  lemma HeadDelivered(view: Ledger, view': Ledger, queue: seq<Message>, sender: Ledger, t: Terms, registry: Registry)
    requires LeadsTo(view, queue, sender, t, registry) && queue != [] && view' == After(view, queue[0])
    ensures LeadsTo(view', queue[1..], sender, t, registry)
  {
  }

  lemma DeliverKeepsInv(sys: System, r: TransitionResult, registry: Registry)
    requires SystemInv(sys, registry) && sys.ba != [] && ReceiveOutcome(sys.a.channel, sys.ba[0], r)
    ensures SystemInv(sys.(a := sys.a.(channel := r.newState.value), ba := sys.ba[1..]), registry)
  {
    DeliveredNode(sys.a, sys.ba[0], r, registry);
    DeliverLinks(sys, r.newState.value.partner, registry);
  }

  // ---------------------------------------------------------------- everything else

  /** A move that leaves both ledgers of the node alone and respects the partner's view of it. */
  ghost predicate Harmless(sys: System, n: Node) {
    var ch, ch' := sys.a.channel, n.channel;
    && ch'.id == ch.id && ch'.our.address == ch.our.address && ch'.partner.address == ch.partner.address
    && LedgerOf(ch'.our) == LedgerOf(ch.our) && LedgerOf(ch'.partner) == LedgerOf(ch.partner)
    && ch'.our.contractBalance <= sys.b.channel.partner.contractBalance
    && ch.partner.contractBalance <= ch'.partner.contractBalance
    && n.used == sys.a.used && sys.a.block <= n.block <= sys.b.block + NUMBER_OF_CONFIRMATIONS
  }

  lemma HarmlessKeepsInv(sys: System, n: Node, registry: Registry)
    requires SystemInv(sys, registry) && Harmless(sys, n) && NodeInv(n, registry)
    ensures SystemInv(sys.(a := n), registry)
  {
    var sys' := sys.(a := n);
    LeadsToUnderBetterTerms(LedgerOf(sys.b.channel.partner), sys.ab, LedgerOf(sys.a.channel.our), TermsOf(sys), TermsOf(sys'), registry);
    LeadsToUnderBetterTerms(LedgerOf(sys.a.channel.partner), sys.ba, LedgerOf(sys.b.channel.our), TermsOf(Flip(sys)), TermsOf(Flip(sys')), registry);
  }

  lemma LearnKeepsInv(sys: System, secret: Secret, s: SecretHash, registry: Registry)
    requires SystemInv(sys, registry)
    ensures SystemInv(sys.(a := sys.a.(channel := RegisterOffchainSecret(sys.a.channel, secret, s))), registry)
  {
    var n := sys.a.(channel := RegisterOffchainSecret(sys.a.channel, secret, s));
    RegisterOffchainSecretEffect(sys.a.channel, secret, s);
    assert RevealsRecorded(n, registry) && RevealsAreTimely(n, registry);
    HarmlessKeepsInv(sys, n, registry);
  }

  /** Processing a reveal records it for a pending lock if, and only if, it was in time. */
  lemma RevealOnOneEnd(e: EndState, secret: Secret, s: SecretHash, block: nat, t: SecretHash)
    requires EndInv(e)
    ensures var f := RegisterOnchainSecretEndState(e, secret, s, block);
      && (t in e.onchainLocks ==> t in f.onchainLocks && f.onchainLocks[t] == e.onchainLocks[t])
      && (t in f.onchainLocks && t !in e.onchainLocks ==> t == s && block <= f.onchainLocks[t].lock.expiration)
      && (s in Pending(e) && block <= Pending(e)[s].expiration ==> s in f.onchainLocks)
  {
  }

  lemma RevealedNode(n: Node, secret: Secret, s: SecretHash, registry: Registry)
    requires NodeInv(n, registry) && s in registry
    ensures NodeInv(n.(channel := RegisterOnchainSecret(n.channel, secret, s, registry[s]), seen := n.seen + {s}), registry)
  {
    var ch' := RegisterOnchainSecret(n.channel, secret, s, registry[s]);
    var n' := n.(channel := ch', seen := n.seen + {s});
    RegisterOnchainSecretEffect(n.channel, secret, s, registry[s]);
    forall t | t in Pending(ch'.our) && t in n'.seen && t in registry && registry[t] <= Pending(ch'.our)[t].expiration
      ensures t in ch'.our.onchainLocks
    {
      RevealOnOneEnd(n.channel.our, secret, s, registry[s], t);
    }
    forall t | t in ch'.partner.onchainLocks
      ensures t in registry && registry[t] <= ch'.partner.onchainLocks[t].lock.expiration
    {
      RevealOnOneEnd(n.channel.partner, secret, s, registry[s], t);
    }
  }

  lemma RevealIsHarmless(sys: System, n: Node, secret: Secret, s: SecretHash, block: nat)
    requires ChannelInv(sys.a.channel)
    requires sys.a.channel.our.contractBalance <= sys.b.channel.partner.contractBalance
    requires sys.a.block <= sys.b.block + NUMBER_OF_CONFIRMATIONS
    requires n.channel == RegisterOnchainSecret(sys.a.channel, secret, s, block)
    requires n.block == sys.a.block && n.used == sys.a.used
    ensures Harmless(sys, n)
  {
    RegisterOnchainSecretEffect(sys.a.channel, secret, s, block);
  }

  lemma RevealKeepsInv(sys: System, secret: Secret, s: SecretHash, registry: Registry)
    requires SystemInv(sys, registry) && s in registry
    ensures SystemInv(sys.(a := sys.a.(channel := RegisterOnchainSecret(sys.a.channel, secret, s, registry[s]),
                                       seen := sys.a.seen + {s})), registry)
  {
    var n := sys.a.(channel := RegisterOnchainSecret(sys.a.channel, secret, s, registry[s]), seen := sys.a.seen + {s});
    RevealedNode(sys.a, secret, s, registry);
    RevealIsHarmless(sys, n, secret, s, registry[s]);
    HarmlessKeepsInv(sys, n, registry);
  }

  lemma LocalNode(n: Node, ch': Channel, block: nat, registry: Registry)
    requires NodeInv(n, registry) && OnlyChainDataChanged(n.channel, ch') && ChannelInv(ch')
    requires GetStatus(ch') == Opened
    requires forall s :: s in registry && registry[s] <= block ==> s in n.seen
    ensures NodeInv(n.(channel := ch', block := block), registry)
  {
    SameButChainKeepsInv(n.channel.our, ch'.our);
    SameButChainKeepsInv(n.channel.partner, ch'.partner);
    var n' := n.(channel := ch', block := block);
    assert RevealsRecorded(n', registry) && RevealsAreTimely(n', registry);
  }

  lemma LocalKeepsInv(sys: System, ch': Channel, block: nat, registry: Registry)
    requires SystemInv(sys, registry) && OnlyChainDataChanged(sys.a.channel, ch') && ChannelInv(ch')
    requires GetStatus(ch') == Opened
    requires ch'.our.contractBalance <= sys.b.channel.partner.contractBalance
    requires sys.a.block <= block <= sys.b.block + NUMBER_OF_CONFIRMATIONS
    requires forall s :: s in registry && registry[s] <= block ==> s in sys.a.seen
    ensures SystemInv(sys.(a := sys.a.(channel := ch', block := block)), registry)
  {
    SameButChainKeepsInv(sys.a.channel.our, ch'.our);
    SameButChainKeepsInv(sys.a.channel.partner, ch'.partner);
    LocalNode(sys.a, ch', block, registry);
    HarmlessKeepsInv(sys, sys.a.(channel := ch', block := block), registry);
  }

  // ---------------------------------------------------------------- every move

  // What each move does to the system, without any invariant.

  ghost predicate SendsOrNot(sys: System, next: System, used: set<SecretHash>, r: Result<(Channel, Message), SendError>) {
    next == if r.Failure? then sys else Sends(sys, r.value.0.our, used, r.value.1)
  }

  lemma SentOutcome(sys: System, m: Move, r: Result<(Channel, Message), SendError>)
    requires m.Transfer? || m.Refund? || m.Claim?
    requires r.Success? ==> r.value.0 == sys.a.channel.(our := r.value.0.our)
    ensures SendsOrNot(sys, Outcome(sys, m, Sent(sys.a.channel, r)),
                       if m.Claim? then sys.a.used else sys.a.used + {m.secrethash}, r)
  {
    assert sys.ab + [] == sys.ab;
  }

  lemma TransferMove(sys: System, m: Move, registry: Registry)
    requires Enabled(sys, m, registry) && m.Transfer?
    ensures Next(sys, m, registry)
         == Outcome(sys, m, Sent(sys.a.channel, SendLockedTransfer(sys.a.channel, m.amount, m.expiration, m.secrethash)))
  {
  }

  lemma RefundMove(sys: System, m: Move, registry: Registry)
    requires Enabled(sys, m, registry) && m.Refund?
    ensures Next(sys, m, registry)
         == Outcome(sys, m, Sent(sys.a.channel, SendRefundTransfer(sys.a.channel, m.amount, m.expiration, m.secrethash)))
  {
  }

  lemma ClaimMove(sys: System, s: SecretHash, registry: Registry)
    ensures Enabled(sys, Claim(s), registry)
    ensures Next(sys, Claim(s), registry) == Outcome(sys, Claim(s), Sent(sys.a.channel, SendUnlock(sys.a.channel, s)))
  {
  }

  lemma ExpireMove(sys: System, m: Move, registry: Registry, r: Result<(Channel, Option<Message>), SendError>)
    requires Enabled(sys, m, registry) && m.Expire? && r == EventsForExpiredLock(sys.a.channel, m.lock)
    requires r.Success? && r.value.1 == None ==> r.value.0 == sys.a.channel
    requires r.Success? ==> r.value.0 == sys.a.channel.(our := r.value.0.our)
    ensures Next(sys, m, registry) ==
      if r.Failure? || r.value.1 == None then sys
      else Sends(sys, r.value.0.our, sys.a.used, r.value.1.value)
  {
    assert sys.ab + [] == sys.ab;
  }

  lemma DeliverMove(sys: System, registry: Registry, r: TransitionResult)
    requires sys.ba != [] && r == Receive(sys.a.channel, sys.ba[0], sys.a.block)
    requires r.newState.Some? && r.events == [SendProcessed]
    ensures Next(sys, Deliver, registry) == sys.(a := sys.a.(channel := r.newState.value), ba := sys.ba[1..])
  {
    assert sys.ab + [] == sys.ab;
  }

  /** A message that is not accepted changes nothing and stays where it is. */
  lemma RefusedMove(sys: System, registry: Registry, r: TransitionResult)
    requires sys.ba != [] && r == Receive(sys.a.channel, sys.ba[0], sys.a.block)
    requires r.newState == Some(sys.a.channel) && r.events != [SendProcessed] && Outgoing(r.events) == []
    ensures Next(sys, Deliver, registry) == sys
  {
    assert sys.ab + [] == sys.ab;
  }

  lemma LocalMove(sys: System, m: Move, registry: Registry, r: TransitionResult)
    requires Enabled(sys, m, registry) && m.Local? && r == StateTransition(sys.a.channel, m.change, m.blockNumber)
    requires Outgoing(r.events) == []
    ensures Next(sys, m, registry) ==
      sys.(a := sys.a.(channel := r.newState.value, block := if m.change.Block? then m.blockNumber else sys.a.block))
  {
    assert sys.ab + [] == sys.ab;
  }

  lemma SecretMove(sys: System, m: Move, registry: Registry)
    requires Enabled(sys, m, registry) && (m.Learn? || m.Reveal?)
    ensures Next(sys, m, registry) ==
      if m.Learn? then sys.(a := sys.a.(channel := RegisterOffchainSecret(sys.a.channel, m.secret, m.secrethash)))
      else sys.(a := sys.a.(channel := RegisterOnchainSecret(sys.a.channel, m.secret, m.secrethash, registry[m.secrethash]),
                            seen := sys.a.seen + {m.secrethash}))
  {
    assert sys.ab + [] == sys.ab;
  }

  // What each move keeps.

  lemma TransferMoveKeepsInv(sys: System, m: Move, registry: Registry)
    requires SystemInv(sys, registry) && Enabled(sys, m, registry) && m.Transfer?
    ensures SystemInv(Next(sys, m, registry), registry)
  {
    SendLockedTransferEffect(sys.a.channel, m.amount, m.expiration, m.secrethash);
    var r := SendLockedTransfer(sys.a.channel, m.amount, m.expiration, m.secrethash);
    TransferMove(sys, m, registry);
    SentOutcome(sys, m, r);
    if r.Success? {
      TransferKeepsInv(sys, m, registry, r);
    }
  }

  /** A refund is a transfer, once the lock it answers is found. */
  lemma RefundIsTransfer(ch: Channel, amount: nat, expiration: nat, s: SecretHash)
    ensures var r := SendRefundTransfer(ch, amount, expiration, s);
      r.Failure? || r == SendLockedTransfer(ch, amount, expiration, s)
  {
  }

  lemma RefundMoveKeepsInv(sys: System, m: Move, registry: Registry)
    requires SystemInv(sys, registry) && Enabled(sys, m, registry) && m.Refund?
    ensures SystemInv(Next(sys, m, registry), registry)
  {
    SendLockedTransferEffect(sys.a.channel, m.amount, m.expiration, m.secrethash);
    RefundIsTransfer(sys.a.channel, m.amount, m.expiration, m.secrethash);
    var r := SendRefundTransfer(sys.a.channel, m.amount, m.expiration, m.secrethash);
    RefundMove(sys, m, registry);
    SentOutcome(sys, m, r);
    if r.Success? {
      TransferKeepsInv(sys, m, registry, r);
    }
  }

  lemma ClaimMoveKeepsInv(sys: System, m: Move, registry: Registry)
    requires SystemInv(sys, registry) && Enabled(sys, m, registry) && m.Claim?
    ensures SystemInv(Next(sys, m, registry), registry)
  {
    SendUnlockEffect(sys.a.channel, m.secrethash);
    var r := SendUnlock(sys.a.channel, m.secrethash);
    ClaimMove(sys, m.secrethash, registry);
    SentOutcome(sys, m, r);
    if r.Success? {
      ClaimKeepsInv(sys, m.secrethash, registry, r);
    }
  }

  lemma ExpireMoveKeepsInv(sys: System, m: Move, registry: Registry)
    requires SystemInv(sys, registry) && Enabled(sys, m, registry) && m.Expire?
    ensures SystemInv(Next(sys, m, registry), registry)
  {
    ExpireLockEffect(sys.a.channel, m.lock);
    var r := EventsForExpiredLock(sys.a.channel, m.lock);
    ExpireMove(sys, m, registry, r);
    if r.Success? && r.value.1.Some? {
      ExpireKeepsInv(sys, m.lock, registry, r);
    }
  }

  lemma AcceptedKeepsInv(sys: System, registry: Registry)
    requires SystemInv(sys, registry) && Accepts(sys)
    ensures SystemInv(Next(sys, Deliver, registry), registry)
  {
    var r := Receive(sys.a.channel, sys.ba[0], sys.a.block);
    HeadIsFresh(sys, registry);
    ReceiveEffect(sys.a.channel, sys.ba[0], sys.a.block);
    DeliverMove(sys, registry, r);
    DeliverKeepsInv(sys, r, registry);
  }

  lemma RefusedChangesNothing(sys: System, registry: Registry)
    requires sys.ba != [] && !Accepts(sys)
    ensures Next(sys, Deliver, registry) == sys
  {
    var r := Receive(sys.a.channel, sys.ba[0], sys.a.block);
    MessageAdvances(sys.a.channel, MessageIn(sys.ba[0], sys.a.block));
    RefusedMove(sys, registry, r);
  }

  lemma DeliverMoveKeepsInv(sys: System, registry: Registry)
    requires SystemInv(sys, registry) && sys.ba != []
    ensures SystemInv(Next(sys, Deliver, registry), registry)
  {
    if Accepts(sys) {
      AcceptedKeepsInv(sys, registry);
    } else {
      RefusedChangesNothing(sys, registry);
    }
  }

  lemma HeadIsFresh(sys: System, registry: Registry)
    requires LinkInv(Flip(sys), registry) && sys.ba != []
    ensures sys.ba[0].LockedTransfer? ==> sys.ba[0].lock.secrethash !in Pending(sys.a.channel.partner)
  {
    assert Fits(LedgerOf(sys.a.channel.partner), sys.ba[0], TermsOf(Flip(sys)), registry);
  }

  lemma LocalMoveKeepsInv(sys: System, m: Move, registry: Registry)
    requires SystemInv(sys, registry) && Enabled(sys, m, registry) && m.Local?
    ensures SystemInv(Next(sys, m, registry), registry)
  {
    var r := StateTransition(sys.a.channel, m.change, m.blockNumber);
    StateTransitionEffect(sys.a.channel, m.change, m.blockNumber);
    StateTransitionKeepsInv(sys.a.channel, m.change, m.blockNumber);
    StateTransitionMovesForward(sys.a.channel, m.change, m.blockNumber);
    LocalMove(sys, m, registry, r);
    LocalKeepsInv(sys, r.newState.value, if m.change.Block? then m.blockNumber else sys.a.block, registry);
  }

  lemma SecretMoveKeepsInv(sys: System, m: Move, registry: Registry)
    requires SystemInv(sys, registry) && Enabled(sys, m, registry) && (m.Learn? || m.Reveal?)
    ensures SystemInv(Next(sys, m, registry), registry)
  {
    SecretMove(sys, m, registry);
    if m.Learn? {
      LearnKeepsInv(sys, m.secret, m.secrethash, registry);
    } else {
      RevealKeepsInv(sys, m.secret, m.secrethash, registry);
    }
  }

  lemma MoveKeepsInv(sys: System, m: Move, registry: Registry)
    requires SystemInv(sys, registry) && Enabled(sys, m, registry)
    ensures SystemInv(Next(sys, m, registry), registry)
  {
    match m {
      case Transfer(_, _, _) => TransferMoveKeepsInv(sys, m, registry);
      case Refund(_, _, _) => RefundMoveKeepsInv(sys, m, registry);
      case Claim(_) => ClaimMoveKeepsInv(sys, m, registry);
      case Expire(_) => ExpireMoveKeepsInv(sys, m, registry);
      case Deliver => DeliverMoveKeepsInv(sys, registry);
      case Learn(_, _) => SecretMoveKeepsInv(sys, m, registry);
      case Reveal(_, _) => SecretMoveKeepsInv(sys, m, registry);
      case Local(_, _) => LocalMoveKeepsInv(sys, m, registry);
    }
  }

  // ---------------------------------------------------------------- every run of the pair

  datatype Turn = ByA(move: Move) | ByB(move: Move)

  /** The system as the node whose turn it is sees it. */
  function Seat(sys: System, turn: Turn): System {
    if turn.ByA? then sys else Flip(sys)
  }

  ghost predicate TurnEnabled(sys: System, turn: Turn, registry: Registry) {
    Enabled(Seat(sys, turn), turn.move, registry)
  }

  ghost function Take(sys: System, turn: Turn, registry: Registry): System
    requires TurnEnabled(sys, turn, registry)
  {
    Seat(Next(Seat(sys, turn), turn.move, registry), turn)
  }

  ghost predicate Playable(sys: System, turns: seq<Turn>, registry: Registry)
    decreases |turns|
  {
    turns == [] || (TurnEnabled(sys, turns[0], registry) && Playable(Take(sys, turns[0], registry), turns[1..], registry))
  }

  ghost function Play(sys: System, turns: seq<Turn>, registry: Registry): System
    requires Playable(sys, turns, registry)
    decreases |turns|
  {
    if turns == [] then sys else Play(Take(sys, turns[0], registry), turns[1..], registry)
  }

  /** A message that arrives is accepted exactly if it is not blocked. */
  ghost predicate Answers(sys: System, turn: Turn) {
    turn.move.Deliver? ==> (Accepts(Seat(sys, turn)) <==> !Blocked(Seat(sys, turn)))
  }

  /** In the run every message is accepted when it arrives, unless it is blocked. */
  ghost predicate AllAnswered(sys: System, turns: seq<Turn>, registry: Registry)
    requires Playable(sys, turns, registry)
    decreases |turns|
  {
    turns == [] ||
    (&& Answers(sys, turns[0])
     && AllAnswered(Take(sys, turns[0], registry), turns[1..], registry))
  }

  /** In the run every message is accepted when it arrives. */
  ghost predicate AllAccepted(sys: System, turns: seq<Turn>, registry: Registry)
    requires Playable(sys, turns, registry)
    decreases |turns|
  {
    turns == [] ||
    (&& (turns[0].move.Deliver? ==> Accepts(Seat(sys, turns[0])))
     && AllAccepted(Take(sys, turns[0], registry), turns[1..], registry))
  }

  ghost predicate Accepts(sys: System) {
    sys.ba != [] && Receive(sys.a.channel, sys.ba[0], sys.a.block).events == [SendProcessed]
  }

  lemma FlipKeepsInv(sys: System, registry: Registry)
    requires SystemInv(sys, registry)
    ensures SystemInv(Flip(sys), registry)
  {
    assert Flip(Flip(sys)) == sys;
  }

  lemma TurnKeepsInv(sys: System, turn: Turn, registry: Registry)
    requires SystemInv(sys, registry) && TurnEnabled(sys, turn, registry)
    ensures SystemInv(Take(sys, turn, registry), registry)
    ensures SystemInv(Seat(sys, turn), registry)
  {
    FlipKeepsInv(sys, registry);
    MoveKeepsInv(Seat(sys, turn), turn.move, registry);
    FlipKeepsInv(Next(Seat(sys, turn), turn.move, registry), registry);
  }

  lemma TurnAnswers(sys: System, turn: Turn, registry: Registry)
    requires SystemInv(sys, registry) && TurnEnabled(sys, turn, registry)
    ensures Answers(sys, turn) && SystemInv(Take(sys, turn, registry), registry)
  {
    TurnKeepsInv(sys, turn, registry);
    if turn.move.Deliver? {
      HeadIsAcceptedIff(Seat(sys, turn), registry);
    }
  }

  /**
    Between honest nodes every transfer, refund and unlock that is sent is accepted, in every run, and an
    expiry is refused exactly while the receiver has a lock of the same secret hash known on-chain.
   */
  lemma {:induction false} EveryMessageIsAnswered(sys: System, turns: seq<Turn>, registry: Registry)
    requires SystemInv(sys, registry) && Playable(sys, turns, registry)
    ensures AllAnswered(sys, turns, registry)
    ensures SystemInv(Play(sys, turns, registry), registry)
    decreases |turns|
  {
    if turns != [] {
      TurnAnswers(sys, turns[0], registry);
      EveryMessageIsAnswered(Take(sys, turns[0], registry), turns[1..], registry);
    }
  }

  /** Sending the unlock of its own lock is what a node can do about a blocked expiry. */
  lemma ClaimUnblocks(sys: System, registry: Registry)
    requires SystemInv(sys, registry) && Blocked(sys) && Nonce(sys.a.channel.our) < UINT64_MAX
    ensures var claim := Claim(sys.ba[0].secrethash);
      Enabled(sys, claim, registry) && !Blocked(Next(sys, claim, registry)) && Next(sys, claim, registry).ba == sys.ba
  {
    var s := sys.ba[0].secrethash;
    GetLockIsPending(sys.a.channel.our, s);
    SendUnlockEffect(sys.a.channel, s);
    ClaimMove(sys, s, registry);
    SentOutcome(sys, Claim(s), SendUnlock(sys.a.channel, s));
  }

  // ---------------------------------------------------------------- one use of each secret hash

  /** No expiry on its way to `a` is blocked. */
  ghost predicate NothingBlocked(sys: System) {
    forall m :: m in sys.ba && m.LockExpired? ==> m.secrethash !in sys.a.channel.our.onchainLocks
  }

  ghost predicate ExpiriesAreOf(queue: seq<Message>, used: set<SecretHash>) {
    forall i :: 0 <= i < |queue| && queue[i].LockExpired? ==> queue[i].secrethash in used
  }

  lemma FittingExpiryIsUsed(view: Ledger, m: Message, t: Terms, registry: Registry)
    requires Fits(view, m, t, registry)
    ensures m.LockExpired? ==> m.secrethash in t.used
  {
  }

  lemma ExpiriesFromHead(queue: seq<Message>, used: set<SecretHash>)
    requires queue != [] && ExpiriesAreOf(queue[1..], used)
    requires queue[0].LockExpired? ==> queue[0].secrethash in used
    ensures ExpiriesAreOf(queue, used)
  {
    forall i | 0 < i < |queue| && queue[i].LockExpired? ensures queue[i].secrethash in used {
      assert queue[i] == queue[1..][i - 1];
    }
  }

  lemma {:induction false} QueuedExpiriesAreUsed(
    view: Ledger, queue: seq<Message>, sender: Ledger, t: Terms, registry: Registry)
    requires LeadsTo(view, queue, sender, t, registry)
    ensures ExpiriesAreOf(queue, t.used)
    decreases |queue|
  {
    if queue != [] {
      FittingExpiryIsUsed(view, queue[0], t, registry);
      QueuedExpiriesAreUsed(After(view, queue[0]), queue[1..], sender, t, registry);
      ExpiriesFromHead(queue, t.used);
    }
  }

  /** As long as no secret hash has been used in both directions, nothing is blocked. */
  lemma UsedOnceIsUnblocked(sys: System, registry: Registry)
    requires SystemInv(sys, registry) && sys.a.used !! sys.b.used
    ensures NothingBlocked(sys) && !Blocked(sys)
  {
    QueuedExpiriesAreUsed(LedgerOf(sys.a.channel.partner), sys.ba, LedgerOf(sys.b.channel.our),
                          TermsOf(Flip(sys)), registry);
    forall m | m in sys.ba && m.LockExpired? ensures m.secrethash !in sys.a.channel.our.onchainLocks {
      GetLockIsPending(sys.a.channel.our, m.secrethash);
      assert m.secrethash in sys.b.used;
    }
  }

  lemma TurnUses(sys: System, turn: Turn, registry: Registry)
    requires TurnEnabled(sys, turn, registry)
    ensures sys.a.used <= Take(sys, turn, registry).a.used && sys.b.used <= Take(sys, turn, registry).b.used
  {
    var seat := Seat(sys, turn);
    OutcomeUses(seat, turn.move, Step(seat.a.channel, ActionOf(seat, turn.move, registry)));
  }

  lemma OutcomeUses(sys: System, m: Move, r: TransitionResult)
    requires m.Deliver? ==> sys.ba != []
    ensures sys.a.used <= Outcome(sys, m, r).a.used && Outcome(sys, m, r).b == sys.b
  {
  }

  lemma {:induction false} RunUses(sys: System, turns: seq<Turn>, registry: Registry)
    requires Playable(sys, turns, registry)
    ensures sys.a.used <= Play(sys, turns, registry).a.used && sys.b.used <= Play(sys, turns, registry).b.used
    decreases |turns|
  {
    if turns != [] {
      TurnUses(sys, turns[0], registry);
      RunUses(Take(sys, turns[0], registry), turns[1..], registry);
    }
  }

  lemma UsedOnceAccepts(sys: System, turn: Turn, registry: Registry)
    requires SystemInv(Seat(sys, turn), registry) && TurnEnabled(sys, turn, registry)
    requires turn.move.Deliver? && sys.a.used !! sys.b.used
    ensures Accepts(Seat(sys, turn))
  {
    UsedOnceIsUnblocked(Seat(sys, turn), registry);
    HeadIsAcceptedIff(Seat(sys, turn), registry);
  }

  /** In a run that uses each secret hash in one direction only, every message is accepted. */
  lemma {:induction false} EveryMessageIsAccepted(sys: System, turns: seq<Turn>, registry: Registry)
    requires SystemInv(sys, registry) && Playable(sys, turns, registry)
    requires Play(sys, turns, registry).a.used !! Play(sys, turns, registry).b.used
    ensures AllAccepted(sys, turns, registry)
    decreases |turns|
  {
    if turns != [] {
      TurnKeepsInv(sys, turns[0], registry);
      RunUses(sys, turns, registry);
      if turns[0].move.Deliver? {
        UsedOnceAccepts(sys, turns[0], registry);
      }
      EveryMessageIsAccepted(Take(sys, turns[0], registry), turns[1..], registry);
    }
  }

  // ---------------------------------------------------------------- agreement

  /** Once a queue has drained, the receiver's view of the sender is the sender. */
  lemma DrainedViewsAgree(sys: System, registry: Registry)
    requires SystemInv(sys, registry) && sys.ab == []
    ensures var sender, view := sys.a.channel.our, sys.b.channel.partner;
      && Nonce(view) == Nonce(sender) && Transferred(view) == Transferred(sender)
      && Pending(view) == Pending(sender) && AmountLocked(view) == AmountLocked(sender)
      && view.merkletree == sender.merkletree
      && (Nonce(sender) > 0 ==>
           && view.balanceProof.Some?
           && view.balanceProof.value.locksroot == sender.balanceProof.value.locksroot
           && view.balanceProof.value.lockedAmount == sender.balanceProof.value.lockedAmount)
  {
    var sender, view := sys.a.channel.our, sys.b.channel.partner;
    assert LedgerOf(view) == LedgerOf(sender);
    AmountIsSumOfPending(sender);
    AmountIsSumOfPending(view);
    BelowIsStrictTotalOrder();
    TreeIsUnique(Below, sender.merkletree, view.merkletree, LockHashes(Pending(sender)));
  }

  /** A freshly opened channel, seen by two nodes that need not be at the same block. */
  function Opening(id: CanonicalIdentifier, settleTimeout: nat, fee: nat, us: Address, ourDeposit: nat,
                   them: Address, theirDeposit: nat, here: Clock, there: Clock): System
  {
    var a := NewChannel(id, settleTimeout, fee, NewEndState(us, ourDeposit), NewEndState(them, theirDeposit));
    var b := NewChannel(id, settleTimeout, fee, NewEndState(them, theirDeposit), NewEndState(us, ourDeposit));
    System(Node(a, here.block, here.seen, {}), Node(b, there.block, there.seen, {}), [], [])
  }

  /** How far a node has followed the chain: its block, and the reveals it has processed. */
  datatype Clock = Clock(block: nat, seen: set<SecretHash>)

  ghost predicate ClocksFit(here: Clock, there: Clock, registry: Registry) {
    && here.block <= there.block + NUMBER_OF_CONFIRMATIONS && there.block <= here.block + NUMBER_OF_CONFIRMATIONS
    && (forall s :: s in registry && registry[s] <= here.block ==> s in here.seen)
    && (forall s :: s in registry && registry[s] <= there.block ==> s in there.seen)
  }

  lemma OpeningKeepsInv(id: CanonicalIdentifier, settleTimeout: nat, fee: nat, us: Address, ourDeposit: nat,
                        them: Address, theirDeposit: nat, here: Clock, there: Clock, registry: Registry)
    requires us != them && ClocksFit(here, there, registry)
    ensures SystemInv(Opening(id, settleTimeout, fee, us, ourDeposit, them, theirDeposit, here, there), registry)
  {
    NewChannelInv(id, settleTimeout, fee, us, ourDeposit, them, theirDeposit);
    NewChannelInv(id, settleTimeout, fee, them, theirDeposit, us, ourDeposit);
    assert LocksOf(map[]) == map[];
    assert Pending(NewEndState(us, ourDeposit)) == map[] && Pending(NewEndState(them, theirDeposit)) == map[];
  }

  /** One node takes `n` messages off its queue. */
  ghost predicate Delivers(turns: seq<Turn>, turn: Turn, n: nat) {
    turn.move == Deliver && |turns| == n && forall i :: 0 <= i < n ==> turns[i] == turn
  }

  /** Of the system as the receiving node sees it: all that deliveries leave as it was. */
  ghost predicate OnlyReceives(before: System, after: System) {
    && after.b == before.b && after.ab == before.ab
    && after.a.channel == before.a.channel.(partner := after.a.channel.partner)
  }

  /** An accepted delivery sends nothing and takes one message off the queue. */
  lemma DeliverTakesHead(sys: System, registry: Registry, r: TransitionResult)
    requires sys.ba != [] && r == Receive(sys.a.channel, sys.ba[0], sys.a.block) && r.events == [SendProcessed]
    ensures OnlyReceives(sys, Outcome(sys, Deliver, r)) && Outcome(sys, Deliver, r).ba == sys.ba[1..]
  {
    MessageAdvances(sys.a.channel, MessageIn(sys.ba[0], sys.a.block));
    assert Outgoing(r.events) == [];
    assert sys.ab + [] == sys.ab;
  }

  lemma DeliverOnce(sys: System, turn: Turn, registry: Registry)
    requires turn.move == Deliver && Accepts(Seat(sys, turn))
    ensures TurnEnabled(sys, turn, registry)
    ensures var seat, seat' := Seat(sys, turn), Seat(Take(sys, turn, registry), turn);
      OnlyReceives(seat, seat') && seat'.ba == seat.ba[1..]
  {
    var seat := Seat(sys, turn);
    var r := Receive(seat.a.channel, seat.ba[0], seat.a.block);
    DeliverTakesHead(seat, registry, r);
    assert Next(seat, turn.move, registry) == Outcome(seat, Deliver, r);
  }

  /** The next `n` deliveries are accepted. */
  ghost predicate AllTaken(sys: System, turn: Turn, n: nat, registry: Registry)
    requires turn.move == Deliver
    decreases n
  {
    n == 0 || (Accepts(Seat(sys, turn)) && AllTaken(Take(sys, turn, registry), turn, n - 1, registry))
  }

  lemma UnblockedHeadIsTaken(sys: System, turn: Turn, registry: Registry) returns (next: System)
    requires SystemInv(sys, registry) && turn.move == Deliver && NothingBlocked(Seat(sys, turn)) && Seat(sys, turn).ba != []
    ensures Accepts(Seat(sys, turn)) && TurnEnabled(sys, turn, registry) && next == Take(sys, turn, registry)
    ensures SystemInv(next, registry) && NothingBlocked(Seat(next, turn)) && |Seat(next, turn).ba| == |Seat(sys, turn).ba| - 1
  {
    var seat := Seat(sys, turn);
    FlipKeepsInv(sys, registry);
    HeadIsAcceptedIff(seat, registry);
    DeliverOnce(sys, turn, registry);
    next := Take(sys, turn, registry);
    TurnKeepsInv(sys, turn, registry);
    StaysUnblocked(seat, Seat(next, turn));
  }

  lemma {:induction false} UnblockedIsTaken(sys: System, turn: Turn, registry: Registry)
    requires SystemInv(sys, registry) && turn.move == Deliver && NothingBlocked(Seat(sys, turn))
    ensures AllTaken(sys, turn, |Seat(sys, turn).ba|, registry)
    decreases |Seat(sys, turn).ba|
  {
    if Seat(sys, turn).ba != [] {
      var next := UnblockedHeadIsTaken(sys, turn, registry);
      UnblockedIsTaken(next, turn, registry);
      TakenFirst(sys, turn, next, |Seat(next, turn).ba|, registry);
    }
  }

  lemma TakenFirst(sys: System, turn: Turn, next: System, n: nat, registry: Registry)
    requires turn.move == Deliver && Accepts(Seat(sys, turn)) && TurnEnabled(sys, turn, registry)
    requires next == Take(sys, turn, registry) && AllTaken(next, turn, n, registry)
    ensures AllTaken(sys, turn, n + 1, registry)
  {
  }

  lemma StaysUnblocked(before: System, after: System)
    requires NothingBlocked(before) && OnlyReceives(before, after)
    requires forall m :: m in after.ba ==> m in before.ba
    ensures NothingBlocked(after)
  {
  }

  /** The sender is left alone, and nothing is left of what was in flight. */
  ghost predicate Drained(before: System, after: System, turn: Turn) {
    OnlyReceives(Seat(before, turn), Seat(after, turn)) && Seat(after, turn).ba == []
  }

  lemma DrainedChain(before: System, next: System, after: System, turn: Turn)
    requires OnlyReceives(Seat(before, turn), Seat(next, turn)) && Drained(next, after, turn)
    ensures Drained(before, after, turn)
  {
  }

  lemma DeliverFirst(sys: System, turn: Turn, n: nat, registry: Registry) returns (next: System)
    requires turn.move == Deliver && 0 < n == |Seat(sys, turn).ba| && AllTaken(sys, turn, n, registry)
    ensures TurnEnabled(sys, turn, registry) && next == Take(sys, turn, registry)
    ensures OnlyReceives(Seat(sys, turn), Seat(next, turn)) && |Seat(next, turn).ba| == n - 1
    ensures AllTaken(next, turn, n - 1, registry)
  {
    DeliverOnce(sys, turn, registry);
    next := Take(sys, turn, registry);
  }

  lemma PlayFirst(sys: System, turn: Turn, rest: seq<Turn>, next: System, registry: Registry)
    requires TurnEnabled(sys, turn, registry) && next == Take(sys, turn, registry) && Playable(next, rest, registry)
    ensures Playable(sys, [turn] + rest, registry) && Play(sys, [turn] + rest, registry) == Play(next, rest, registry)
  {
    assert ([turn] + rest)[1..] == rest;
  }

  /** What is in flight and accepted can be delivered, and delivering it asks nothing of its sender. */
  lemma {:induction false} DeliveriesDrain(sys: System, turn: Turn, turns: seq<Turn>, registry: Registry)
    requires Delivers(turns, turn, |Seat(sys, turn).ba|) && AllTaken(sys, turn, |Seat(sys, turn).ba|, registry)
    ensures Playable(sys, turns, registry)
    ensures Drained(sys, Play(sys, turns, registry), turn)
    decreases |turns|
  {
    if turns != [] {
      var next := DeliverFirst(sys, turn, |turns|, registry);
      DeliveriesDrain(next, turn, turns[1..], registry);
      PlayFirst(sys, turn, turns[1..], next, registry);
      assert turns == [turn] + turns[1..];
      DrainedChain(sys, next, Play(next, turns[1..], registry), turn);
    }
  }

  /** Nonce, amounts, tree and pending locks of an end are what its counterpart believes them to be. */
  ghost predicate SeenAsItIs(sender: EndState, view: EndState) {
    && LedgerOf(view) == LedgerOf(sender) && AmountLocked(view) == AmountLocked(sender)
    && view.merkletree == sender.merkletree
  }

  /** Both queues are empty and each node sees the other as it is. */
  ghost predicate InAgreement(sys: System) {
    && sys.ab == [] && sys.ba == []
    && SeenAsItIs(sys.a.channel.our, sys.b.channel.partner) && SeenAsItIs(sys.b.channel.our, sys.a.channel.partner)
  }

  lemma DrainedIsAgreement(sys: System, registry: Registry)
    requires SystemInv(sys, registry) && sys.ab == [] && sys.ba == []
    ensures InAgreement(sys)
  {
    DrainedViewsAgree(sys, registry);
    FlipKeepsInv(sys, registry);
    DrainedViewsAgree(Flip(sys), registry);
  }

  /** From any state of an honest pair in which nothing is blocked, delivering both queues ends in agreement. */
  lemma DeliveriesAgree(sys: System, toB: seq<Turn>, toA: seq<Turn>, registry: Registry)
    requires SystemInv(sys, registry) && NothingBlocked(sys) && NothingBlocked(Flip(sys))
    requires Delivers(toB, ByB(Deliver), |sys.ab|) && Delivers(toA, ByA(Deliver), |sys.ba|)
    ensures ReachesAgreement(sys, toB, toA, registry)
  {
    UnblockedIsTaken(sys, ByB(Deliver), registry);
    DeliveriesDrain(sys, ByB(Deliver), toB, registry);
    EveryMessageIsAnswered(sys, toB, registry);
    var half := Play(sys, toB, registry);
    UnblockedIsTaken(half, ByA(Deliver), registry);
    DeliveriesDrain(half, ByA(Deliver), toA, registry);
    EveryMessageIsAnswered(half, toA, registry);
    DrainedIsAgreement(Play(half, toA, registry), registry);
  }

  /** These turns can be played, change neither sender, and end in agreement. */
  ghost predicate ReachesAgreement(sys: System, toB: seq<Turn>, toA: seq<Turn>, registry: Registry) {
    && Playable(sys, toB, registry)
    && var half := Play(sys, toB, registry);
    && Playable(half, toA, registry)
    && var end := Play(half, toA, registry);
       InAgreement(end) && end.a.channel.our == sys.a.channel.our && end.b.channel.our == sys.b.channel.our
  }

  lemma UsedOnceEverywhere(sys: System, registry: Registry)
    requires SystemInv(sys, registry) && sys.a.used !! sys.b.used
    ensures NothingBlocked(sys) && NothingBlocked(Flip(sys))
  {
    UsedOnceIsUnblocked(sys, registry);
    FlipKeepsInv(sys, registry);
    UsedOnceIsUnblocked(Flip(sys), registry);
  }

  /**
    Two honest nodes from the opening of their channel on. In every run every transfer, refund and unlock
    is accepted, and an expiry is refused exactly while the receiver has a lock of the same secret hash
    known on-chain; without a secret hash used in both directions everything is accepted. Wherever the
    run stops with nothing blocked, delivering what is in flight makes each node see the other as it is.
   */
  lemma HonestPair(id: CanonicalIdentifier, settleTimeout: nat, fee: nat, us: Address, ourDeposit: nat,
                   them: Address, theirDeposit: nat, here: Clock, there: Clock, registry: Registry,
                   turns: seq<Turn>, toB: seq<Turn>, toA: seq<Turn>)
    requires us != them && ClocksFit(here, there, registry)
    requires var start := Opening(id, settleTimeout, fee, us, ourDeposit, them, theirDeposit, here, there);
      && Playable(start, turns, registry)
      && var stop := Play(start, turns, registry);
         Delivers(toB, ByB(Deliver), |stop.ab|) && Delivers(toA, ByA(Deliver), |stop.ba|)
    ensures var start := Opening(id, settleTimeout, fee, us, ourDeposit, them, theirDeposit, here, there);
      var stop := Play(start, turns, registry);
      && AllAnswered(start, turns, registry)
      && (stop.a.used !! stop.b.used ==>
           AllAccepted(start, turns, registry) && NothingBlocked(stop) && NothingBlocked(Flip(stop)))
      && (NothingBlocked(stop) && NothingBlocked(Flip(stop)) ==> ReachesAgreement(stop, toB, toA, registry))
  {
    var start := Opening(id, settleTimeout, fee, us, ourDeposit, them, theirDeposit, here, there);
    OpeningKeepsInv(id, settleTimeout, fee, us, ourDeposit, them, theirDeposit, here, there, registry);
    PairAnswers(start, turns, toB, toA, registry);
  }

  lemma PairAnswers(start: System, turns: seq<Turn>, toB: seq<Turn>, toA: seq<Turn>, registry: Registry)
    requires SystemInv(start, registry) && Playable(start, turns, registry)
    requires var stop := Play(start, turns, registry);
      Delivers(toB, ByB(Deliver), |stop.ab|) && Delivers(toA, ByA(Deliver), |stop.ba|)
    ensures var stop := Play(start, turns, registry);
      && AllAnswered(start, turns, registry)
      && (stop.a.used !! stop.b.used ==>
           AllAccepted(start, turns, registry) && NothingBlocked(stop) && NothingBlocked(Flip(stop)))
      && (NothingBlocked(stop) && NothingBlocked(Flip(stop)) ==> ReachesAgreement(stop, toB, toA, registry))
  {
    EveryMessageIsAnswered(start, turns, registry);
    var stop := Play(start, turns, registry);
    if stop.a.used !! stop.b.used {
      EveryMessageIsAccepted(start, turns, registry);
      UsedOnceEverywhere(stop, registry);
    }
    if NothingBlocked(stop) && NothingBlocked(Flip(stop)) {
      DeliveriesAgree(stop, toB, toA, registry);
    }
  }
}
