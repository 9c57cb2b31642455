/**
  Runs under the duties that the code leaves to others. Our end stays consistent as long as our own
  callers keep theirs, whatever the partner sends; the partner's end stays consistent as long as the
  partner does not reuse a pending secret hash, whatever our own callers do.
 */
module RunInvariants {
  import opened Wrappers
  import opened BigEndian
  import opened Hashes
  import opened MerkleTree
  import opened Locks
  import opened ChannelState
  import opened EndStateInvariant
  import opened ChannelInvariant
  import opened Soundness
  import opened ChannelRuns

  /**
    Our callers' duty: a new lock uses a secret hash that is not pending, and a lock is expired only
    after `is_transfer_expired`.
   */
  ghost predicate Careful(ch: Channel, a: Action) {
    match a
    case TransferOut(_, _, s) => s !in Pending(ch.our)
    case RefundOut(_, _, s) => s !in Pending(ch.our)
    case ExpireOut(lock, atBlock) => IsTransferExpired(ch, lock, atBlock)
    case _ => true
  }

  /** The partner's duty, which the code does not check: a new lock uses a secret hash that is not pending. */
  ghost predicate Fresh(ch: Channel, a: Action) {
    a.MessageIn? && a.message.LockedTransfer? ==> a.message.lock.secrethash !in Pending(ch.partner)
  }

  type Duty = (Channel, Action) -> bool

  ghost predicate Throughout(ch: Channel, actions: seq<Action>, duty: Duty)
    decreases |actions|
  {
    actions == [] ||
    (&& duty(ch, actions[0])
     && match Step(ch, actions[0]).newState
        case None => true
        case Some(ch') => Throughout(ch', actions[1..], duty))
  }

  // ---------------------------------------------------------------- one action

  /** How an entry changes the ledger of an end that is consistent. */
  ghost predicate Follows(before: EndState, after: EndState, entry: Entry) {
    match entry
    case NoEntry =>
      && LedgerOf(after) == LedgerOf(before) && after.merkletree == before.merkletree
      && after.balanceProof == before.balanceProof
    case NewLock(lock) =>
      && lock.secrethash !in Pending(before)
      && LedgerOf(after) == WithLock(LedgerOf(before), lock) && after.onchainLocks == before.onchainLocks
    case Claimed(s) =>
      && s in Pending(before)
      && LedgerOf(after) == WithClaim(LedgerOf(before), s) && after.onchainLocks == before.onchainLocks - {s}
    case Dropped(s) =>
      && s in Pending(before) && s !in before.onchainLocks
      && LedgerOf(after) == WithoutLock(LedgerOf(before), s) && after.onchainLocks == before.onchainLocks
  }

  ghost predicate OurOutcome(ch: Channel, r: TransitionResult) {
    r.newState.Some? ==> EndInv(r.newState.value.our) && Follows(ch.our, r.newState.value.our, OurEntry(r))
  }

  lemma TransferFollows(ch: Channel, a: Action)
    requires OurSide(ch) && Careful(ch, a) && (a.TransferOut? || a.RefundOut?)
    ensures OurOutcome(ch, Step(ch, a))
  {
    SendLockedTransferEffect(ch, a.amount, a.expiration, a.secrethash);
  }

  lemma UnlockEntry(ch: Channel, s: SecretHash, r: Result<(Channel, Message), SendError>)
    requires EndInv(ch.our) && UnlockOutcome(ch, s, r)
    ensures OurOutcome(ch, Sent(ch, r))
  {
  }

  lemma UnlockFollows(ch: Channel, s: SecretHash)
    requires OurSide(ch)
    ensures OurOutcome(ch, Sent(ch, SendUnlock(ch, s)))
  {
    SendUnlockEffect(ch, s);
    UnlockEntry(ch, s, SendUnlock(ch, s));
  }

  lemma ExpiryEntry(ch: Channel, lock: HashTimeLock, r: Result<(Channel, Option<Message>), SendError>)
    requires EndInv(ch.our) && ExpireOutcome(ch, lock, r) && lock.secrethash !in ch.our.onchainLocks
    ensures OurOutcome(ch, Expired(ch, r))
  {
  }

  lemma ExpireFollows(ch: Channel, lock: HashTimeLock, atBlock: nat)
    requires OurSide(ch) && IsTransferExpired(ch, lock, atBlock)
    ensures OurOutcome(ch, Expired(ch, EventsForExpiredLock(ch, lock)))
  {
    ExpireLockEffect(ch, lock);
    ExpiryEntry(ch, lock, EventsForExpiredLock(ch, lock));
  }

  lemma SecretFollows(e: EndState, secret: Secret, s: SecretHash, revealBlock: nat)
    requires EndInv(e)
    ensures var f := RegisterSecretEndState(e, secret, s); EndInv(f) && Follows(e, f, NoEntry)
    ensures var f := RegisterOnchainSecretEndState(e, secret, s, revealBlock); EndInv(f) && Follows(e, f, NoEntry)
  {
    RegisterSecretKeepsInv(e, secret, s);
    RegisterOnchainSecretKeepsInv(e, secret, s, revealBlock);
  }

  lemma LearningFollows(ch: Channel, secret: Secret, s: SecretHash)
    ensures var r := TransitionResult(Some(RegisterOffchainSecret(ch, secret, s)), []);
      && (EndInv(ch.our) ==> OurOutcome(ch, r))
      && (EndInv(ch.partner) ==> PartnerOutcome(ch, LearnSecret(secret, s), r))
  {
    if EndInv(ch.our) {
      SecretFollows(ch.our, secret, s, 0);
    }
    if EndInv(ch.partner) {
      SecretFollows(ch.partner, secret, s, 0);
    }
  }

  lemma RevealFollows(ch: Channel, secret: Secret, s: SecretHash, revealBlock: nat)
    ensures var r := TransitionResult(Some(RegisterOnchainSecret(ch, secret, s, revealBlock)), []);
      && (EndInv(ch.our) ==> OurOutcome(ch, r))
      && (EndInv(ch.partner) ==> PartnerOutcome(ch, SecretRevealed(secret, s, revealBlock), r))
  {
    if EndInv(ch.our) {
      SecretFollows(ch.our, secret, s, revealBlock);
    }
    if EndInv(ch.partner) {
      SecretFollows(ch.partner, secret, s, revealBlock);
    }
  }

  lemma ChangeFollows(ch: Channel, a: Action)
    requires a.Change?
    ensures EndInv(ch.our) ==> OurOutcome(ch, Step(ch, a))
    ensures EndInv(ch.partner) ==> PartnerOutcome(ch, a, Step(ch, a))
  {
    ChangeAdvances(ch, a);
    var r := Step(ch, a);
    if r.newState.Some? && EndInv(ch.our) {
      SameButChainKeepsInv(ch.our, r.newState.value.our);
    }
    if r.newState.Some? && EndInv(ch.partner) {
      SameButChainKeepsInv(ch.partner, r.newState.value.partner);
    }
  }

  /** Our end follows its entries, whatever the partner's end looks like and whatever it sends. */
  lemma OurStepFollows(ch: Channel, a: Action)
    requires OurSide(ch) && Careful(ch, a)
    ensures OurOutcome(ch, Step(ch, a))
  {
    match a {
      case TransferOut(_, _, _) => TransferFollows(ch, a);
      case RefundOut(_, _, _) => TransferFollows(ch, a);
      case UnlockOut(s) => UnlockFollows(ch, s);
      case ExpireOut(lock, atBlock) => ExpireFollows(ch, lock, atBlock);
      case MessageIn(_, _) => MessageAdvances(ch, a);
      case LearnSecret(secret, s) => LearningFollows(ch, secret, s);
      case SecretRevealed(secret, s, revealBlock) => RevealFollows(ch, secret, s, revealBlock);
      case Change(_, _) => ChangeFollows(ch, a);
    }
  }

  ghost predicate PartnerOutcome(ch: Channel, a: Action, r: TransitionResult) {
    r.newState.Some? ==>
      EndInv(r.newState.value.partner) && Follows(ch.partner, r.newState.value.partner, PartnerEntry(a, r))
  }

  lemma MessageFollows(ch: Channel, a: Action)
    requires PartnerSide(ch) && Fresh(ch, a) && a.MessageIn?
    ensures PartnerOutcome(ch, a, Step(ch, a))
  {
    match a.message {
      case LockedTransfer(proof, lock) =>
        ReceiveLockedTransferEffect(ch, proof, lock);
        TransferInFollows(ch, proof, lock, a.atBlock, HandleReceiveLockedTransfer(ch, proof, lock));
      case Unlock(proof, s) =>
        ReceiveUnlockEffect(ch, proof, s);
        UnlockInFollows(ch, proof, s, a.atBlock, HandleUnlock(ch, proof, s));
      case LockExpired(proof, s) =>
        ReceiveLockExpiredEffect(ch, proof, s, a.atBlock);
        ExpiryInFollows(ch, proof, s, a.atBlock, HandleReceiveLockExpired(ch, proof, s, a.atBlock));
    }
  }

  lemma TransferInFollows(ch: Channel, proof: BalanceProof, lock: HashTimeLock, atBlock: nat, r: TransitionResult)
    requires EndInv(ch.partner) && ReceiveTransferOutcome(ch, proof, lock, r) && lock.secrethash !in Pending(ch.partner)
    ensures PartnerOutcome(ch, MessageIn(LockedTransfer(proof, lock), atBlock), r)
  {
  }

  lemma UnlockInFollows(ch: Channel, proof: BalanceProof, s: SecretHash, atBlock: nat, r: TransitionResult)
    requires EndInv(ch.partner) && ReceiveUnlockOutcome(ch, proof, s, r)
    ensures PartnerOutcome(ch, MessageIn(Unlock(proof, s), atBlock), r)
  {
  }

  lemma ExpiryInFollows(ch: Channel, proof: BalanceProof, s: SecretHash, atBlock: nat, r: TransitionResult)
    requires EndInv(ch.partner) && ReceiveExpiryOutcome(ch, proof, s, atBlock, r)
    ensures PartnerOutcome(ch, MessageIn(LockExpired(proof, s), atBlock), r)
  {
  }

  lemma SendLeavesPartner(ch: Channel, a: Action)
    requires a.TransferOut? || a.RefundOut? || a.UnlockOut? || a.ExpireOut?
    ensures var r := Step(ch, a);
      r.newState.Some? && r.newState.value.partner == ch.partner && PartnerEntry(a, r) == NoEntry
  {
    match a {
      case TransferOut(_, _, _) => TransferAdvances(ch, a);
      case RefundOut(_, _, _) => RefundAdvances(ch, a);
      case UnlockOut(_) => UnlockAdvances(ch, a);
      case ExpireOut(_, _) => ExpireAdvances(ch, a);
    }
  }

  lemma PartnerStepFollows(ch: Channel, a: Action)
    requires PartnerSide(ch) && Fresh(ch, a)
    ensures PartnerOutcome(ch, a, Step(ch, a))
  {
    match a {
      case MessageIn(_, _) => MessageFollows(ch, a);
      case LearnSecret(secret, s) => LearningFollows(ch, secret, s);
      case SecretRevealed(secret, s, revealBlock) => RevealFollows(ch, secret, s, revealBlock);
      case Change(_, _) => ChangeFollows(ch, a);
      case _ => SendLeavesPartner(ch, a);
    }
  }

  /**
    Each action moves the ledgers of both ends exactly as its entry says: our end's if our callers are
    careful, the partner's if the partner's secret hash is fresh.
   */
  lemma StepEffect(ch: Channel, a: Action)
    requires Solid(ch)
    ensures EndInv(ch.our) && Careful(ch, a) ==> OurOutcome(ch, Step(ch, a))
    ensures EndInv(ch.partner) && Fresh(ch, a) ==> PartnerOutcome(ch, a, Step(ch, a))
  {
    if EndInv(ch.our) && Careful(ch, a) {
      OurStepFollows(ch, a);
    }
    if EndInv(ch.partner) && Fresh(ch, a) {
      PartnerStepFollows(ch, a);
    }
  }

  // ---------------------------------------------------------------- every run

  lemma {:induction false} OurEndStaysConsistent(ch: Channel, actions: seq<Action>)
    requires Solid(ch) && EndInv(ch.our) && Throughout(ch, actions, Careful) && Run(ch, actions).Some?
    ensures EndInv(Run(ch, actions).value.our)
    decreases |actions|
  {
    if actions != [] {
      StepIsSolid(ch, actions[0]);
      OurStepFollows(ch, actions[0]);
      OurEndStaysConsistent(Step(ch, actions[0]).newState.value, actions[1..]);
    }
  }

  lemma {:induction false} PartnerEndStaysConsistent(ch: Channel, actions: seq<Action>)
    requires Solid(ch) && EndInv(ch.partner) && Throughout(ch, actions, Fresh) && Run(ch, actions).Some?
    ensures EndInv(Run(ch, actions).value.partner)
    decreases |actions|
  {
    if actions != [] {
      StepIsSolid(ch, actions[0]);
      PartnerStepFollows(ch, actions[0]);
      PartnerEndStaysConsistent(Step(ch, actions[0]).newState.value, actions[1..]);
    }
  }

  /** The channel invariant holds after every run in which both sides keep their duty. */
  lemma EveryRunKeepsInv(ch: Channel, actions: seq<Action>)
    requires ChannelInv(ch) && Throughout(ch, actions, Careful) && Throughout(ch, actions, Fresh)
    ensures Run(ch, actions).Some? ==> ChannelInv(Run(ch, actions).value)
  {
    if Run(ch, actions).Some? {
      InvIsSolid(ch);
      EveryRunIsSolid(ch, actions);
      OurEndStaysConsistent(ch, actions);
      PartnerEndStaysConsistent(ch, actions);
    }
  }

  /** What every run guarantees of an end and of the other one's claims on it. */
  ghost predicate Safe(e: EndState, other: EndState) {
    && 0 <= AmountLocked(e) <= Balance(e, other) <= e.contractBalance + other.contractBalance
    && Transferred(e) + AmountLocked(e) <= UINT256_MAX
    && (e.balanceProof.Some? ==> e.balanceProof.value.locksroot == Root(e.merkletree))
    && IsTreeOf(Below, e.merkletree, Elements(Leaves(e.merkletree)))
  }

  /** The pending locks, the merkle tree, the balance proof and the amounts of an end tell one story. */
  ghost predicate Consistent(e: EndState) {
    && e.lockedLocks.Keys !! e.unlockedLocks.Keys
    && e.lockedLocks.Keys !! e.onchainLocks.Keys
    && e.unlockedLocks.Keys !! e.onchainLocks.Keys
    && Elements(Leaves(e.merkletree)) == LockHashes(Pending(e))
    && (e.balanceProof.Some? ==> e.balanceProof.value.lockedAmount == AmountLocked(e) == SumAmounts(Pending(e)))
    && (e.balanceProof == None ==> Pending(e) == map[])
  }

  lemma InvMakesConsistent(e: EndState)
    requires EndInv(e)
    ensures Consistent(e)
  {
    AmountIsSumOfPending(e);
  }

  lemma SolidIsSafe(ch: Channel)
    requires Solid(ch)
    ensures Safe(ch.our, ch.partner) && Safe(ch.partner, ch.our)
  {
    BalancesShareTheDeposits(ch);
  }

  function Opening(id: CanonicalIdentifier, settleTimeout: nat, fee: nat, us: Address, ourDeposit: nat, them: Address,
                   theirDeposit: nat): Channel
  {
    NewChannel(id, settleTimeout, fee, NewEndState(us, ourDeposit), NewEndState(them, theirDeposit))
  }

  /**
    From the opening of a channel on, in every run: both ends are safe, unconditionally; the two balances
    share the two deposits; the proof we hold is signed by the partner for this channel, within range, and
    backs every lock of the partner by a leaf and by its amount; our end is consistent if our callers kept
    their duty, and the partner's end is consistent if the partner used no pending secret hash twice.
   */
  lemma EveryReachableChannelIsConsistent(
    id: CanonicalIdentifier, settleTimeout: nat, fee: nat, us: Address, ourDeposit: nat, them: Address,
    theirDeposit: nat, actions: seq<Action>)
    requires us != them
    requires Run(Opening(id, settleTimeout, fee, us, ourDeposit, them, theirDeposit), actions).Some?
    ensures var ch := Opening(id, settleTimeout, fee, us, ourDeposit, them, theirDeposit);
      var end := Run(ch, actions).value;
      && Safe(end.our, end.partner) && Safe(end.partner, end.our) && Usable(end) && Backed(end.partner)
      && Balance(end.our, end.partner) + Balance(end.partner, end.our)
         == end.our.contractBalance + end.partner.contractBalance
      && (Throughout(ch, actions, Careful) ==> Consistent(end.our))
      && (Throughout(ch, actions, Fresh) ==> Consistent(end.partner))
  {
    var ch := Opening(id, settleTimeout, fee, us, ourDeposit, them, theirDeposit);
    NewChannelIsSolid(id, settleTimeout, fee, us, ourDeposit, them, theirDeposit);
    EveryRunIsSound(ch, actions);
    SolidIsSafe(Run(ch, actions).value);
    NewEndStateInv(us, ourDeposit);
    NewEndStateInv(them, theirDeposit);
    if Throughout(ch, actions, Careful) {
      OurEndStaysConsistent(ch, actions);
      InvMakesConsistent(Run(ch, actions).value.our);
    }
    if Throughout(ch, actions, Fresh) {
      PartnerEndStaysConsistent(ch, actions);
      InvMakesConsistent(Run(ch, actions).value.partner);
    }
  }

  // ---------------------------------------------------------------- locks known on-chain

  /** A reveal mined after a lock's expiration leaves every lock where it was. */
  lemma LateRevealMovesNothing(e: EndState, secret: Secret, s: SecretHash, revealBlock: nat)
    requires DisjointDictionaries(e) && s in Pending(e) && Pending(e)[s].expiration < revealBlock
    ensures RegisterOnchainSecretEndState(e, secret, s, revealBlock) == e
  {
  }

  /** A reveal mined in time puts a pending lock into the on-chain dictionary and nowhere else. */
  lemma TimelyRevealMovesLock(e: EndState, secret: Secret, s: SecretHash, revealBlock: nat)
    requires DisjointDictionaries(e) && s in Pending(e) && revealBlock <= Pending(e)[s].expiration
    ensures var f := RegisterOnchainSecretEndState(e, secret, s, revealBlock);
      && s in f.onchainLocks && f.onchainLocks[s].lock == Pending(e)[s]
      && (s !in e.onchainLocks ==> f.onchainLocks[s].secret == secret)
      && s !in f.lockedLocks && s !in f.unlockedLocks
      && OnlyAt(e, f, s)
  {
    RevealMovesLock(e, secret, s, revealBlock);
  }

  /** Whether some step of the run claims the lock of `s` on our end. */
  ghost predicate ClaimedByUs(ch: Channel, actions: seq<Action>, s: SecretHash)
    decreases |actions|
  {
    && actions != []
    && var r := Step(ch, actions[0]);
       || OurEntry(r) == Claimed(s)
       || (r.newState.Some? && ClaimedByUs(r.newState.value, actions[1..], s))
  }

  ghost predicate ClaimedByPartner(ch: Channel, actions: seq<Action>, s: SecretHash)
    decreases |actions|
  {
    && actions != []
    && var r := Step(ch, actions[0]);
       || PartnerEntry(actions[0], r) == Claimed(s)
       || (r.newState.Some? && ClaimedByPartner(r.newState.value, actions[1..], s))
  }

  /** An entry in the on-chain dictionary that is still there, for whichever lock. */
  ghost predicate KeepsKey(before: EndState, after: EndState, s: SecretHash) {
    s in before.onchainLocks ==> s in after.onchainLocks
  }

  ghost predicate KeepsLock(before: EndState, after: EndState, s: SecretHash) {
    s in before.onchainLocks ==> s in after.onchainLocks && after.onchainLocks[s] == before.onchainLocks[s]
  }

  lemma SendKeepsOnchainLocks(ch: Channel, a: Action, s: SecretHash)
    requires a.TransferOut? || a.RefundOut? || a.UnlockOut? || a.ExpireOut?
    requires KeyedLocks(ch.our)
    ensures var r := Step(ch, a);
      r.newState.Some? && (OurEntry(r) != Claimed(s) ==> KeepsLock(ch.our, r.newState.value.our, s))
  {
    if a.UnlockOut? {
      LookupIsKeyed(ch.our, a.secrethash);
    }
  }

  lemma MessageKeepsOnchainLocks(ch: Channel, a: Action, s: SecretHash)
    requires a.MessageIn?
    ensures var r := Step(ch, a);
      r.newState.Some? && (PartnerEntry(a, r) != Claimed(s) ==> KeepsLock(ch.partner, r.newState.value.partner, s))
  {
  }

  lemma SecretKeepsOnchainLocks(e: EndState, secret: Secret, s: SecretHash, revealBlock: nat, t: SecretHash)
    ensures KeepsLock(e, RegisterSecretEndState(e, secret, s), t)
    ensures var f := RegisterOnchainSecretEndState(e, secret, s, revealBlock);
      KeepsKey(e, f, t) && (DisjointDictionaries(e) ==> KeepsLock(e, f, t))
  {
  }

  /** One action loses an on-chain entry only by a claim, and a consistent end also keeps its lock. */
  lemma StepKeepsOnchainLocks(ch: Channel, a: Action, s: SecretHash)
    requires Solid(ch)
    ensures var r := Step(ch, a);
      r.newState.Some? ==>
        && (OurEntry(r) != Claimed(s) ==>
             && KeepsKey(ch.our, r.newState.value.our, s)
             && (EndInv(ch.our) ==> KeepsLock(ch.our, r.newState.value.our, s)))
        && (PartnerEntry(a, r) != Claimed(s) ==>
             && KeepsKey(ch.partner, r.newState.value.partner, s)
             && (EndInv(ch.partner) ==> KeepsLock(ch.partner, r.newState.value.partner, s)))
  {
    if a.MessageIn? {
      MessageAdvances(ch, a);
      MessageKeepsOnchainLocks(ch, a, s);
    } else if a.Change? {
      ChangeAdvances(ch, a);
    } else if a.LearnSecret? || a.SecretRevealed? {
      var revealBlock := if a.SecretRevealed? then a.revealBlock else 0;
      SecretKeepsOnchainLocks(ch.our, a.secret, a.secrethash, revealBlock, s);
      SecretKeepsOnchainLocks(ch.partner, a.secret, a.secrethash, revealBlock, s);
    } else {
      SendKeepsOnchainLocks(ch, a, s);
      SendLeavesPartner(ch, a);
    }
  }

  /** In every run, with no duty kept by anyone, an on-chain entry goes away only by a claim. */
  lemma {:induction false} OnchainEntryStaysUntilClaimed(ch: Channel, actions: seq<Action>, s: SecretHash)
    requires Solid(ch) && Run(ch, actions).Some?
    ensures var end := Run(ch, actions).value;
      && (ClaimedByUs(ch, actions, s) || KeepsKey(ch.our, end.our, s))
      && (ClaimedByPartner(ch, actions, s) || KeepsKey(ch.partner, end.partner, s))
    decreases |actions|
  {
    if actions != [] {
      StepIsSolid(ch, actions[0]);
      StepKeepsOnchainLocks(ch, actions[0], s);
      OnchainEntryStaysUntilClaimed(Step(ch, actions[0]).newState.value, actions[1..], s);
    }
  }

  lemma OurStepClaimsOrKeeps(ch: Channel, a: Action, s: SecretHash) returns (claims: bool, next: Channel)
    requires Solid(ch) && EndInv(ch.our) && s in ch.our.onchainLocks && Careful(ch, a) && Step(ch, a).newState.Some?
    ensures Step(ch, a).newState == Some(next)
    ensures claims ==> ClaimsExactly(ch, a, s, ch.our.onchainLocks[s].lock.amount)
    ensures !claims ==> Solid(next) && EndInv(next.our) && KeepsLock(ch.our, next.our, s)
  {
    claims, next := OurEntry(Step(ch, a)) == Claimed(s), Step(ch, a).newState.value;
    OurStepFollows(ch, a);
    OnchainLockIsPending(ch.our, s);
    StepIsSolid(ch, a);
    StepKeepsOnchainLocks(ch, a, s);
  }

  lemma PartnerStepClaimsOrKeeps(ch: Channel, a: Action, s: SecretHash) returns (claims: bool, next: Channel)
    requires Solid(ch) && EndInv(ch.partner) && s in ch.partner.onchainLocks && Fresh(ch, a) && Step(ch, a).newState.Some?
    ensures Step(ch, a).newState == Some(next)
    ensures claims ==> AcceptsClaimExactly(ch, a, s, ch.partner.onchainLocks[s].lock.amount)
    ensures !claims ==> Solid(next) && EndInv(next.partner) && KeepsLock(ch.partner, next.partner, s)
  {
    claims, next := PartnerEntry(a, Step(ch, a)) == Claimed(s), Step(ch, a).newState.value;
    PartnerStepFollows(ch, a);
    OnchainLockIsPending(ch.partner, s);
    StepIsSolid(ch, a);
    StepKeepsOnchainLocks(ch, a, s);
  }

  /**
    A lock whose secret became known on-chain in time stays claimable: up to `mid` it is there unchanged,
    and either the run ends there, or the next step is an unlock that we send for it and that raises the
    transferred amount by exactly its amount. The partner may send what it likes.
   */
  lemma {:induction false} OurOnchainLockStaysUntilClaimed(ch: Channel, actions: seq<Action>, s: SecretHash)
    returns (i: nat, mid: Channel)
    requires Solid(ch) && EndInv(ch.our) && s in ch.our.onchainLocks
    requires Throughout(ch, actions, Careful) && Run(ch, actions).Some?
    ensures i <= |actions| && Run(ch, actions[..i]) == Some(mid) && KeepsLock(ch.our, mid.our, s)
    ensures i < |actions| ==> ClaimsExactly(mid, actions[i], s, ch.our.onchainLocks[s].lock.amount)
    decreases |actions|
  {
    i, mid := 0, ch;
    assert actions[..0] == [];
    if actions != [] {
      var claims, next := OurStepClaimsOrKeeps(ch, actions[0], s);
      if !claims {
        i, mid := OurOnchainLockStaysUntilClaimed(next, actions[1..], s);
        OurOneStepEarlier(ch, next, actions, s, i, mid);
        i := i + 1;
      }
    }
  }

  lemma OurOneStepEarlier(ch: Channel, next: Channel, actions: seq<Action>, s: SecretHash, i: nat, mid: Channel)
    requires actions != [] && i < |actions| && Step(ch, actions[0]).newState == Some(next)
    requires s in ch.our.onchainLocks && KeepsLock(ch.our, next.our, s)
    requires Run(next, actions[1..][..i]) == Some(mid) && KeepsLock(next.our, mid.our, s)
    requires i < |actions[1..]| ==> ClaimsExactly(mid, actions[1..][i], s, next.our.onchainLocks[s].lock.amount)
    ensures Run(ch, actions[..i + 1]) == Some(mid) && KeepsLock(ch.our, mid.our, s)
    ensures i + 1 < |actions| ==> ClaimsExactly(mid, actions[i + 1], s, ch.our.onchainLocks[s].lock.amount)
  {
    RunPrefix(ch, actions, i);
  }

  lemma {:induction false} PartnerOnchainLockStaysUntilClaimed(ch: Channel, actions: seq<Action>, s: SecretHash)
    returns (i: nat, mid: Channel)
    requires Solid(ch) && EndInv(ch.partner) && s in ch.partner.onchainLocks
    requires Throughout(ch, actions, Fresh) && Run(ch, actions).Some?
    ensures i <= |actions| && Run(ch, actions[..i]) == Some(mid) && KeepsLock(ch.partner, mid.partner, s)
    ensures i < |actions| ==> AcceptsClaimExactly(mid, actions[i], s, ch.partner.onchainLocks[s].lock.amount)
    decreases |actions|
  {
    i, mid := 0, ch;
    assert actions[..0] == [];
    if actions != [] {
      var claims, next := PartnerStepClaimsOrKeeps(ch, actions[0], s);
      if !claims {
        i, mid := PartnerOnchainLockStaysUntilClaimed(next, actions[1..], s);
        PartnerOneStepEarlier(ch, next, actions, s, i, mid);
        i := i + 1;
      }
    }
  }

  lemma PartnerOneStepEarlier(ch: Channel, next: Channel, actions: seq<Action>, s: SecretHash, i: nat, mid: Channel)
    requires actions != [] && i < |actions| && Step(ch, actions[0]).newState == Some(next)
    requires s in ch.partner.onchainLocks && KeepsLock(ch.partner, next.partner, s)
    requires Run(next, actions[1..][..i]) == Some(mid) && KeepsLock(next.partner, mid.partner, s)
    requires i < |actions[1..]| ==> AcceptsClaimExactly(mid, actions[1..][i], s, next.partner.onchainLocks[s].lock.amount)
    ensures Run(ch, actions[..i + 1]) == Some(mid) && KeepsLock(ch.partner, mid.partner, s)
    ensures i + 1 < |actions| ==> AcceptsClaimExactly(mid, actions[i + 1], s, ch.partner.onchainLocks[s].lock.amount)
  {
    RunPrefix(ch, actions, i);
  }

  /** The action sends an unlock for `s`, which transfers exactly `amount`. */
  ghost predicate ClaimsExactly(ch: Channel, a: Action, s: SecretHash, amount: nat) {
    var r := Step(ch, a);
    && OurEntry(r) == Claimed(s) && r.newState.Some?
    && Transferred(r.newState.value.our) == Transferred(ch.our) + amount
  }

  ghost predicate AcceptsClaimExactly(ch: Channel, a: Action, s: SecretHash, amount: nat) {
    var r := Step(ch, a);
    && PartnerEntry(a, r) == Claimed(s) && r.newState.Some?
    && Transferred(r.newState.value.partner) == Transferred(ch.partner) + amount
  }

  lemma OnchainLockIsPending(e: EndState, s: SecretHash)
    requires DisjointDictionaries(e) && s in e.onchainLocks
    ensures s in Pending(e) && Pending(e)[s] == e.onchainLocks[s].lock
  {
  }

  lemma RunPrefix(ch: Channel, actions: seq<Action>, j: nat)
    requires actions != [] && j < |actions| && Step(ch, actions[0]).newState.Some?
    ensures Run(ch, actions[..j + 1]) == Run(Step(ch, actions[0]).newState.value, actions[1..][..j])
  {
    assert actions[..j + 1][0] == actions[0] && actions[..j + 1][1..] == actions[1..][..j];
  }
}
