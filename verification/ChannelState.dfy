/**
  The netting channel as a value (raiden/transfer/state.py) and every operation of
  raiden/transfer/channel.py as a function from channel to channel. An assertion or a constructor
  check of the source that fails becomes a `Failure`; a message that the source refuses becomes a
  `Rejection` naming the first check that fails, in the source's order.
 */
module ChannelState {
  import opened Wrappers
  import opened BigEndian
  import opened Hashes
  import opened MerkleTree
  import opened Locks

  const NUMBER_OF_CONFIRMATIONS: nat := 5
  const MAXIMUM_PENDING_TRANSFERS: nat := 160

  /** Addresses compare as the 20-byte strings they stand for, so numbers will do. */
  type Address = nat

  /** Blocks that can hold a transaction; the genesis block cannot. */
  type BlockNumber = b: nat | 0 < b witness 1

  datatype CanonicalIdentifier =
    CanonicalIdentifier(chainId: nat, tokenNetwork: Address, channelId: nat)

  /** What recovering the signer of a balance proof yields. */
  datatype Signature = Unsigned | RecoversTo(signer: Address) | Unrecoverable

  datatype BalanceProof = BalanceProof(
    nonce: nat, transferredAmount: nat, lockedAmount: int, locksroot: Hash,
    id: CanonicalIdentifier, signature: Signature)

  datatype UnlockPartialProof = UnlockPartialProof(lock: HashTimeLock, secret: Secret)

  type ProofMap = map<SecretHash, UnlockPartialProof>

  datatype EndState = EndState(
    address: Address,
    contractBalance: nat,
    lockedLocks: LockMap,
    unlockedLocks: ProofMap,
    onchainLocks: ProofMap,
    merkletree: MerkleTreeState,
    balanceProof: Option<BalanceProof>,
    onchainLocksroot: Hash)

  datatype TxResult = TxSuccess | TxFailure

  datatype TxStatus = TxStatus(
    started: Option<BlockNumber>, finished: Option<BlockNumber>, result: Option<TxResult>)

  datatype Deposit = Deposit(participant: Address, contractBalance: nat, blockNumber: nat)

  datatype Channel = Channel(
    id: CanonicalIdentifier,
    settleTimeout: nat,
    mediationFee: nat,
    our: EndState,
    partner: EndState,
    depositQueue: seq<Deposit>,
    closeTx: Option<TxStatus>,
    settleTx: Option<TxStatus>,
    updateTx: Option<TxStatus>)

  datatype Status = Opened | Closing | Closed | Settling | Settled | Unusable

  datatype Message =
    | LockedTransfer(proof: BalanceProof, lock: HashTimeLock)
    | Unlock(proof: BalanceProof, secrethash: SecretHash)
    | LockExpired(proof: BalanceProof, secrethash: SecretHash)

  datatype SendError =
    | NotEnoughBalance | ChannelNotOpen | InvalidLock | LockAlreadyRegistered | WouldOverflow
    | InvalidProof | UnknownLock | NoBalanceProof | LockNotInTree

  datatype Rejection =
    | ChannelIsClosed | WrongChannel | WrongTokenNetwork | WrongChain | ProofOverflows | WrongNonce
    | WrongSignature | SameLockTwice | TooManyPendingTransfers | WrongLocksroot
    | WrongTransferredAmount | WrongLockedAmount | AboveDistributable | UnusableSecretHash
    | NoSuchLock | UnknownLockHash | UnlockedOnChain | LockNotExpired

  datatype Event =
    | SendMessage(message: Message)
    | SendProcessed
    | InvalidReceived(reason: Rejection)
    | ContractSendChannelClose(proof: Option<BalanceProof>)
    | ContractSendChannelSettle
    | ContractSendChannelUpdateTransfer(expiration: nat, balanceProof: BalanceProof)
    | ContractSendChannelBatchUnlock(participant: Address)
    | AssertionFailed

  datatype TransitionResult = TransitionResult(newState: Option<Channel>, events: seq<Event>)

  datatype StateChange =
    | Block(number: BlockNumber)
    | ActionChannelClose(channelId: nat)
    | ActionChannelSetFee(channelId: nat, fee: nat)
    | ContractReceiveChannelClosed(channelId: nat, transactionFrom: Address, closedAt: BlockNumber)
    | ContractReceiveChannelClosedLight(channelId: nat, transactionFrom: Address, closedAt: BlockNumber,
                                        latestProof: Option<BalanceProof>)
    | ContractReceiveUpdateTransfer(channelId: nat)
    | ContractReceiveChannelSettled(channelId: nat, settledAt: BlockNumber,
                                    ourLocksroot: Hash, partnerLocksroot: Hash)
    | ContractReceiveChannelNewBalance(deposit: Deposit)
    | ContractReceiveChannelBatchUnlock(unlockPartner: Address)

  function NewEndState(address: Address, balance: nat): EndState {
    EndState(address, balance, map[], map[], map[], EMPTY_TREE, None, EMPTY_MERKLE_ROOT)
  }

  function NewChannel(id: CanonicalIdentifier, settleTimeout: nat, fee: nat, our: EndState, partner: EndState)
    : Channel
  {
    Channel(id, settleTimeout, fee, our, partner, [], None, None, None)
  }

  // ---------------------------------------------------------------- locks of one end

  function LocksOf(proofs: ProofMap): LockMap {
    map s | s in proofs :: proofs[s].lock
  }

  /** All locks of an end that are neither claimed nor expired, whichever dictionary holds them. */
  function Pending(e: EndState): LockMap {
    e.lockedLocks + LocksOf(e.unlockedLocks) + LocksOf(e.onchainLocks)
  }

  predicate IsLockPending(e: EndState, s: SecretHash) {
    s in e.lockedLocks || s in e.unlockedLocks || s in e.onchainLocks
  }

  function GetLock(e: EndState, s: SecretHash): Option<HashTimeLock> {
    if s in e.lockedLocks then Some(e.lockedLocks[s])
    else if s in e.unlockedLocks then Some(e.unlockedLocks[s].lock)
    else if s in e.onchainLocks then Some(e.onchainLocks[s].lock)
    else None
  }

  function GetUnclaimedLock(e: EndState, s: SecretHash): Option<HashTimeLock> {
    if s in e.lockedLocks then Some(e.lockedLocks[s])
    else if s in e.unlockedLocks then Some(e.unlockedLocks[s].lock)
    else None
  }

  ghost function AmountLocked(e: EndState): nat {
    SumAmounts(e.lockedLocks) + SumAmounts(LocksOf(e.unlockedLocks)) + SumAmounts(LocksOf(e.onchainLocks))
  }

  function DelUnclaimedLock(e: EndState, s: SecretHash): EndState {
    e.(lockedLocks := e.lockedLocks - {s}, unlockedLocks := e.unlockedLocks - {s})
  }

  function DelLock(e: EndState, s: SecretHash): EndState {
    DelUnclaimedLock(e, s).(onchainLocks := e.onchainLocks - {s})
  }

  function RegisterSecretEndState(e: EndState, secret: Secret, s: SecretHash): EndState {
    if s in e.lockedLocks then
      e.(lockedLocks := e.lockedLocks - {s},
         unlockedLocks := e.unlockedLocks[s := UnlockPartialProof(e.lockedLocks[s], secret)])
    else e
  }

  function RegisterOnchainSecretEndState(
    e: EndState, secret: Secret, s: SecretHash, revealBlock: nat, deleteLock: bool := true): EndState
  {
    var pending :=
      if s in e.unlockedLocks then Some(e.unlockedLocks[s].lock)
      else if s in e.lockedLocks then Some(e.lockedLocks[s])
      else None;
    if pending == None || pending.value.expiration < revealBlock then e
    else
      var rest := if deleteLock then DelLock(e, s) else e;
      rest.(onchainLocks := rest.onchainLocks[s := UnlockPartialProof(pending.value, secret)])
  }

  // ---------------------------------------------------------------- balances

  function Nonce(e: EndState): nat {
    if e.balanceProof.Some? then e.balanceProof.value.nonce else 0
  }

  function NextNonce(e: EndState): nat {
    Nonce(e) + 1
  }

  function Transferred(e: EndState): nat {
    if e.balanceProof.Some? then e.balanceProof.value.transferredAmount else 0
  }

  /** The locked amount of `get_current_balanceproof`: what is pending, once there is a proof. */
  ghost function CurrentLocked(e: EndState): nat {
    if e.balanceProof.Some? then AmountLocked(e) else 0
  }

  function Balance(sender: EndState, receiver: EndState): int {
    sender.contractBalance - Transferred(sender) + Transferred(receiver)
  }

  ghost function Distributable(sender: EndState, receiver: EndState): int {
    var distributable := Balance(sender, receiver) - AmountLocked(sender);
    var overflowLimit := UINT256_MAX - Transferred(sender) - CurrentLocked(sender);
    var limit := if overflowLimit < 0 then 0 else overflowLimit;
    if limit < distributable then limit else distributable
  }

  function GetStatus(ch: Channel): Status {
    match ch.settleTx
    case Some(tx) =>
      if tx.result == Some(TxSuccess) then Settled else if tx.finished == None then Settling else Unusable
    case None =>
      match ch.closeTx
      case Some(tx) =>
        if tx.result == Some(TxSuccess) then Closed else if tx.finished == None then Closing else Unusable
      case None => Opened
  }

  predicate PriorToClosed(ch: Channel) {
    GetStatus(ch) in {Opened, Closing}
  }

  // ---------------------------------------------------------------- sending

  /** The constructor of an unsigned balance proof, with its range checks. */
  function MakeProof(nonce: nat, transferred: int, locked: int, root: Hash, id: CanonicalIdentifier)
    : Option<BalanceProof>
  {
    if nonce <= UINT64_MAX && 0 <= transferred <= UINT256_MAX
    then Some(BalanceProof(nonce, transferred, locked, root, id, Unsigned))
    else None
  }

  ghost function CreateSendLockedTransfer(ch: Channel, amount: nat, expiration: nat, s: SecretHash)
    : Result<(BalanceProof, HashTimeLock, MerkleTreeState), SendError>
  {
    if amount > Distributable(ch.our, ch.partner) then Failure(NotEnoughBalance)
    else if GetStatus(ch) != Opened then Failure(ChannelNotOpen)
    else if amount > UINT256_MAX || expiration > UINT256_MAX then Failure(InvalidLock)
    else
      var lock: HashTimeLock := Lock(amount, expiration, s);
      match ComputeMerkletreeWith(Below, ch.our.merkletree, LockHash(lock))
      case None => Failure(LockAlreadyRegistered)
      case Some(tree) =>
        if Transferred(ch.our) + amount > UINT256_MAX then Failure(WouldOverflow)
        else
          match MakeProof(NextNonce(ch.our), Transferred(ch.our), AmountLocked(ch.our) + amount,
                          Root(tree), ch.id)
          case None => Failure(InvalidProof)
          case Some(proof) => Success((proof, lock, tree))
  }

  /** A node registers its own proof unsigned and sends it signed. */
  function Sign(ch: Channel, proof: BalanceProof): BalanceProof {
    proof.(signature := RecoversTo(ch.our.address))
  }

  function AddLock(e: EndState, proof: BalanceProof, tree: MerkleTreeState, lock: HashTimeLock): EndState {
    e.(balanceProof := Some(proof), merkletree := tree,
       lockedLocks := e.lockedLocks[lock.secrethash := lock])
  }

  ghost function SendLockedTransfer(ch: Channel, amount: nat, expiration: nat, s: SecretHash)
    : Result<(Channel, Message), SendError>
  {
    match CreateSendLockedTransfer(ch, amount, expiration, s)
    case Failure(e) => Failure(e)
    case Success((proof, lock, tree)) =>
      Success((ch.(our := AddLock(ch.our, proof, tree, lock)), LockedTransfer(Sign(ch, proof), lock)))
  }

  ghost function SendRefundTransfer(ch: Channel, amount: nat, expiration: nat, s: SecretHash)
    : Result<(Channel, Message), SendError>
  {
    if s !in ch.partner.lockedLocks then Failure(UnknownLock)
    else if GetStatus(ch) != Opened then Failure(ChannelNotOpen)
    else SendLockedTransfer(ch, amount, expiration, s)
  }

  ghost function CreateUnlock(ch: Channel, lock: HashTimeLock): Result<(BalanceProof, MerkleTreeState), SendError> {
    if !IsLockPending(ch.our, lock.secrethash) then Failure(UnknownLock)
    else if GetStatus(ch) != Opened then Failure(ChannelNotOpen)
    else if ch.our.balanceProof == None then Failure(NoBalanceProof)
    else
      match ComputeMerkletreeWithout(Below, ch.our.merkletree, LockHash(lock))
      case None => Failure(LockNotInTree)
      case Some(tree) =>
        match MakeProof(NextNonce(ch.our), Transferred(ch.our) + lock.amount,
                        AmountLocked(ch.our) - lock.amount, Root(tree), ch.id)
        case None => Failure(InvalidProof)
        case Some(proof) => Success((proof, tree))
  }

  ghost function SendUnlock(ch: Channel, s: SecretHash): Result<(Channel, Message), SendError> {
    match GetLock(ch.our, s)
    case None => Failure(UnknownLock)
    case Some(lock) =>
      match CreateUnlock(ch, lock)
      case Failure(e) => Failure(e)
      case Success((proof, tree)) =>
        var our := DelLock(ch.our.(balanceProof := Some(proof), merkletree := tree), lock.secrethash);
        Success((ch.(our := our), Unlock(Sign(ch, proof), lock.secrethash)))
  }

  ghost function CreateSendExpiredLock(e: EndState, lock: HashTimeLock, id: CanonicalIdentifier)
    : Result<Option<(BalanceProof, MerkleTreeState)>, SendError>
  {
    if e.balanceProof == None then Failure(NoBalanceProof)
    else
      match ComputeMerkletreeWithout(Below, e.merkletree, LockHash(lock))
      case None => Success(None)
      case Some(tree) =>
        match MakeProof(NextNonce(e), Transferred(e), AmountLocked(e) - lock.amount, Root(tree), id)
        case None => Failure(InvalidProof)
        case Some(proof) => Success(Some((proof, tree)))
  }

  ghost function EventsForExpiredLock(ch: Channel, lock: HashTimeLock): Result<(Channel, Option<Message>), SendError> {
    if GetStatus(ch) != Opened then Failure(ChannelNotOpen)
    else
      match CreateSendExpiredLock(ch.our, lock, ch.id)
      case Failure(e) => Failure(e)
      case Success(None) => Success((ch, None))
      case Success(Some((proof, tree))) =>
        var our := DelUnclaimedLock(ch.our.(balanceProof := Some(proof), merkletree := tree), lock.secrethash);
        Success((ch.(our := our), Some(LockExpired(Sign(ch, proof), lock.secrethash))))
  }

  // ---------------------------------------------------------------- validating

  function SenderExpirationThreshold(lock: HashTimeLock): nat {
    lock.expiration + NUMBER_OF_CONFIRMATIONS * 2
  }

  function ReceiverExpirationThreshold(lock: HashTimeLock): nat {
    lock.expiration + NUMBER_OF_CONFIRMATIONS
  }

  predicate IsLockExpired(e: EndState, lock: HashTimeLock, blockNumber: nat, threshold: nat) {
    lock.secrethash !in e.onchainLocks && threshold <= blockNumber
  }

  /** The check callers make before they let a lock of their own expire. */
  predicate IsTransferExpired(ch: Channel, lock: HashTimeLock, blockNumber: nat) {
    IsLockExpired(ch.our, lock, blockNumber, SenderExpirationThreshold(lock))
  }

  function CheckProof(ch: Channel, sender: EndState, proof: BalanceProof): Option<Rejection> {
    if GetStatus(ch) != Opened then Some(ChannelIsClosed)
    else if proof.id.channelId != ch.id.channelId then Some(WrongChannel)
    else if proof.id.tokenNetwork != ch.id.tokenNetwork then Some(WrongTokenNetwork)
    else if proof.id.chainId != ch.id.chainId then Some(WrongChain)
    else if proof.transferredAmount + proof.lockedAmount > UINT256_MAX then Some(ProofOverflows)
    else if proof.nonce != NextNonce(sender) then Some(WrongNonce)
    else if proof.signature != RecoversTo(sender.address) then Some(WrongSignature)
    else None
  }

  ghost function CheckLockedTransfer(ch: Channel, sender: EndState, receiver: EndState, proof: BalanceProof,
                                     lock: HashTimeLock): Result<MerkleTreeState, Rejection>
  {
    match CheckProof(ch, sender, proof)
    case Some(reason) => Failure(reason)
    case None =>
      match ComputeMerkletreeWith(Below, sender.merkletree, LockHash(lock))
      case None => Failure(SameLockTwice)
      case Some(tree) =>
        if |Leaves(tree)| > MAXIMUM_PENDING_TRANSFERS then Failure(TooManyPendingTransfers)
        else if proof.locksroot != Root(tree) then Failure(WrongLocksroot)
        else if proof.transferredAmount != Transferred(sender) then Failure(WrongTransferredAmount)
        else if proof.lockedAmount != CurrentLocked(sender) + lock.amount then Failure(WrongLockedAmount)
        else if lock.amount > Distributable(sender, receiver) then Failure(AboveDistributable)
        else if lock.secrethash == EMPTY_HASH_KECCAK then Failure(UnusableSecretHash)
        else Success(tree)
  }

  ghost function CheckUnlock(ch: Channel, sender: EndState, proof: BalanceProof, s: SecretHash)
    : Result<MerkleTreeState, Rejection>
  {
    match GetLock(sender, s)
    case None => Failure(NoSuchLock)
    case Some(lock) =>
      match ComputeMerkletreeWithout(Below, sender.merkletree, LockHash(lock))
      case None => Failure(UnknownLockHash)
      case Some(tree) =>
        match CheckProof(ch, sender, proof)
        case Some(reason) => Failure(reason)
        case None =>
          if proof.locksroot != Root(tree) then Failure(WrongLocksroot)
          else if proof.transferredAmount != Transferred(sender) + lock.amount then Failure(WrongTransferredAmount)
          else if proof.lockedAmount != CurrentLocked(sender) - lock.amount then Failure(WrongLockedAmount)
          else Success(tree)
  }

  /** Expiry is looked up in the receiver's own on-chain dictionary, not in the sender's. */
  ghost function CheckLockExpired(ch: Channel, sender: EndState, receiver: EndState, proof: BalanceProof,
                                  s: SecretHash, blockNumber: nat): Result<MerkleTreeState, Rejection>
  {
    if s in ch.partner.onchainLocks then Failure(UnlockedOnChain)
    else
      match GetUnclaimedLock(ch.partner, s)
      case None => Failure(NoSuchLock)
      case Some(lock) =>
        match CheckProof(ch, sender, proof)
        case Some(reason) => Failure(reason)
        case None =>
          match ComputeMerkletreeWithout(Below, sender.merkletree, LockHash(lock))
          case None => Failure(SameLockTwice)
          case Some(tree) =>
            if !IsLockExpired(receiver, lock, blockNumber, ReceiverExpirationThreshold(lock))
            then Failure(LockNotExpired)
            else if proof.locksroot != Root(tree) then Failure(WrongLocksroot)
            else if proof.transferredAmount != Transferred(sender) then Failure(WrongTransferredAmount)
            else if proof.lockedAmount != CurrentLocked(sender) - lock.amount then Failure(WrongLockedAmount)
            else Success(tree)
  }

  // ---------------------------------------------------------------- receiving

  ghost function HandleReceiveLockedTransfer(ch: Channel, proof: BalanceProof, lock: HashTimeLock): TransitionResult {
    match CheckLockedTransfer(ch, ch.partner, ch.our, proof, lock)
    case Failure(reason) => TransitionResult(Some(ch), [InvalidReceived(reason)])
    case Success(tree) =>
      TransitionResult(Some(ch.(partner := AddLock(ch.partner, proof, tree, lock))), [SendProcessed])
  }

  ghost function HandleUnlock(ch: Channel, proof: BalanceProof, s: SecretHash): TransitionResult {
    match CheckUnlock(ch, ch.partner, proof, s)
    case Failure(reason) => TransitionResult(Some(ch), [InvalidReceived(reason)])
    case Success(tree) =>
      var partner := DelLock(ch.partner.(balanceProof := Some(proof), merkletree := tree), s);
      TransitionResult(Some(ch.(partner := partner)), [SendProcessed])
  }

  ghost function HandleReceiveLockExpired(ch: Channel, proof: BalanceProof, s: SecretHash, blockNumber: nat)
    : TransitionResult
  {
    match CheckLockExpired(ch, ch.partner, ch.our, proof, s, blockNumber)
    case Failure(reason) => TransitionResult(Some(ch), [InvalidReceived(reason)])
    case Success(tree) =>
      var partner := DelUnclaimedLock(ch.partner.(balanceProof := Some(proof), merkletree := tree), s);
      TransitionResult(Some(ch.(partner := partner)), [SendProcessed])
  }

  function RegisterOffchainSecret(ch: Channel, secret: Secret, s: SecretHash): Channel {
    ch.(our := RegisterSecretEndState(ch.our, secret, s),
        partner := RegisterSecretEndState(ch.partner, secret, s))
  }

  function RegisterOnchainSecret(ch: Channel, secret: Secret, s: SecretHash, revealBlock: nat): Channel {
    ch.(our := RegisterOnchainSecretEndState(ch.our, secret, s, revealBlock),
        partner := RegisterOnchainSecretEndState(ch.partner, secret, s, revealBlock))
  }

  // ---------------------------------------------------------------- deposits

  predicate IsTransactionConfirmed(transactionBlock: nat, blockNumber: nat) {
    transactionBlock + NUMBER_OF_CONFIRMATIONS < blockNumber
  }

  /** The order of the deposit heap: by block, then by participant, then by balance. */
  predicate DepositBefore(a: Deposit, b: Deposit) {
    || a.blockNumber < b.blockNumber
    || (a.blockNumber == b.blockNumber &&
        (|| a.participant < b.participant
         || (a.participant == b.participant && a.contractBalance < b.contractBalance)))
  }

  /** The heap as the sorted list of what it holds: its front is what `heappop` takes. */
  function HeapPush(queue: seq<Deposit>, d: Deposit): seq<Deposit> {
    if queue == [] || !DepositBefore(queue[0], d) then [d] + queue
    else [queue[0]] + HeapPush(queue[1..], d)
  }

  function UpdateContractBalance(e: EndState, contractBalance: nat): EndState {
    if e.contractBalance < contractBalance then e.(contractBalance := contractBalance) else e
  }

  function ApplyNewBalance(ch: Channel, d: Deposit): Channel {
    if d.participant == ch.our.address then
      ch.(our := UpdateContractBalance(ch.our, d.contractBalance))
    else if d.participant == ch.partner.address then
      ch.(partner := UpdateContractBalance(ch.partner, d.contractBalance))
    else ch
  }

  predicate IsDepositConfirmed(ch: Channel, blockNumber: nat) {
    ch.depositQueue != [] && IsTransactionConfirmed(ch.depositQueue[0].blockNumber, blockNumber)
  }

  function ApplyConfirmedDeposits(ch: Channel, blockNumber: nat): Channel
    decreases |ch.depositQueue|
  {
    if IsDepositConfirmed(ch, blockNumber) then
      var popped := ch.(depositQueue := ch.depositQueue[1..]);
      ApplyConfirmedDeposits(ApplyNewBalance(popped, ch.depositQueue[0]), blockNumber)
    else ch
  }

  // ---------------------------------------------------------------- closing and settling

  function SetFinished(tx: Option<TxStatus>, blockNumber: BlockNumber): Option<TxStatus> {
    match tx
    case None => Some(TxStatus(None, Some(blockNumber), Some(TxSuccess)))
    case Some(status) =>
      if status.finished == None
      then Some(TxStatus(status.started, Some(blockNumber), Some(TxSuccess)))
      else tx
  }

  predicate SettlementEnded(ch: Channel, blockNumber: nat) {
    && GetStatus(ch) == Closed
    && ch.closeTx.value.finished.Some?
    && ch.closeTx.value.finished.value + ch.settleTimeout < blockNumber
  }

  /** An assertion of a handler that fails stops it: the caller keeps the channel it had. */
  function Asserts(ch: Channel, condition: bool, r: TransitionResult): TransitionResult {
    if condition then r else TransitionResult(Some(ch), [AssertionFailed])
  }

  /** What `handle_block` asserts: the two block numbers agree, and a closed channel knows its close block. */
  predicate BlockFits(ch: Channel, number: BlockNumber, blockNumber: BlockNumber) {
    number == blockNumber && (GetStatus(ch) == Closed ==> ch.closeTx.value.finished.Some?)
  }

  function HandleBlock(ch: Channel, number: BlockNumber, blockNumber: BlockNumber): TransitionResult {
    Asserts(ch, BlockFits(ch, number, blockNumber), EnterBlock(ch, blockNumber))
  }

  function EnterBlock(ch: Channel, blockNumber: BlockNumber): TransitionResult {
    if SettlementEnded(ch, blockNumber) then
      var settling := ch.(settleTx := Some(TxStatus(Some(blockNumber), None, None)));
      TransitionResult(Some(ApplyConfirmedDeposits(settling, blockNumber)), [ContractSendChannelSettle])
    else TransitionResult(Some(ApplyConfirmedDeposits(ch, blockNumber)), [])
  }

  function HandleActionClose(ch: Channel, channelId: nat, blockNumber: BlockNumber): TransitionResult {
    Asserts(ch, channelId == ch.id.channelId,
            if PriorToClosed(ch) then
              TransitionResult(Some(ch.(closeTx := Some(TxStatus(Some(blockNumber), None, None)))),
                               [ContractSendChannelClose(ch.partner.balanceProof)])
            else TransitionResult(Some(ch), []))
  }

  function HandleActionSetFee(ch: Channel, channelId: nat, fee: nat): TransitionResult {
    Asserts(ch, channelId == ch.id.channelId, TransitionResult(Some(ch.(mediationFee := fee)), []))
  }

  function HandleChannelClosed(ch: Channel, channelId: nat, transactionFrom: Address, closedAt: BlockNumber,
                               proof: Option<BalanceProof>): TransitionResult
  {
    if channelId == ch.id.channelId && PriorToClosed(ch) then
      var closed := ch.(closeTx := SetFinished(ch.closeTx, closedAt));
      if transactionFrom != ch.our.address && proof.Some? && ch.updateTx == None then
        TransitionResult(Some(closed.(updateTx := Some(TxStatus(Some(closedAt), None, None)))),
                         [ContractSendChannelUpdateTransfer(closedAt + ch.settleTimeout, proof.value)])
      else TransitionResult(Some(closed), [])
    else TransitionResult(Some(ch), [])
  }

  function HandleChannelUpdatedTransfer(ch: Channel, channelId: nat, blockNumber: BlockNumber): TransitionResult {
    if channelId == ch.id.channelId then
      TransitionResult(Some(ch.(updateTx := Some(TxStatus(None, Some(blockNumber), Some(TxSuccess))))), [])
    else TransitionResult(Some(ch), [])
  }

  function HandleChannelSettled(ch: Channel, channelId: nat, settledAt: BlockNumber,
                                ourLocksroot: Hash, partnerLocksroot: Hash): TransitionResult
  {
    if channelId != ch.id.channelId then TransitionResult(Some(ch), [])
    else if ourLocksroot == EMPTY_MERKLE_ROOT && partnerLocksroot == EMPTY_MERKLE_ROOT then
      TransitionResult(None, [])
    else
      TransitionResult(
        Some(ch.(settleTx := SetFinished(ch.settleTx, settledAt),
                 our := ch.our.(onchainLocksroot := ourLocksroot),
                 partner := ch.partner.(onchainLocksroot := partnerLocksroot))),
        [ContractSendChannelBatchUnlock(ch.partner.address)])
  }

  function HandleChannelNewBalance(ch: Channel, d: Deposit, blockNumber: BlockNumber): TransitionResult {
    if IsTransactionConfirmed(d.blockNumber, blockNumber)
    then TransitionResult(Some(ApplyNewBalance(ch, d)), [])
    else TransitionResult(Some(ch.(depositQueue := HeapPush(ch.depositQueue, d))), [])
  }

  function HandleChannelBatchUnlock(ch: Channel, unlockPartner: Address): TransitionResult {
    if GetStatus(ch) != Settled then TransitionResult(Some(ch), [])
    else
      var done :=
        if unlockPartner == ch.our.address then
          ch.(our := ch.our.(onchainLocksroot := EMPTY_MERKLE_ROOT))
        else if unlockPartner == ch.partner.address then
          ch.(partner := ch.partner.(onchainLocksroot := EMPTY_MERKLE_ROOT))
        else ch;
      if done.our.onchainLocksroot == EMPTY_MERKLE_ROOT && done.partner.onchainLocksroot == EMPTY_MERKLE_ROOT
      then TransitionResult(None, [])
      else TransitionResult(Some(done), [])
  }

  function StateTransition(ch: Channel, change: StateChange, blockNumber: BlockNumber): TransitionResult {
    match change
    case Block(number) => HandleBlock(ch, number, blockNumber)
    case ActionChannelClose(channelId) => HandleActionClose(ch, channelId, blockNumber)
    case ActionChannelSetFee(channelId, fee) => HandleActionSetFee(ch, channelId, fee)
    case ContractReceiveChannelClosed(channelId, from, closedAt) =>
      HandleChannelClosed(ch, channelId, from, closedAt, ch.partner.balanceProof)
    case ContractReceiveChannelClosedLight(channelId, from, closedAt, latestProof) =>
      HandleChannelClosed(ch, channelId, from, closedAt, latestProof)
    case ContractReceiveUpdateTransfer(channelId) => HandleChannelUpdatedTransfer(ch, channelId, blockNumber)
    case ContractReceiveChannelSettled(channelId, settledAt, ourLocksroot, partnerLocksroot) =>
      HandleChannelSettled(ch, channelId, settledAt, ourLocksroot, partnerLocksroot)
    case ContractReceiveChannelNewBalance(d) => HandleChannelNewBalance(ch, d, blockNumber)
    case ContractReceiveChannelBatchUnlock(unlockPartner) => HandleChannelBatchUnlock(ch, unlockPartner)
  }
}
