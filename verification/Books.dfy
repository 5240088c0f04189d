/**
 * The tables that move money: ledger, withdrawals, nonce counters and deposits, with one function
 * per committed database transaction. `Err` means the transaction rolled back.
 */
module Books {
  import opened Prelude
  import opened Ledger

  datatype WithdrawalStatus =
    | Requested | Validated | Approved | Signing | Broadcast | Confirming | Completed | Failed | Cancelled
  {
    predicate Terminal() { Completed? || Failed? || Cancelled? }

    predicate FundsMayHaveLeft() { Broadcast? || Confirming? || Completed? }

    /** Sent and not yet final: the value sits in clearing. */
    predicate InFlight() { Broadcast? || Confirming? }

    /** The user's funds are reserved and neither paid out nor returned. */
    predicate Held() { Validated? || Approved? || Signing? || InFlight() }

    predicate CanBecome(next: WithdrawalStatus) {
      || this == next
      || match this
         case Requested => next.Validated? || next.Failed? || next.Cancelled?
         case Validated => next.Approved? || next.Failed? || next.Cancelled?
         case Approved => next.Signing? || next.Failed? || next.Cancelled?
         case Signing => next.Broadcast? || next.Failed?
         case Broadcast => next.Confirming? || next.Completed? || next.Failed?
         case Confirming => next.Completed? || next.Failed?
         case _ => false
    }
  }

  datatype DepositStatus = Observed | Confirming | Confirmed | Credited | Reorged | Failed

  /** A signed transaction. Signing and hashing are deterministic, so the content is the hash. */
  datatype Tx = Tx(chain: ChainId, nonce: nat, to: nat, asset: AssetId, amount: int, fee: nat)

  datatype Withdrawal = Withdrawal(
    user: UserId, asset: AssetId, chain: ChainId, destination: nat, amount: int,
    status: WithdrawalStatus, idempotencyKey: string,
    txHash: Option<Tx>, nonce: Option<nat>, reserved: bool)

  datatype Deposit = Deposit(user: UserId, asset: AssetId, amount: int, status: DepositStatus)

  datatype Books = Books(
    ledger: Ledger,
    withdrawals: map<WithdrawalId, Withdrawal>,
    byKey: map<(UserId, string), WithdrawalId>,
    nonces: map<ChainId, nat>,
    deposits: map<DepositId, Deposit>)

  const NO_BOOKS: Books := Books(EMPTY, map[], map[], map[], map[])

  function SetRow(b: Books, id: WithdrawalId, w: Withdrawal): Books {
    b.(withdrawals := b.withdrawals[id := w])
  }

  // --------------------------------------------------------- withdrawal service ---

  datatype Request = Request(
    user: UserId, chain: ChainId, asset: AssetId, amount: int, destination: nat, idempotencyKey: string)

  datatype Decision = Allow | ManualApproval | Deny

  datatype Created = New(id: WithdrawalId) | Existing(id: WithdrawalId) | Denied(id: WithdrawalId)

  /** The fields the request fingerprint covers. */
  predicate SameBody(w: Withdrawal, r: Request) {
    w.user == r.user && w.chain == r.chain && w.asset == r.asset && w.amount == r.amount
      && w.destination == r.destination
  }

  function NewRow(r: Request, status: WithdrawalStatus, reserved: bool): Withdrawal {
    Withdrawal(r.user, r.asset, r.chain, r.destination, r.amount, status, r.idempotencyKey, None, None, reserved)
  }

  function Insert(b: Books, id: WithdrawalId, r: Request, status: WithdrawalStatus, reserved: bool): Books {
    b.(withdrawals := b.withdrawals[id := NewRow(r, status, reserved)],
       byKey := b.byKey[(r.user, r.idempotencyKey) := id])
  }

  /**
   * `WithdrawalService::create` with the risk decision given. A denial commits a `failed` row; an
   * accepted request commits the row, its reservation and its first status together.
   */
  function Create(b: Books, id: WithdrawalId, r: Request, decision: Decision): Result<(Books, Created)> {
    if !IsPositive(r.amount) then Err(InvalidAmount)
    else if |r.idempotencyKey| < 8 || |r.idempotencyKey| > 128 then Err(Validation)
    else if (r.user, r.idempotencyKey) in b.byKey then
      var existing := b.byKey[(r.user, r.idempotencyKey)];
      if existing !in b.withdrawals then Err(Internal)
      else if !SameBody(b.withdrawals[existing], r) then Err(IdempotencyKeyConflict)
      else Ok((b, Existing(existing)))
    else if id in b.withdrawals then Err(Conflict)
    else if decision.Deny? then Ok((Insert(b, id, r, WithdrawalStatus.Failed, false), Denied(id)))
    else
      match ReserveWithdrawal(b.ledger, id, r.user, r.asset, r.amount)
      case Err(e) => Err(e)
      case Ok(l) =>
        var status := if decision.ManualApproval? then Validated else Approved;
        Ok((Insert(b.(ledger := l), id, r, status, true), New(id)))
  }

  /** `WithdrawalService::approve`. */
  function Approve(b: Books, id: WithdrawalId): Result<Books> {
    if id !in b.withdrawals then Err(NotFound)
    else if !b.withdrawals[id].status.Validated? then Err(InvalidStateTransition)
    else Ok(SetRow(b, id, b.withdrawals[id].(status := Approved)))
  }

  function ReleaseIfReserved(b: Books, id: WithdrawalId): Result<Ledger>
    requires id in b.withdrawals
  {
    var w := b.withdrawals[id];
    if w.reserved then ReleaseReservation(b.ledger, id, w.user, w.asset, w.amount) else Ok(b.ledger)
  }

  /** `WithdrawalService::cancel`: the release is posted first, then the transition is checked. */
  function Cancel(b: Books, id: WithdrawalId): Result<Books> {
    if id !in b.withdrawals then Err(NotFound)
    else
      var w := b.withdrawals[id];
      if w.status.FundsMayHaveLeft() || w.status.Terminal() then Err(Conflict)
      else
        match ReleaseIfReserved(b, id)
        case Err(e) => Err(e)
        case Ok(l) =>
          if !w.status.CanBecome(Cancelled) then Err(InvalidStateTransition)
          else Ok(SetRow(b.(ledger := l), id, w.(status := Cancelled)))
  }

  // ------------------------------------------------------------ withdrawal pipeline ---

  /** `allocate_nonce`: behind neither the counter nor the chain, and never ahead of both. */
  function NextNonce(b: Books, chain: ChainId, hint: nat): (n: nat)
    ensures n >= hint && (chain in b.nonces ==> n >= b.nonces[chain])
    ensures n == hint || (chain in b.nonces && n == b.nonces[chain])
  {
    if chain in b.nonces && b.nonces[chain] > hint then b.nonces[chain] else hint
  }

  function SignedTx(w: Withdrawal, nonce: nat, fee: nat): Tx {
    Tx(w.chain, nonce, w.destination, w.asset, w.amount, fee)
  }

  /** Phase 1 of `sign_and_broadcast`, up to the commit before broadcasting. */
  function Sign(b: Books, id: WithdrawalId, hint: nat, fee: nat): Result<Books> {
    if id !in b.withdrawals then Err(NotFound)
    else
      var w := b.withdrawals[id];
      if !w.status.Approved? then Ok(b)
      else
        var nonce := NextNonce(b, w.chain, hint);
        Ok(SetRow(b, id, w.(status := Signing, txHash := Some(SignedTx(w, nonce, fee)), nonce := Some(nonce)))
           .(nonces := b.nonces[w.chain := nonce + 1]))
  }

  /** `mark_broadcast`: the value moves from custody to clearing. */
  function MarkBroadcast(b: Books, id: WithdrawalId): Result<Books> {
    if id !in b.withdrawals then Err(NotFound)
    else
      var w := b.withdrawals[id];
      if !w.status.Signing? then Ok(b)
      else if w.txHash.None? then Err(Conflict)
      else
        match RecordBroadcast(b.ledger, id, w.asset, w.amount)
        case Err(e) => Err(e)
        case Ok(l) => Ok(SetRow(b.(ledger := l), id, w.(status := WithdrawalStatus.Broadcast)))
  }

  /** `update_confirmations`. */
  function NoteConfirmations(b: Books, id: WithdrawalId): Books {
    if id in b.withdrawals && b.withdrawals[id].status.Broadcast?
    then SetRow(b, id, b.withdrawals[id].(status := WithdrawalStatus.Confirming))
    else b
  }

  /** Gas is booked in the chain's native asset, when that asset is registered. */
  function BookFee(l: Ledger, id: WithdrawalId, native: Option<AssetId>, fee: nat): Result<Ledger> {
    if native.None? then Ok(l) else RecordNetworkFee(l, id, native.value, fee)
  }

  /** `settle_success`. */
  function SettleSuccess(b: Books, id: WithdrawalId, native: Option<AssetId>, fee: nat): Result<Books> {
    if id !in b.withdrawals then Err(NotFound)
    else
      var w := b.withdrawals[id];
      if w.status.Completed? then Ok(b)
      else if !w.status.FundsMayHaveLeft() then Err(InvalidStateTransition)
      else
        match SettleWithdrawal(b.ledger, id, w.user, w.asset, w.amount)
        case Err(e) => Err(e)
        case Ok(l) =>
          match BookFee(l, id, native, fee)
          case Err(e) => Err(e)
          case Ok(l') => Ok(SetRow(b.(ledger := l'), id, w.(status := Completed)))
  }

  /** The clearing leg reversed and the reservation returned. */
  function Unwound(l: Ledger, id: WithdrawalId, w: Withdrawal): Result<Ledger> {
    match ReverseBroadcast(l, id, w.asset, w.amount)
    case Err(e) => Err(e)
    case Ok(l1) => ReleaseReservation(l1, id, w.user, w.asset, w.amount)
  }

  /** `settle_failure`: the broadcast is unwound and the gas still booked. */
  function SettleFailure(b: Books, id: WithdrawalId, native: Option<AssetId>, fee: nat): Result<Books> {
    if id !in b.withdrawals then Err(NotFound)
    else
      var w := b.withdrawals[id];
      if w.status.Terminal() then Ok(b)
      else
        match Unwound(b.ledger, id, w)
        case Err(e) => Err(e)
        case Ok(l) =>
          match BookFee(l, id, native, fee)
          case Err(e) => Err(e)
          case Ok(l') => Ok(SetRow(b.(ledger := l'), id, w.(status := WithdrawalStatus.Failed)))
  }

  /** `fail_and_release`. */
  function FailAndRelease(b: Books, id: WithdrawalId): Result<Books> {
    if id !in b.withdrawals then Err(NotFound)
    else
      var w := b.withdrawals[id];
      if w.status.Terminal() || w.status.FundsMayHaveLeft() then Ok(b)
      else
        match ReleaseIfReserved(b, id)
        case Err(e) => Err(e)
        case Ok(l) => Ok(SetRow(b.(ledger := l), id, w.(status := WithdrawalStatus.Failed)))
  }

  // -------------------------------------------------------------------- deposits ---

  function SetDeposit(b: Books, d: DepositId, dep: Deposit): Books {
    b.(deposits := b.deposits[d := dep])
  }

  /** `create_deposit`: an existing row is returned untouched. */
  function ObserveDeposit(b: Books, d: DepositId, u: UserId, a: AssetId, amount: int): Result<Books> {
    if d in b.deposits then Ok(b)
    else if !IsPositive(amount) then Err(Conflict)
    else Ok(SetDeposit(b, d, Deposit(u, a, amount, Observed)))
  }

  /** One deposit of a confirmation pass, once its block is known to be canonical. */
  function ConfirmDeposit(b: Books, d: DepositId, final: bool): Books {
    if d !in b.deposits then b
    else
      var dep := b.deposits[d];
      if final && (dep.status.Observed? || dep.status.Confirming?) then SetDeposit(b, d, dep.(status := Confirmed))
      else if !final && dep.status.Observed? then SetDeposit(b, d, dep.(status := DepositStatus.Confirming))
      else b
  }

  /** `DepositCreditHandler::credit`. */
  function CreditConfirmed(b: Books, d: DepositId): Result<Books> {
    if d !in b.deposits then Err(NotFound)
    else
      var dep := b.deposits[d];
      match dep.status
      case Credited => Ok(b)
      case Reorged => Ok(b)
      case Failed => Ok(b)
      case Observed => Err(Conflict)
      case Confirming => Err(Conflict)
      case Confirmed =>
        match CreditDeposit(b.ledger, d, dep.user, dep.asset, dep.amount)
        case Err(e) => Err(e)
        case Ok(l) => Ok(SetDeposit(b.(ledger := l), d, dep.(status := Credited)))
  }

  /** One deposit of `handle_in_tx`: a credited one is compensated before it is marked. */
  function ReorgDeposit(b: Books, d: DepositId): Result<Books> {
    if d !in b.deposits then Ok(b)
    else
      var dep := b.deposits[d];
      if dep.status.Reorged? then Ok(b)
      else if !dep.status.Credited? then Ok(SetDeposit(b, d, dep.(status := Reorged)))
      else
        match ReverseDepositCredit(b.ledger, d, dep.user, dep.asset, dep.amount)
        case Err(e) => Err(e)
        case Ok(l) => Ok(SetDeposit(b.(ledger := l), d, dep.(status := Reorged)))
  }

  /** The deposits of the orphaned transfers, all in one transaction. */
  function ReorgDeposits(b: Books, ds: seq<DepositId>): Result<Books> {
    if ds == [] then Ok(b)
    else
      match ReorgDeposits(b, ds[..|ds| - 1])
      case Err(e) => Err(e)
      case Ok(m) => ReorgDeposit(m, ds[|ds| - 1])
  }

  /** `fund_custody`. */
  function Fund(b: Books, a: AssetId, amount: int, reference: string): Result<Books> {
    match FundCustody(b.ledger, a, amount, reference)
    case Err(e) => Err(e)
    case Ok(l) => Ok(b.(ledger := l))
  }
}
