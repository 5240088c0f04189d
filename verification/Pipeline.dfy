/**
 * The whole money system as a state machine: API calls, deposit handlers, one pipeline worker that
 * may crash between any two commits, and a chain that mines at most one transaction per nonce.
 */
module Pipeline {
  import opened Prelude
  import opened Ledger
  import opened Books

  /** Where the worker is between two commits. A crash forgets it. */
  datatype Worker =
    | Idle
    | Signed(id: WithdrawalId, tx: Tx)                 // phase 1 committed, about to broadcast
    | Resigned(id: WithdrawalId, tx: Tx)               // recovery signed again, about to broadcast
    | Sent(id: WithdrawalId, recovering: bool)         // the node took it, about to record
    | Failing(id: WithdrawalId)                        // sign_and_broadcast failed
    | Releasing(id: WithdrawalId)                      // decided to fail and release

  datatype Receipt = Receipt(tx: Tx, success: bool)

  /** What the node says about one transaction hash. */
  datatype TxStatus = Unknown | Pending | Mined(success: bool, final: bool)

  /** `sent` and `mined` are facts about the outside world, not tables. */
  datatype World = World(
    books: Books,
    worker: Worker,
    sent: set<(WithdrawalId, Tx)>,
    mined: map<(ChainId, nat), Receipt>)

  const START: World := World(NO_BOOKS, Idle, {}, map[])

  datatype Action =
    | DoCreate(id: WithdrawalId, request: Request, decision: Decision)
    | DoApprove(id: WithdrawalId)
    | DoCancel(id: WithdrawalId)
    | DoFund(asset: AssetId, amount: int, reference: string)
    | DoObserve(deposit: DepositId, user: UserId, asset: AssetId, amount: int)
    | DoConfirm(deposit: DepositId, final: bool)
    | DoCredit(deposit: DepositId)
    | DoReorg(deposits: seq<DepositId>)
    | DoSign(id: WithdrawalId, hint: nat, fee: nat)
    | DoSignFails(id: WithdrawalId)
    | DoSubmit(delivered: bool, accepted: bool)
    | DoRecord
    | DoFailRead
    | DoRelease
    | DoRecover(id: WithdrawalId, status: TxStatus, fee: nat)
    | DoInFlight(id: WithdrawalId, status: TxStatus, native: Option<AssetId>, fee: nat)
    | DoCrash
    | DoMine(tx: Tx, success: bool)

  /** A node may have lost sight of anything, but it does not invent receipts. */
  predicate Honest(s: World, tx: Tx, status: TxStatus) {
    status.Mined? ==> (tx.chain, tx.nonce) in s.mined && s.mined[(tx.chain, tx.nonce)] == Receipt(tx, status.success)
  }

  function Commit(s: World, r: Result<Books>): World {
    match r
    case Ok(b) => s.(books := b)
    case Err(_) => s
  }

  /** The broadcast call: the transaction may get out even when the call reports failure. */
  function Submit(s: World, delivered: bool, accepted: bool): World
    requires s.worker.Signed? || s.worker.Resigned?
  {
    var id := s.worker.id;
    var out := if delivered || accepted then s.(sent := s.sent + {(id, s.worker.tx)}) else s;
    if accepted then out.(worker := Sent(id, s.worker.Resigned?))
    else if s.worker.Resigned? then out.(worker := Idle)
    else out.(worker := Failing(id))
  }

  /** One candidate of `recover_signing`. */
  function Recover(s: World, id: WithdrawalId, status: TxStatus, fee: nat): World
    requires id in s.books.withdrawals
  {
    var w := s.books.withdrawals[id];
    if w.txHash.None? then s.(worker := Releasing(id))
    else if !Honest(s, w.txHash.value, status) then s
    else if status.Unknown? then
      if w.nonce.None? then s else s.(worker := Resigned(id, SignedTx(w, w.nonce.value, fee)))
    else Commit(s, MarkBroadcast(s.books, id))
  }

  /** One candidate of `process_in_flight`. */
  function Watch(s: World, id: WithdrawalId, status: TxStatus, native: Option<AssetId>, fee: nat): World
    requires id in s.books.withdrawals
  {
    var w := s.books.withdrawals[id];
    if w.txHash.None? || !Honest(s, w.txHash.value, status) || !status.Mined? then s
    else if !status.success then Commit(s, SettleFailure(s.books, id, native, fee))
    else if status.final then Commit(s, SettleSuccess(s.books, id, native, fee))
    else s.(books := NoteConfirmations(s.books, id))
  }

  function Next(s: World, action: Action): World {
    match action
    case DoCreate(id, r, decision) =>
      (match Create(s.books, id, r, decision)
       case Ok(p) => s.(books := p.0)
       case Err(_) => s)
    case DoApprove(id) => Commit(s, Approve(s.books, id))
    case DoCancel(id) => Commit(s, Cancel(s.books, id))
    case DoFund(a, amount, reference) => Commit(s, Fund(s.books, a, amount, reference))
    case DoObserve(d, u, a, amount) => Commit(s, ObserveDeposit(s.books, d, u, a, amount))
    case DoConfirm(d, final) => s.(books := ConfirmDeposit(s.books, d, final))
    case DoCredit(d) => Commit(s, CreditConfirmed(s.books, d))
    case DoReorg(ds) => Commit(s, ReorgDeposits(s.books, ds))
    case DoSign(id, hint, fee) =>
      if s.worker.Idle? && id in s.books.withdrawals && s.books.withdrawals[id].status.Approved? then
        var b := Sign(s.books, id, hint, fee).value;
        s.(books := b, worker := Signed(id, b.withdrawals[id].txHash.value))
      else s
    case DoSignFails(id) => if s.worker.Idle? then s.(worker := Failing(id)) else s
    case DoSubmit(delivered, accepted) =>
      if s.worker.Signed? || s.worker.Resigned? then Submit(s, delivered, accepted) else s
    case DoRecord =>
      if !s.worker.Sent? then s
      else
        (match MarkBroadcast(s.books, s.worker.id)
         case Ok(b) => s.(books := b, worker := Idle)
         case Err(_) => if s.worker.recovering then s.(worker := Idle) else s.(worker := Failing(s.worker.id)))
    case DoFailRead =>
      if !s.worker.Failing? then s
      else if s.worker.id !in s.books.withdrawals then s.(worker := Idle)
      else
        var w := s.books.withdrawals[s.worker.id];
        if w.status.Signing? && w.txHash.Some? then s.(worker := Idle) else s.(worker := Releasing(s.worker.id))
    case DoRelease =>
      if s.worker.Releasing? then Commit(s, FailAndRelease(s.books, s.worker.id)).(worker := Idle) else s
    case DoRecover(id, status, fee) =>
      if s.worker.Idle? && id in s.books.withdrawals && s.books.withdrawals[id].status.Signing?
      then Recover(s, id, status, fee) else s
    case DoInFlight(id, status, native, fee) =>
      if s.worker.Idle? && id in s.books.withdrawals && s.books.withdrawals[id].status.InFlight()
      then Watch(s, id, status, native, fee) else s
    case DoCrash => s.(worker := Idle)
    case DoMine(tx, success) =>
      if (tx.chain, tx.nonce) in s.mined then s
      else s.(mined := s.mined[(tx.chain, tx.nonce) := Receipt(tx, success)])
  }

  function Run(s: World, actions: seq<Action>): World {
    if actions == [] then s else Next(Run(s, actions[..|actions| - 1]), actions[|actions| - 1])
  }
}
