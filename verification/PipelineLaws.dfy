/** Safety over every run of the money system. */
module PipelineLaws {
  import opened Prelude
  import opened Ledger
  import opened LedgerLaws
  import opened Books
  import opened BooksLaws
  import opened Pipeline

  // ----------------------------------------------------------------- the invariant ---

  /** A row's nonce was taken from the counter, and its hash is a transaction for this row. */
  ghost predicate RowNet(nonces: map<ChainId, nat>, mined: map<(ChainId, nat), Receipt>, w: Withdrawal) {
    && (w.nonce.Some? <==> w.txHash.Some?)
    && (w.nonce.Some? ==>
          && w.chain in nonces && w.nonce.value < nonces[w.chain]
          && Pays(w, w.txHash.value))
    && (w.status.Validated? || w.status.Approved? || w.status.Cancelled? ==> w.nonce.None?)
    && (w.status.Signing? || w.status.FundsMayHaveLeft() ==> w.nonce.Some?)
    && (w.status.Completed? ==> MinedAs(mined, w.txHash, true))
  }

  ghost predicate MinedAs(mined: map<(ChainId, nat), Receipt>, tx: Option<Tx>, success: bool) {
    && tx.Some? && (tx.value.chain, tx.value.nonce) in mined
    && mined[(tx.value.chain, tx.value.nonce)] == Receipt(tx.value, success)
  }

  /** A transaction is for a row: its nonce, chain, destination, asset and amount. */
  predicate Pays(w: Withdrawal, tx: Tx) {
    && w.nonce == Some(tx.nonce) && tx.chain == w.chain
    && tx.to == w.destination && tx.asset == w.asset && tx.amount == w.amount
  }

  ghost predicate SentOk(b: Books, mined: map<(ChainId, nat), Receipt>, id: WithdrawalId, tx: Tx) {
    && id in b.withdrawals && Pays(b.withdrawals[id], tx)
    && var w := b.withdrawals[id];
       w.status.Signing? || w.status.FundsMayHaveLeft() || (w.status.Failed? && MinedAs(mined, w.txHash, false))
  }

  ghost predicate WorkerOk(b: Books, worker: Worker) {
    && (worker.Signed? || worker.Resigned? ==>
          worker.id in b.withdrawals && b.withdrawals[worker.id].status.Signing?
            && Pays(b.withdrawals[worker.id], worker.tx))
    && (worker.Releasing? && worker.id in b.withdrawals ==> !b.withdrawals[worker.id].status.Signing?)
  }

  predicate Clash(w1: Withdrawal, w2: Withdrawal) {
    w1.chain == w2.chain && w1.nonce.Some? && w1.nonce == w2.nonce
  }

  ghost predicate RowsNet(b: Books, mined: map<(ChainId, nat), Receipt>) {
    && (forall id :: id in b.withdrawals ==> RowNet(b.nonces, mined, b.withdrawals[id]))
    && (forall i, j :: i in b.withdrawals && j in b.withdrawals && i != j ==>
          !Clash(b.withdrawals[i], b.withdrawals[j]))
  }

  ghost predicate NetOk(s: World) {
    && RowsNet(s.books, s.mined)
    && (forall id, tx :: (id, tx) in s.sent ==> SentOk(s.books, s.mined, id, tx))
    && WorkerOk(s.books, s.worker)
  }

  ghost predicate Safe(s: World) { Inv(s.books) && NetOk(s) }

  // ------------------------------------------------------------- rewriting one row ---

  /** The tables the worker cares about differ at most in row `id`, whose transaction is the same. */
  lemma StatusStep(s: World, b: Books, worker: Worker, id: WithdrawalId, status: WithdrawalStatus)
    requires NetOk(s) && id in s.books.withdrawals
    requires b.withdrawals == s.books.withdrawals[id := s.books.withdrawals[id].(status := status)]
    requires b.nonces == s.books.nonces
    requires RowNet(b.nonces, s.mined, b.withdrawals[id])
    requires forall tx :: (id, tx) in s.sent ==>
      status.Signing? || status.FundsMayHaveLeft()
        || (status.Failed? && MinedAs(s.mined, b.withdrawals[id].txHash, false))
    requires WorkerOk(b, worker)
    ensures NetOk(s.(books := b, worker := worker))
  {
    var s' := s.(books := b, worker := worker);
    forall i, j | i in b.withdrawals && j in b.withdrawals && i != j
      ensures !Clash(b.withdrawals[i], b.withdrawals[j])
    {
      assert !Clash(s.books.withdrawals[i], s.books.withdrawals[j]);
    }
    forall i, tx | (i, tx) in s'.sent ensures SentOk(b, s.mined, i, tx) {
      assert SentOk(s.books, s.mined, i, tx);
    }
  }

  lemma SameWithdrawals(s: World, b: Books)
    requires NetOk(s) && b.withdrawals == s.books.withdrawals && b.nonces == s.books.nonces
    ensures NetOk(s.(books := b))
  {
    var s' := s.(books := b);
    forall i, tx | (i, tx) in s'.sent ensures SentOk(b, s.mined, i, tx) {
      assert SentOk(s.books, s.mined, i, tx);
    }
  }

  /** Nothing was ever sent for a row that has not been signed. */
  lemma UnsignedUnsent(s: World, id: WithdrawalId, tx: Tx)
    requires NetOk(s) && id in s.books.withdrawals && s.books.withdrawals[id].nonce.None?
    ensures (id, tx) !in s.sent
  {
    assert (id, tx) in s.sent ==> SentOk(s.books, s.mined, id, tx);
  }

  // -------------------------------------------------------------------- the books of a step ---

  lemma CallInv(s: World, action: Action)
    requires Inv(s.books)
    requires action.DoCreate? || action.DoApprove? || action.DoCancel? || action.DoFund? || action.DoObserve?
      || action.DoConfirm?
          || action.DoCredit? || action.DoReorg?
    ensures Inv(Next(s, action).books)
  {
    var b := s.books;
    match action
    case DoCreate(id, r, decision) => if Create(b, id, r, decision).Ok? { CreateKeeps(b, id, r, decision); }
    case DoApprove(id) => if Approve(b, id).Ok? { ApproveKeeps(b, id); }
    case DoCancel(id) => if Cancel(b, id).Ok? { CancelKeeps(b, id); }
    case DoFund(a, amount, reference) => if Fund(b, a, amount, reference).Ok? { FundKeeps(b, a, amount, reference); }
    case DoObserve(d, u, a, amount) => if ObserveDeposit(b, d, u, a, amount).Ok? { ObserveKeeps(b, d, u, a, amount); }
    case DoConfirm(d, final) => ConfirmKeeps(b, d, final);
    case DoCredit(d) => if CreditConfirmed(b, d).Ok? { CreditKeeps(b, d); }
    case DoReorg(ds) => if ReorgDeposits(b, ds).Ok? { ReorgAllKeeps(b, ds); }
  }

  lemma WatchInv(s: World, id: WithdrawalId, status: TxStatus, native: Option<AssetId>, fee: nat)
    requires Inv(s.books) && id in s.books.withdrawals && s.books.withdrawals[id].status.InFlight()
    ensures Inv(Watch(s, id, status, native, fee).books)
  {
    var b := Watch(s, id, status, native, fee).books;
    if b != s.books {
      if !status.success {
        SettleFailureKeeps(s.books, id, native, fee);
      } else if status.final {
        SettleSuccessKeeps(s.books, id, native, fee);
      } else {
        NoteConfirmationsKeeps(s.books, id);
      }
    }
  }

  lemma InFlightStep(s: World, id: WithdrawalId, status: TxStatus, native: Option<AssetId>, fee: nat)
    ensures var s' := Next(s, DoInFlight(id, status, native, fee));
      || s' == s
      || (id in s.books.withdrawals && s.books.withdrawals[id].status.InFlight()
          && s' == Watch(s, id, status, native, fee))
  {}

  lemma InFlightInv(s: World, id: WithdrawalId, status: TxStatus, native: Option<AssetId>, fee: nat)
    requires Inv(s.books)
    ensures Inv(Next(s, DoInFlight(id, status, native, fee)).books)
  {
    var s' := Next(s, DoInFlight(id, status, native, fee));
    InFlightStep(s, id, status, native, fee);
    if s' != s {
      WatchInv(s, id, status, native, fee);
    }
  }

  lemma RecordInv(s: World, id: WithdrawalId, b: Books)
    requires Inv(s.books) && (b == s.books || MarkBroadcast(s.books, id) == Ok(b))
    ensures Inv(b)
  {
    if b != s.books { MarkBroadcastKeeps(s.books, id); }
  }

  lemma WorkerInv(s: World, action: Action)
    requires Inv(s.books) && (action.DoSign? || action.DoRecord? || action.DoRelease? || action.DoRecover?)
    ensures Inv(Next(s, action).books)
  {
    var b := s.books;
    match action
    case DoSign(id, hint, fee) => if id in b.withdrawals { SignKeeps(b, id, hint, fee); }
    case DoRecord => if s.worker.Sent? { RecordInv(s, s.worker.id, Next(s, action).books); }
    case DoRelease =>
      if s.worker.Releasing? && FailAndRelease(b, s.worker.id).Ok? { FailAndReleaseKeeps(b, s.worker.id); }
    case DoRecover(id, _, _) => RecordInv(s, id, Next(s, action).books);
  }

  // ------------------------------------------------------ nonces and transactions of a step ---

  /** No row is left as it was first inserted. */
  ghost predicate NoneRequested(b: Books) { forall id :: id in b.withdrawals ==> !b.withdrawals[id].status.Requested? }

  lemma NewRowNet(s: World, b: Books, id: WithdrawalId)
    requires NetOk(s) && id !in s.books.withdrawals && id in b.withdrawals
    requires b.withdrawals == s.books.withdrawals[id := b.withdrawals[id]] && b.nonces == s.books.nonces
    requires var w := b.withdrawals[id];
      w.nonce.None? && w.txHash.None? && (w.status.Validated? || w.status.Approved? || w.status.Failed?)
    ensures NetOk(s.(books := b))
  {
    var s' := s.(books := b);
    forall i, j | i in b.withdrawals && j in b.withdrawals && i != j
      ensures !Clash(b.withdrawals[i], b.withdrawals[j])
    {
      if i != id && j != id {
        assert !Clash(s.books.withdrawals[i], s.books.withdrawals[j]);
      }
    }
    forall i, tx | (i, tx) in s'.sent ensures SentOk(b, s.mined, i, tx) {
      assert SentOk(s.books, s.mined, i, tx);
    }
  }

  lemma CreateNet(s: World, id: WithdrawalId, r: Request, decision: Decision, b: Books, made: Created)
    requires NetOk(s) && Create(s.books, id, r, decision) == Ok((b, made))
    ensures NetOk(s.(books := b))
  {
    if b.withdrawals != s.books.withdrawals {
      NewRowNet(s, b, id);
    }
  }

  lemma ApproveNet(s: World, id: WithdrawalId, b: Books)
    requires NetOk(s) && Approve(s.books, id) == Ok(b)
    ensures NetOk(s.(books := b))
  {
    forall tx { UnsignedUnsent(s, id, tx); }
    StatusStep(s, b, s.worker, id, Approved);
  }

  lemma CancelNet(s: World, id: WithdrawalId, b: Books)
    requires NetOk(s) && Cancel(s.books, id) == Ok(b) && !s.books.withdrawals[id].status.Requested?
    ensures NetOk(s.(books := b))
  {
    assert RowNet(s.books.nonces, s.mined, s.books.withdrawals[id]);
    forall tx { UnsignedUnsent(s, id, tx); }
    StatusStep(s, b, s.worker, id, Cancelled);
  }

  lemma CreditLeavesWithdrawals(b: Books, d: DepositId, b': Books)
    requires CreditConfirmed(b, d) == Ok(b')
    ensures b'.withdrawals == b.withdrawals && b'.nonces == b.nonces
  {}

  lemma {:induction false} ReorgLeavesWithdrawals(b: Books, ds: seq<DepositId>)
    requires ReorgDeposits(b, ds).Ok?
    ensures ReorgDeposits(b, ds).value.withdrawals == b.withdrawals && ReorgDeposits(b, ds).value.nonces == b.nonces
  {
    if ds != [] {
      ReorgLeavesWithdrawals(b, ds[..|ds| - 1]);
    }
  }

  /** The deposit side never touches withdrawals or nonces. */
  lemma DepositActionNet(s: World, action: Action)
    requires NetOk(s)
    requires action.DoFund? || action.DoObserve? || action.DoConfirm? || action.DoCredit? || action.DoReorg?
    ensures NetOk(Next(s, action))
  {
    match action {
      case DoCredit(d) =>
        if CreditConfirmed(s.books, d).Ok? { CreditLeavesWithdrawals(s.books, d, CreditConfirmed(s.books, d).value); }
      case DoReorg(ds) => if ReorgDeposits(s.books, ds).Ok? { ReorgLeavesWithdrawals(s.books, ds); }
      case _ =>
    }
    SameWithdrawals(s, Next(s, action).books);
  }

  lemma CallNet(s: World, action: Action)
    requires NetOk(s) && NoneRequested(s.books) && (action.DoCreate? || action.DoApprove? || action.DoCancel?)
    ensures NetOk(Next(s, action))
  {
    match action
    case DoCreate(id, r, decision) =>
      var made := Create(s.books, id, r, decision);
      if made.Ok? { CreateNet(s, id, r, decision, made.value.0, made.value.1); }
    case DoApprove(id) => if Approve(s.books, id).Ok? { ApproveNet(s, id, Approve(s.books, id).value); }
    case DoCancel(id) => if Cancel(s.books, id).Ok? { CancelNet(s, id, Cancel(s.books, id).value); }
  }

  /** The counter hands out a nonce no row of the chain has. */
  lemma FreshNonce(s: World, chain: ChainId, hint: nat, id: WithdrawalId)
    requires NetOk(s) && id in s.books.withdrawals
    ensures var w := s.books.withdrawals[id];
      w.chain == chain && w.nonce.Some? ==> w.nonce.value < NextNonce(s.books, chain, hint)
  {
    assert RowNet(s.books.nonces, s.mined, s.books.withdrawals[id]);
  }

  lemma SignNet(s: World, b: Books, id: WithdrawalId, hint: nat, fee: nat)
    requires NetOk(s) && id in s.books.withdrawals && s.books.withdrawals[id].status.Approved?
    requires Sign(s.books, id, hint, fee) == Ok(b)
    ensures NetOk(s.(books := b, worker := Signed(id, b.withdrawals[id].txHash.value)))
  {
    var w := s.books.withdrawals[id];
    forall j | j in b.withdrawals && j != id
      ensures RowNet(b.nonces, s.mined, b.withdrawals[j]) && !Clash(b.withdrawals[id], b.withdrawals[j])
    {
      FreshNonce(s, w.chain, hint, j);
      assert RowNet(s.books.nonces, s.mined, s.books.withdrawals[j]);
    }
    forall i, j | i in b.withdrawals && j in b.withdrawals && i != j
      ensures !Clash(b.withdrawals[i], b.withdrawals[j])
    {
      if i != id && j != id {
        assert !Clash(s.books.withdrawals[i], s.books.withdrawals[j]);
      }
    }
    forall i, tx | (i, tx) in s.sent ensures SentOk(b, s.mined, i, tx) {
      assert SentOk(s.books, s.mined, i, tx);
      assert RowNet(s.books.nonces, s.mined, w);
    }
  }

  lemma SubmitNet(s: World, delivered: bool, accepted: bool)
    requires NetOk(s) && (s.worker.Signed? || s.worker.Resigned?)
    ensures NetOk(Submit(s, delivered, accepted))
  {
    var s' := Submit(s, delivered, accepted);
    forall i, tx | (i, tx) in s'.sent ensures SentOk(s.books, s.mined, i, tx) {
      if (i, tx) in s.sent {
        assert SentOk(s.books, s.mined, i, tx);
      }
    }
  }

  lemma BroadcastNet(s: World, id: WithdrawalId, b: Books)
    requires NetOk(s) && MarkBroadcast(s.books, id) == Ok(b)
    ensures NetOk(s.(books := b, worker := Idle))
  {
    if s.books.withdrawals[id].status.Signing? {
      assert RowNet(s.books.nonces, s.mined, s.books.withdrawals[id]);
      StatusStep(s, b, Idle, id, WithdrawalStatus.Broadcast);
    }
  }

  lemma ReleaseNet(s: World, b: Books)
    requires NetOk(s) && NoneRequested(s.books) && s.worker.Releasing? && FailAndRelease(s.books, s.worker.id) == Ok(b)
    ensures NetOk(s.(books := b, worker := Idle))
  {
    var id := s.worker.id;
    var w := s.books.withdrawals[id];
    if !w.status.Terminal() && !w.status.FundsMayHaveLeft() {
      assert RowNet(s.books.nonces, s.mined, w);
      forall tx { UnsignedUnsent(s, id, tx); }
      StatusStep(s, b, Idle, id, WithdrawalStatus.Failed);
    }
  }

  lemma RecoverNet(s: World, id: WithdrawalId, status: TxStatus, fee: nat)
    requires NetOk(s) && s.worker.Idle? && id in s.books.withdrawals && s.books.withdrawals[id].status.Signing?
    ensures NetOk(Recover(s, id, status, fee))
  {
    assert RowNet(s.books.nonces, s.mined, s.books.withdrawals[id]);
    if MarkBroadcast(s.books, id).Ok? {
      BroadcastNet(s, id, MarkBroadcast(s.books, id).value);
    }
  }

  lemma RevertNet(s: World, id: WithdrawalId, native: Option<AssetId>, fee: nat, b: Books)
    requires NetOk(s) && s.worker.Idle? && id in s.books.withdrawals && s.books.withdrawals[id].status.InFlight()
    requires MinedAs(s.mined, s.books.withdrawals[id].txHash, false) && SettleFailure(s.books, id, native, fee) == Ok(b)
    ensures NetOk(s.(books := b))
  {
    assert RowNet(s.books.nonces, s.mined, s.books.withdrawals[id]);
    StatusStep(s, b, Idle, id, WithdrawalStatus.Failed);
  }

  lemma CompleteNet(s: World, id: WithdrawalId, native: Option<AssetId>, fee: nat, b: Books)
    requires NetOk(s) && s.worker.Idle? && id in s.books.withdrawals && s.books.withdrawals[id].status.InFlight()
    requires MinedAs(s.mined, s.books.withdrawals[id].txHash, true) && SettleSuccess(s.books, id, native, fee) == Ok(b)
    ensures NetOk(s.(books := b))
  {
    assert RowNet(s.books.nonces, s.mined, s.books.withdrawals[id]);
    StatusStep(s, b, Idle, id, Completed);
  }

  lemma NoteNet(s: World, id: WithdrawalId)
    requires NetOk(s) && s.worker.Idle? && id in s.books.withdrawals && s.books.withdrawals[id].status.InFlight()
    ensures NetOk(s.(books := NoteConfirmations(s.books, id)))
  {
    if s.books.withdrawals[id].status.Broadcast? {
      assert RowNet(s.books.nonces, s.mined, s.books.withdrawals[id]);
      StatusStep(s, NoteConfirmations(s.books, id), Idle, id, WithdrawalStatus.Confirming);
    }
  }

  lemma WatchNet(s: World, id: WithdrawalId, status: TxStatus, native: Option<AssetId>, fee: nat)
    requires NetOk(s) && s.worker.Idle? && id in s.books.withdrawals && s.books.withdrawals[id].status.InFlight()
    ensures NetOk(Watch(s, id, status, native, fee))
  {
    var tx := s.books.withdrawals[id].txHash;
    if tx.Some? && status.Mined? && Honest(s, tx.value, status) {
      if !status.success {
        var r := SettleFailure(s.books, id, native, fee);
        if r.Ok? { RevertNet(s, id, native, fee, r.value); }
      } else if status.final {
        var r := SettleSuccess(s.books, id, native, fee);
        if r.Ok? { CompleteNet(s, id, native, fee, r.value); }
      } else {
        NoteNet(s, id);
      }
    }
  }

  lemma WorkerNet(s: World, action: Action)
    requires NetOk(s) && NoneRequested(s.books)
    requires action.DoSign? || action.DoSubmit? || action.DoRecord? || action.DoRelease? || action.DoRecover?
      || action.DoInFlight?
    ensures NetOk(Next(s, action))
  {
    match action
    case DoSign(id, hint, fee) =>
      if s.worker.Idle? && id in s.books.withdrawals && s.books.withdrawals[id].status.Approved? {
        SignNet(s, Sign(s.books, id, hint, fee).value, id, hint, fee);
      }
    case DoSubmit(delivered, accepted) =>
      if s.worker.Signed? || s.worker.Resigned? { SubmitNet(s, delivered, accepted); }
    case DoRecord =>
      if s.worker.Sent? && MarkBroadcast(s.books, s.worker.id).Ok? {
        BroadcastNet(s, s.worker.id, MarkBroadcast(s.books, s.worker.id).value);
      }
    case DoRelease =>
      if s.worker.Releasing? && FailAndRelease(s.books, s.worker.id).Ok? {
        ReleaseNet(s, FailAndRelease(s.books, s.worker.id).value);
      }
    case DoRecover(id, status, fee) =>
      if s.worker.Idle? && id in s.books.withdrawals && s.books.withdrawals[id].status.Signing? {
        RecoverNet(s, id, status, fee);
      }
    case DoInFlight(id, status, native, fee) =>
      if s.worker.Idle? && id in s.books.withdrawals && s.books.withdrawals[id].status.InFlight() {
        WatchNet(s, id, status, native, fee);
      }
  }

  lemma MineNet(s: World, tx: Tx, success: bool)
    requires NetOk(s)
    ensures NetOk(Next(s, DoMine(tx, success)))
  {
    var s' := Next(s, DoMine(tx, success));
    forall id | id in s.books.withdrawals ensures RowNet(s.books.nonces, s'.mined, s.books.withdrawals[id]) {
      assert RowNet(s.books.nonces, s.mined, s.books.withdrawals[id]);
    }
    forall i, t | (i, t) in s'.sent ensures SentOk(s'.books, s'.mined, i, t) {
      assert SentOk(s.books, s.mined, i, t);
    }
  }

  // -------------------------------------------------------------------------- every step ---

  lemma NextInv(s: World, action: Action)
    requires Inv(s.books)
    ensures Inv(Next(s, action).books)
  {
    if action.DoInFlight? {
      InFlightInv(s, action.id, action.status, action.native, action.fee);
    } else if action.DoSign? || action.DoRecord? || action.DoRelease? || action.DoRecover? {
      WorkerInv(s, action);
    } else if !action.DoSubmit? && !action.DoMine? && !action.DoSignFails? && !action.DoFailRead? && !action.DoCrash? {
      CallInv(s, action);
    }
  }

  lemma NextNet(s: World, action: Action)
    requires NetOk(s) && NoneRequested(s.books)
    ensures NetOk(Next(s, action))
  {
    match action
    case DoMine(tx, success) => MineNet(s, tx, success);
    case DoSignFails(_) =>
    case DoFailRead =>
    case DoCrash =>
    case DoFund(_, _, _) => DepositActionNet(s, action);
    case DoObserve(_, _, _, _) => DepositActionNet(s, action);
    case DoConfirm(_, _) => DepositActionNet(s, action);
    case DoCredit(_) => DepositActionNet(s, action);
    case DoReorg(_) => DepositActionNet(s, action);
    case DoCreate(_, _, _) => CallNet(s, action);
    case DoApprove(_) => CallNet(s, action);
    case DoCancel(_) => CallNet(s, action);
    case _ => WorkerNet(s, action);
  }

  lemma RowsAreNotRequested(b: Books)
    requires Inv(b)
    ensures NoneRequested(b)
  {
    forall id | id in b.withdrawals ensures !b.withdrawals[id].status.Requested? {
      RowFact(b, id);
    }
  }

  /** Every step of every participant keeps the system safe. */
  lemma NextSafe(s: World, action: Action)
    requires Safe(s)
    ensures Safe(Next(s, action))
  {
    RowsAreNotRequested(s.books);
    NextInv(s, action);
    NextNet(s, action);
  }

  lemma StartSafe()
    ensures Safe(START)
  {
    EmptyBooks();
  }

  lemma {:induction false} AlwaysSafe(actions: seq<Action>)
    ensures Safe(Run(START, actions))
  {
    if actions == [] {
      StartSafe();
    } else {
      AlwaysSafe(actions[..|actions| - 1]);
      NextSafe(Run(START, actions[..|actions| - 1]), actions[|actions| - 1]);
    }
  }
}
