/** What each committed transaction of the money system leaves, table by table, in any state it can reach. */
module EffectLaws {
  import opened Prelude
  import opened Ledger
  import opened LedgerLaws
  import opened Books
  import opened BooksLaws
  import opened RefusalLaws

  /** One withdrawal has another status; every other row, counter and deposit is as before. */
  ghost predicate OnlyStatus(b: Books, b': Books, id: WithdrawalId, status: WithdrawalStatus) {
    && id in b.withdrawals
    && b'.withdrawals == b.withdrawals[id := b.withdrawals[id].(status := status)]
    && b'.byKey == b.byKey && b'.nonces == b.nonces && b'.deposits == b.deposits
  }

  /** The reservation went back to the user, and no other balance moved. */
  ghost predicate Returns(l: Ledger, l': Ledger, id: WithdrawalId, w: Withdrawal) {
    Moves(l, l', ReleaseKey(id), User(Reserved, w.user, w.asset), -w.amount, User(Available, w.user, w.asset), w.amount)
  }

  // --------------------------------------------------------------------------- calls ---

  /** Approval succeeds exactly for a validated withdrawal, and then changes its status and nothing else. */
  lemma ApproveAllowedIff(b: Books, id: WithdrawalId)
    ensures Approve(b, id).Ok? <==> id in b.withdrawals && b.withdrawals[id].status.Validated?
    ensures Approve(b, id).Ok? ==>
      OnlyStatus(b, Approve(b, id).value, id, Approved) && Approve(b, id).value.ledger == b.ledger
    ensures id !in b.withdrawals ==> Approve(b, id) == Err(NotFound)
    ensures id in b.withdrawals && Approve(b, id).Err? ==> Approve(b, id) == Err(InvalidStateTransition)
  {}

  /** A cancelled withdrawal's whole reservation is spendable again. */
  lemma CancelReturns(b: Books, id: WithdrawalId)
    requires Inv(b) && Cancel(b, id).Ok?
    ensures var b' := Cancel(b, id).value;
      OnlyStatus(b, b', id, Cancelled) && Returns(b.ledger, b'.ledger, id, b.withdrawals[id])
  {
    CancelAllowedIff(b, id);
    ReleaseReturns(b, id);
  }

  /** So is a failed one's, unless it was sent or over before. */
  lemma FailReturns(b: Books, id: WithdrawalId)
    requires Inv(b) && id in b.withdrawals
    ensures FailAndRelease(b, id).Ok? && Failing(b, id, FailAndRelease(b, id).value)
  {
    RowFact(b, id);
    if b.withdrawals[id].status.Held() && !b.withdrawals[id].status.InFlight() {
      ReleaseReturns(b, id);
    }
    FailOutcome(b, id);
  }

  ghost predicate Failing(b: Books, id: WithdrawalId, b': Books)
    requires id in b.withdrawals
  {
    var w := b.withdrawals[id];
    if w.status.Validated? || w.status.Approved? || w.status.Signing?
    then OnlyStatus(b, b', id, WithdrawalStatus.Failed) && Returns(b.ledger, b'.ledger, id, w)
    else b' == b
  }

  lemma FailOutcome(b: Books, id: WithdrawalId)
    requires id in b.withdrawals && !b.withdrawals[id].status.Requested?
    requires b.withdrawals[id].status.Held() && !b.withdrawals[id].status.InFlight() ==>
      ReleaseIfReserved(b, id).Ok? && Returns(b.ledger, ReleaseIfReserved(b, id).value, id, b.withdrawals[id])
    ensures FailAndRelease(b, id).Ok? && Failing(b, id, FailAndRelease(b, id).value)
  {}

  lemma ReleaseReturns(b: Books, id: WithdrawalId)
    requires Inv(b) && id in b.withdrawals && b.withdrawals[id].status.Held() && !b.withdrawals[id].status.InFlight()
    ensures ReleaseIfReserved(b, id).Ok? && Returns(b.ledger, ReleaseIfReserved(b, id).value, id, b.withdrawals[id])
  {
    RowFact(b, id);
    ReservationIsThere(b, id);
    ReturnLeg(b.ledger, id, b.withdrawals[id]);
  }

  /** The row a request makes. */
  ghost predicate Requested(r: Request, w: Withdrawal, status: WithdrawalStatus) {
    && w.user == r.user && w.chain == r.chain && w.asset == r.asset && w.amount == r.amount
    && w.destination == r.destination && w.idempotencyKey == r.idempotencyKey
    && w.status == status && w.nonce.None? && w.txHash.None?
  }

  /** The new row is in, under its key, and every other row, counter and deposit is as before. */
  ghost predicate OnlyNewRow(b: Books, b': Books, id: WithdrawalId, r: Request) {
    && b'.withdrawals.Keys == b.withdrawals.Keys + {id} && b'.byKey == b.byKey[(r.user, r.idempotencyKey) := id]
    && (forall x :: x in b.withdrawals && x != id ==> b'.withdrawals[x] == b.withdrawals[x])
    && b'.nonces == b.nonces && b'.deposits == b.deposits
  }

  /**
   * What a request under a new key commits: the row as requested, held exactly on manual approval,
   * with the amount moved from spendable to reserved; or, denied, a failed row and no posting.
   */
  lemma CreateReserves(b: Books, id: WithdrawalId, r: Request, decision: Decision)
    requires Inv(b) && id !in b.withdrawals && (r.user, r.idempotencyKey) !in b.byKey && Create(b, id, r, decision).Ok?
    ensures var (b', made) := Create(b, id, r, decision).value;
      && OnlyNewRow(b, b', id, r)
      && match decision
         case Deny =>
           && Requested(r, b'.withdrawals[id], WithdrawalStatus.Failed) && !b'.withdrawals[id].reserved
           && b'.ledger == b.ledger && made == Denied(id)
         case _ =>
           && Requested(r, b'.withdrawals[id], if decision.ManualApproval? then Validated else Approved)
           && b'.withdrawals[id].reserved && made == New(id)
           && Moves(b.ledger, b'.ledger, ReserveKey(id),
                User(Available, r.user, r.asset), -r.amount, User(Reserved, r.user, r.asset), r.amount)
  {
    RowFact(b, id);
    CreateLeaves(b, id, r, decision);
    if !decision.Deny? {
      ReserveTakes(b.ledger, id, r.user, r.asset, r.amount);
    }
  }

  lemma CreateLeaves(b: Books, id: WithdrawalId, r: Request, decision: Decision)
    requires id !in b.withdrawals && (r.user, r.idempotencyKey) !in b.byKey && Create(b, id, r, decision).Ok?
    ensures var (b', made) := Create(b, id, r, decision).value;
      && OnlyNewRow(b, b', id, r) && b'.withdrawals[id].reserved == !decision.Deny?
      && Requested(r, b'.withdrawals[id], match decision
           case Deny => WithdrawalStatus.Failed
           case ManualApproval => Validated
           case Allow => Approved)
      && made == (if decision.Deny? then Denied(id) else New(id))
      && if decision.Deny? then b'.ledger == b.ledger
         else ReserveWithdrawal(b.ledger, id, r.user, r.asset, r.amount) == Ok(b'.ledger)
  {}

  lemma ReserveTakes(l: Ledger, id: WithdrawalId, u: UserId, a: AssetId, amount: int)
    requires ReserveKey(id) !in l.posted && ReserveWithdrawal(l, id, u, a, amount).Ok?
    ensures Moves(l, ReserveWithdrawal(l, id, u, a, amount).value, ReserveKey(id),
              User(Available, u, a), -amount, User(Reserved, u, a), amount)
  {
    PairEffect(l, ReserveKey(id), User(Available, u, a), User(Reserved, u, a), amount);
  }

  // -------------------------------------------------------------------------- refusals ---

  /** The error of each refused call: what a caller retries and what it gives up on depends on it. */
  lemma RefusedWith(b: Books, id: WithdrawalId, r: Request, decision: Decision, d: DepositId)
    requires Inv(b)
    ensures id !in b.withdrawals ==> Cancel(b, id) == Err(NotFound)
    ensures id in b.withdrawals && (b.withdrawals[id].status.Terminal() || b.withdrawals[id].status.InFlight()) ==>
      Cancel(b, id) == Err(Conflict)
    ensures !IsPositive(r.amount) ==> Create(b, id, r, decision) == Err(InvalidAmount)
    ensures IsPositive(r.amount) && !(8 <= |r.idempotencyKey| <= 128) ==> Create(b, id, r, decision) == Err(Validation)
    ensures IsPositive(r.amount) && 8 <= |r.idempotencyKey| <= 128 && id !in b.withdrawals
            && (r.user, r.idempotencyKey) !in b.byKey && !decision.Deny?
            && Balance(b.ledger, User(Available, r.user, r.asset)) < r.amount ==>
      Create(b, id, r, decision) == Err(InsufficientBalance)
    ensures d !in b.deposits ==> CreditConfirmed(b, d) == Err(NotFound)
    ensures d in b.deposits && (b.deposits[d].status.Observed? || b.deposits[d].status.Confirming?) ==>
      CreditConfirmed(b, d) == Err(Conflict)
  {}

  // -------------------------------------------------------------------------- pipeline ---

  /**
   * Signing takes the larger of counter and hint, writes the transaction of this withdrawal under it,
   * and leaves the counter just above; other rows, other chains' counters and the ledger stay.
   */
  lemma SignTakesNonce(b: Books, id: WithdrawalId, hint: nat, fee: nat)
    requires id in b.withdrawals && b.withdrawals[id].status.Approved?
    ensures Sign(b, id, hint, fee).Ok?
    ensures var b', w := Sign(b, id, hint, fee).value, b.withdrawals[id];
      && id in b'.withdrawals && w.chain in b'.nonces
      && var nonce, counter := b'.nonces[w.chain] - 1, if w.chain in b.nonces then b.nonces[w.chain] else 0;
         && nonce >= hint && nonce >= counter && (nonce == hint || nonce == counter)
         && b'.withdrawals == b.withdrawals[id := b'.withdrawals[id]] && b'.nonces == b.nonces[w.chain := nonce + 1]
         && b'.withdrawals[id]
            == w.(status := Signing, nonce := Some(nonce),
                  txHash := Some(Tx(w.chain, nonce, w.destination, w.asset, w.amount, fee)))
         && b'.ledger == b.ledger && b'.byKey == b.byKey && b'.deposits == b.deposits
  {}

  /** Recording a broadcast moves the amount from custody to clearing. */
  lemma BroadcastClears(b: Books, id: WithdrawalId)
    requires Inv(b) && id in b.withdrawals && b.withdrawals[id].status.Signing? && MarkBroadcast(b, id).Ok?
    ensures var b', w := MarkBroadcast(b, id).value, b.withdrawals[id];
      && OnlyStatus(b, b', id, WithdrawalStatus.Broadcast)
      && Moves(b.ledger, b'.ledger, BroadcastKey(id), System(Clearing, w.asset), w.amount, System(Custody, w.asset),
           -w.amount)
  {
    var w := b.withdrawals[id];
    RowFact(b, id);
    BroadcastRow(b.ledger.posted.Keys, id, w);
    ClearingTakes(b.ledger, id, w.asset, w.amount);
  }

  lemma ClearingTakes(l: Ledger, id: WithdrawalId, a: AssetId, amount: int)
    requires BroadcastKey(id) !in l.posted.Keys && RecordBroadcast(l, id, a, amount).Ok?
    ensures Moves(l, RecordBroadcast(l, id, a, amount).value, BroadcastKey(id),
              System(Clearing, a), amount, System(Custody, a), -amount)
  {
    PairEffect(l, BroadcastKey(id), System(Clearing, a), System(Custody, a), amount);
  }

  /** What a network fee does to an account. */
  function FeeAt(native: Option<AssetId>, fee: nat, x: Account): int {
    if native.None? then 0
    else if x == System(NetworkFee, native.value) then fee
    else if x == System(Custody, native.value) then -(fee as int)
    else 0
  }

  /** A settled withdrawal is completed: reserved and clearing fall by the amount, and gas is paid from custody. */
  lemma SettlePays(b: Books, id: WithdrawalId, native: Option<AssetId>, fee: nat)
    requires Inv(b) && id in b.withdrawals && b.withdrawals[id].status.InFlight()
    requires SettleSuccess(b, id, native, fee).Ok?
    ensures var b', w := SettleSuccess(b, id, native, fee).value, b.withdrawals[id];
      && OnlyStatus(b, b', id, Completed)
      && forall x :: Balance(b'.ledger, x) - Balance(b.ledger, x) == FeeAt(native, fee, x)
           - (if x == User(Reserved, w.user, w.asset) || x == System(Clearing, w.asset) then w.amount else 0)
  {
    var w := b.withdrawals[id];
    RowFact(b, id);
    ReservationIsThere(b, id);
    SettleMovesAll(b.ledger, id, w, native, fee);
  }

  lemma SettleMovesAll(l: Ledger, id: WithdrawalId, w: Withdrawal, native: Option<AssetId>, fee: nat)
    requires Sound(l) && RowOk(l.posted.Keys, id, w) && w.status.InFlight()
    requires SettleWithdrawal(l, id, w.user, w.asset, w.amount).Ok?
    requires BookFee(SettleWithdrawal(l, id, w.user, w.asset, w.amount).value, id, native, fee).Ok?
    ensures var l' := BookFee(SettleWithdrawal(l, id, w.user, w.asset, w.amount).value, id, native, fee).value;
      forall x :: Balance(l', x) - Balance(l, x) == FeeAt(native, fee, x)
        - (if x == User(Reserved, w.user, w.asset) || x == System(Clearing, w.asset) then w.amount else 0)
  {
    FreshSettleKeys(l.posted.Keys, id, w);
    PairEffect(l, SettleKey(id), User(Reserved, w.user, w.asset), System(Clearing, w.asset), w.amount);
    var l1 := SettleWithdrawal(l, id, w.user, w.asset, w.amount).value;
    FeeStillFresh(l.posted.Keys, l1.posted.Keys, id);
    FeeMoves(l1, id, native, fee);
  }

  lemma FeeMoves(l: Ledger, id: WithdrawalId, native: Option<AssetId>, fee: nat)
    requires FeeKey(id) !in l.posted.Keys && BookFee(l, id, native, fee).Ok?
    ensures forall x :: Balance(BookFee(l, id, native, fee).value, x) - Balance(l, x) == FeeAt(native, fee, x)
  {
    if native.Some? {
      forall x ensures Balance(BookFee(l, id, native, fee).value, x) - Balance(l, x) == FeeAt(native, fee, x) {
        FeeBooked(l, id, native.value, fee, BookFee(l, id, native, fee).value, x);
      }
    }
  }

  /** A reverted withdrawal is failed: custody and the user have the amount back, and gas is paid from custody. */
  lemma UnwindPays(b: Books, id: WithdrawalId, native: Option<AssetId>, fee: nat)
    requires Inv(b) && id in b.withdrawals && b.withdrawals[id].status.InFlight()
    requires SettleFailure(b, id, native, fee).Ok?
    ensures var b', w := SettleFailure(b, id, native, fee).value, b.withdrawals[id];
      && OnlyStatus(b, b', id, WithdrawalStatus.Failed)
      && forall x :: Balance(b'.ledger, x) - Balance(b.ledger, x) == FeeAt(native, fee, x)
           - (if x == User(Reserved, w.user, w.asset) || x == System(Clearing, w.asset) then w.amount else 0)
           + (if x == User(Available, w.user, w.asset) || x == System(Custody, w.asset) then w.amount else 0)
  {
    var w := b.withdrawals[id];
    RowFact(b, id);
    ReservationIsThere(b, id);
    UnwindMovesAll(b.ledger, id, w, native, fee);
  }

  lemma UnwindMovesAll(l: Ledger, id: WithdrawalId, w: Withdrawal, native: Option<AssetId>, fee: nat)
    requires Sound(l) && RowOk(l.posted.Keys, id, w) && w.status.InFlight()
    requires Balance(l, User(Reserved, w.user, w.asset)) >= w.amount
    requires Unwound(l, id, w).Ok? && BookFee(Unwound(l, id, w).value, id, native, fee).Ok?
    ensures var l' := BookFee(Unwound(l, id, w).value, id, native, fee).value;
      forall x :: Balance(l', x) - Balance(l, x) == FeeAt(native, fee, x)
        - (if x == User(Reserved, w.user, w.asset) || x == System(Clearing, w.asset) then w.amount else 0)
        + (if x == User(Available, w.user, w.asset) || x == System(Custody, w.asset) then w.amount else 0)
  {
    FreshSettleKeys(l.posted.Keys, id, w);
    UnwindLeg(l, id, w);
    var l1 := ReverseBroadcast(l, id, w.asset, w.amount).value;
    StillReserved(l, l1, id, w);
    ReturnLeg(l1, id, w);
    var l2 := ReleaseReservation(l1, id, w.user, w.asset, w.amount).value;
    FeeStillFresh(l.posted.Keys, l2.posted.Keys, id);
    FeeMoves(l2, id, native, fee);
  }

  // -------------------------------------------------------------------------- deposits ---

  /** Crediting a confirmed deposit pays it to its owner once; on any other accepted deposit it does nothing. */
  lemma CreditPays(b: Books, d: DepositId)
    requires Inv(b) && CreditConfirmed(b, d).Ok?
    ensures d in b.deposits
    ensures var b', dep := CreditConfirmed(b, d).value, b.deposits[d];
      if dep.status.Confirmed? then
        && b'.deposits == b.deposits[d := dep.(status := Credited)]
        && b'.withdrawals == b.withdrawals && b'.byKey == b.byKey && b'.nonces == b.nonces
        && Moves(b.ledger, b'.ledger, CreditKey(d),
             System(Custody, dep.asset), dep.amount, User(Available, dep.user, dep.asset), dep.amount)
      else b' == b
  {
    if b.deposits[d].status.Confirmed? {
      DepositFact(b, d);
      CreditAdds(b.ledger, d, b.deposits[d]);
    }
  }

  lemma CreditAdds(l: Ledger, d: DepositId, dep: Deposit)
    requires CreditKey(d) !in l.posted.Keys && CreditDeposit(l, d, dep.user, dep.asset, dep.amount).Ok?
    ensures Moves(l, CreditDeposit(l, d, dep.user, dep.asset, dep.amount).value, CreditKey(d),
              System(Custody, dep.asset), dep.amount, User(Available, dep.user, dep.asset), dep.amount)
  {
    PairEffect(l, CreditKey(d), System(Custody, dep.asset), User(Available, dep.user, dep.asset), dep.amount);
  }

  /** Funding under a new reference is refused only for the amount or for a reference too long for the key column. */
  lemma FundAllowedIff(b: Books, a: AssetId, amount: int, reference: string)
    requires Inv(b)
    ensures Fund(b, a, amount, reference).Ok? <==> 0 < amount <= MAX_AMOUNT && |reference| <= 184
  {
    assert Balance(b.ledger, System(Custody, a)) >= 0;
    PairEffect(b.ledger, FundingKey(reference), System(Custody, a), System(Treasury, a), amount);
  }
}
