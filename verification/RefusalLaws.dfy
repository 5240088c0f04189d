/** Exactly when each operation of the money system is refused, in any state the system can reach. */
module RefusalLaws {
  import opened Prelude
  import opened Ledger
  import opened LedgerLaws
  import opened Books
  import opened BooksLaws

  /** The native asset's custody, with `extra` just returned to it, covers the gas. */
  predicate GasCovered(l: Ledger, native: Option<AssetId>, fee: nat, asset: AssetId, extra: int) {
    || native.None? || fee == 0
    || (fee <= MAX_AMOUNT
          && Balance(l, System(Custody, native.value)) + (if native.value == asset then extra else 0) >= fee)
  }

  /** Gas moves from native custody to network fees, and nothing else moves. */
  lemma FeeBooked(l: Ledger, id: WithdrawalId, native: AssetId, fee: nat, l': Ledger, x: Account)
    requires FeeKey(id) !in l.posted && BookFee(l, id, Some(native), fee) == Ok(l')
    ensures Balance(l', x) - Balance(l, x)
         == if x == System(NetworkFee, native) then fee as int
            else if x == System(Custody, native) then -(fee as int) else 0
  {
    if fee > 0 {
      PairEffect(l, FeeKey(id), System(NetworkFee, native), System(Custody, native), fee);
    }
  }

  /** Funding raises custody and treasury alike, once per reference. */
  lemma FundingBooked(b: Books, a: AssetId, amount: int, reference: string, b': Books, x: Account)
    requires Fund(b, a, amount, reference) == Ok(b')
    ensures Balance(b'.ledger, x) - Balance(b.ledger, x)
         == if FundingKey(reference) !in b.ledger.posted && (x == System(Custody, a) || x == System(Treasury, a))
            then amount else 0
    ensures Fund(b', a, amount, reference) == Ok(b')
  {
    PairEffect(b.ledger, FundingKey(reference), System(Custody, a), System(Treasury, a), amount);
    PairEffect(b'.ledger, FundingKey(reference), System(Custody, a), System(Treasury, a), amount);
  }

  /** Settling a withdrawal in flight is refused only for gas, never for reserved or clearing funds. */
  lemma SettleRefusedOnlyForGas(b: Books, id: WithdrawalId, native: Option<AssetId>, fee: nat)
    requires Inv(b) && id in b.withdrawals && b.withdrawals[id].status.InFlight()
    ensures SettleSuccess(b, id, native, fee).Ok? <==> GasCovered(b.ledger, native, fee, b.withdrawals[id].asset, 0)
  {
    var w := b.withdrawals[id];
    RowFact(b, id);
    ReservationIsThere(b, id);
    GasAfterSettling(b.ledger, id, w, native, fee);
  }

  lemma GasAfterSettling(l: Ledger, id: WithdrawalId, w: Withdrawal, native: Option<AssetId>, fee: nat)
    requires Sound(l) && RowOk(l.posted.Keys, id, w) && w.status.InFlight()
    requires Balance(l, User(Reserved, w.user, w.asset)) >= w.amount
    ensures var r := SettleWithdrawal(l, id, w.user, w.asset, w.amount);
      r.Ok? && (BookFee(r.value, id, native, fee).Ok? <==> GasCovered(l, native, fee, w.asset, 0))
  {
    FreshSettleKeys(l.posted.Keys, id, w);
    SettleLeg(l, id, w);
    var l1 := SettleWithdrawal(l, id, w.user, w.asset, w.amount).value;
    FeeStillFresh(l.posted.Keys, l1.posted.Keys, id);
    FeeEffect(l1, id, native, fee);
  }

  /** Unwinding a reverted withdrawal in flight is refused only for gas. */
  lemma UnwindRefusedOnlyForGas(b: Books, id: WithdrawalId, native: Option<AssetId>, fee: nat)
    requires Inv(b) && id in b.withdrawals && b.withdrawals[id].status.InFlight()
    ensures SettleFailure(b, id, native, fee).Ok? <==>
      GasCovered(b.ledger, native, fee, b.withdrawals[id].asset, b.withdrawals[id].amount)
  {
    RowFact(b, id);
    ReservationIsThere(b, id);
    var l := UnwindThenFee(b.ledger, id, b.withdrawals[id], native, fee);
  }

  /** Recording a broadcast is refused exactly when custody is short of the amount just sent. */
  lemma BroadcastRefusedOnlyForCustody(b: Books, id: WithdrawalId)
    requires Inv(b) && id in b.withdrawals && b.withdrawals[id].status.Signing?
    ensures MarkBroadcast(b, id).Ok? <==>
      Balance(b.ledger, System(Custody, b.withdrawals[id].asset)) >= b.withdrawals[id].amount
  {
    var w := b.withdrawals[id];
    RowFact(b, id);
    BroadcastRow(b.ledger.posted.Keys, id, w);
    CustodyDecides(b.ledger, id, w.asset, w.amount);
  }

  lemma CustodyDecides(l: Ledger, id: WithdrawalId, a: AssetId, amount: int)
    requires BroadcastKey(id) !in l.posted.Keys && IsPositive(amount)
    ensures RecordBroadcast(l, id, a, amount).Ok? <==> Balance(l, System(Custody, a)) >= amount
  {
    PairEffect(l, BroadcastKey(id), System(Clearing, a), System(Custody, a), amount);
  }

  lemma ReleaseNeverRefused(b: Books, id: WithdrawalId)
    requires Inv(b) && id in b.withdrawals && b.withdrawals[id].status.Held() && !b.withdrawals[id].status.InFlight()
    ensures ReleaseIfReserved(b, id).Ok?
  {
    var w := b.withdrawals[id];
    RowFact(b, id);
    ReservationIsThere(b, id);
    ReturnLeg(b.ledger, id, w);
  }

  /** Failing before broadcast is never refused for lack of reserved funds. */
  lemma FailNeverRefused(b: Books, id: WithdrawalId)
    requires Inv(b)
    ensures FailAndRelease(b, id).Ok? <==> id in b.withdrawals
  {
    if id in b.withdrawals {
      RowFact(b, id);
      if b.withdrawals[id].status.Held() && !b.withdrawals[id].status.InFlight() {
        ReleaseNeverRefused(b, id);
      }
    }
  }

  lemma CancelOutcome(b: Books, id: WithdrawalId)
    requires id in b.withdrawals && !b.withdrawals[id].status.Requested?
    requires b.withdrawals[id].status.Held() && !b.withdrawals[id].status.InFlight() ==> ReleaseIfReserved(b, id).Ok?
    ensures Cancel(b, id).Ok? <==> b.withdrawals[id].status.Validated? || b.withdrawals[id].status.Approved?
    ensures b.withdrawals[id].status.Signing? ==> Cancel(b, id) == Err(InvalidStateTransition)
  {}

  /**
   * A cancellation goes through exactly for a validated or approved withdrawal. A signing one gets
   * as far as the release, and the refused transition then rolls that back.
   */
  lemma CancelAllowedIff(b: Books, id: WithdrawalId)
    requires Inv(b)
    ensures Cancel(b, id).Ok? <==>
      id in b.withdrawals && (b.withdrawals[id].status.Validated? || b.withdrawals[id].status.Approved?)
    ensures id in b.withdrawals && b.withdrawals[id].status.Signing? ==> Cancel(b, id) == Err(InvalidStateTransition)
  {
    if id in b.withdrawals {
      RowFact(b, id);
      if b.withdrawals[id].status.Held() && !b.withdrawals[id].status.InFlight() {
        ReleaseNeverRefused(b, id);
      }
      CancelOutcome(b, id);
    }
  }

  /** A reservation is made exactly when the spendable balance covers it. */
  lemma ReserveAllowedIff(l: Ledger, id: WithdrawalId, u: UserId, a: AssetId, amount: int)
    requires Sound(l) && ReserveKey(id) !in l.posted
    ensures ReserveWithdrawal(l, id, u, a, amount).Ok? <==>
      IsPositive(amount) && Balance(l, User(Available, u, a)) >= amount
  {
    assert Balance(l, User(Reserved, u, a)) >= 0;
    PairEffect(l, ReserveKey(id), User(Available, u, a), User(Reserved, u, a), amount);
  }

  /** The outcome of `create` under a key the user has not used. */
  lemma FreshCreateAllowedIff(b: Books, id: WithdrawalId, r: Request, decision: Decision)
    requires Inv(b) && id !in b.withdrawals && (r.user, r.idempotencyKey) !in b.byKey
    ensures Create(b, id, r, decision).Ok? <==>
      && IsPositive(r.amount) && 8 <= |r.idempotencyKey| <= 128
      && (decision.Deny? || Balance(b.ledger, User(Available, r.user, r.asset)) >= r.amount)
  {
    RowFact(b, id);
    ReserveAllowedIff(b.ledger, id, r.user, r.asset, r.amount);
  }

  /** Crediting a confirmed deposit is never refused. */
  lemma CreditAllowedIff(b: Books, d: DepositId)
    requires Inv(b)
    ensures CreditConfirmed(b, d).Ok? <==>
      d in b.deposits && !b.deposits[d].status.Observed? && !b.deposits[d].status.Confirming?
  {
    if d in b.deposits && b.deposits[d].status.Confirmed? {
      var dep := b.deposits[d];
      DepositFact(b, d);
      assert Balance(b.ledger, System(Custody, dep.asset)) >= 0
        && Balance(b.ledger, User(Available, dep.user, dep.asset)) >= 0;
      PairEffect(b.ledger, CreditKey(d), System(Custody, dep.asset), User(Available, dep.user, dep.asset), dep.amount);
    }
  }

  // ------------------------------------------------------------------ whole reorgs ---

  /** What a reorg of `ds` has to take back from custody of an asset; a repeated deposit counts once. */
  ghost function TakenBack(ds: seq<DepositId>, a: AssetId): (DepositId, Deposit) -> int {
    (d: DepositId, dep: Deposit) => if d in ds && dep.asset == a && dep.status.Credited? then dep.amount else 0
  }

  ghost function Owed(b: Books, ds: seq<DepositId>, a: AssetId): int { SumMap(b.deposits, TakenBack(ds, a)) }

  /** The deposits of `ds` are marked, custody fell by what was owed, nothing else about deposits changed. */
  ghost predicate Reorganised(b: Books, ds: seq<DepositId>, b': Books) {
    && b'.deposits.Keys == b.deposits.Keys
    && (forall d :: d in b.deposits ==>
          b'.deposits[d] == if d in ds then b.deposits[d].(status := Reorged) else b.deposits[d])
    && (forall a {:trigger System(Custody, a)} ::
          Balance(b'.ledger, System(Custody, a)) == Balance(b.ledger, System(Custody, a)) - Owed(b, ds, a))
  }

  ghost predicate CustodyCovers(b: Books, ds: seq<DepositId>) {
    forall a {:trigger System(Custody, a)} :: Balance(b.ledger, System(Custody, a)) >= Owed(b, ds, a)
  }

  /** One more deposit in the list owes its own amount once. */
  lemma {:induction false} OwedMore(m: map<DepositId, Deposit>, ds: seq<DepositId>, d: DepositId, a: AssetId)
    ensures SumMap(m, TakenBack(ds + [d], a)) == SumMap(m, TakenBack(ds, a))
      + (if d in m && d !in ds && m[d].asset == a && m[d].status.Credited? then m[d].amount else 0)
    decreases |m|
  {
    if m != map[] {
      var k :| k in m;
      SumMapRemove(m, TakenBack(ds + [d], a), k);
      SumMapRemove(m, TakenBack(ds, a), k);
      OwedMore(m - {k}, ds, d, a);
    }
  }

  lemma OwedNonNegative(b: Books, ds: seq<DepositId>, d: DepositId, a: AssetId)
    requires Inv(b)
    ensures Owed(b, ds + [d], a) >= Owed(b, ds, a)
  {
    OwedMore(b.deposits, ds, d, a);
    DepositFact(b, d);
  }

  /** One deposit of the list, on books from which the earlier ones were taken back. */
  lemma ReorgOne(b: Books, d: DepositId)
    requires Inv(b)
    ensures ReorgDeposit(b, d).Ok? <==>
      (d in b.deposits && b.deposits[d].status.Credited? ==>
        Balance(b.ledger, System(Custody, b.deposits[d].asset)) >= b.deposits[d].amount)
    ensures ReorgDeposit(b, d).Ok? ==>
      var b' := ReorgDeposit(b, d).value;
      && b'.deposits == (if d in b.deposits then b.deposits[d := b.deposits[d].(status := Reorged)] else b.deposits)
      && forall a {:trigger System(Custody, a)} ::
           Balance(b'.ledger, System(Custody, a)) == Balance(b.ledger, System(Custody, a))
           - (if d in b.deposits && b.deposits[d].status.Credited? && b.deposits[d].asset == a
              then b.deposits[d].amount else 0)
  {
    if d in b.deposits && b.deposits[d].status.Credited? {
      var dep := b.deposits[d];
      DepositFact(b, d);
      CustodyTakenBack(b.ledger, d, dep.user, dep.asset, dep.amount);
    }
  }

  lemma CustodyTakenBack(l: Ledger, d: DepositId, u: UserId, a: AssetId, amount: int)
    requires Sound(l) && IsPositive(amount) && ReversalKey(d) !in l.posted.Keys
    ensures var r := ReverseDepositCredit(l, d, u, a, amount);
      && (r.Ok? <==> Balance(l, System(Custody, a)) >= amount)
      && (r.Ok? ==> forall x {:trigger System(Custody, x)} ::
            Balance(r.value, System(Custody, x)) == Balance(l, System(Custody, x)) - if x == a then amount else 0)
  {
    ReversalEffect(l, d, u, a, amount);
  }

  /**
   * A reorg that orphans the deposits `ds` is accepted exactly when custody of every asset covers
   * the credited ones, whatever the users have spent since; and then it marks them all.
   */
  lemma {:induction false} ReorgAllowedIff(b: Books, ds: seq<DepositId>)
    requires Inv(b)
    ensures ReorgDeposits(b, ds).Ok? <==> CustodyCovers(b, ds)
    ensures ReorgDeposits(b, ds).Ok? ==> Reorganised(b, ds, ReorgDeposits(b, ds).value)
  {
    if ds == [] {
      forall a ensures Owed(b, ds, a) == 0 { SumMapZero(b.deposits, TakenBack(ds, a)); }
    } else {
      var front, d := ds[..|ds| - 1], ds[|ds| - 1];
      assert ds == front + [d];
      ReorgAllowedIff(b, front);
      if ReorgDeposits(b, front).Ok? {
        var m := ReorgDeposits(b, front).value;
        ReorgAllKeeps(b, front);
        ReorgOne(m, d);
        OneMore(b, front, d, m, ReorgDeposit(m, d));
      } else {
        var a :| Balance(b.ledger, System(Custody, a)) < Owed(b, front, a);
        OwedNonNegative(b, front, d, a);
      }
    }
  }

  lemma OneMore(b: Books, front: seq<DepositId>, d: DepositId, m: Books, r: Result<Books>)
    requires Inv(b) && Reorganised(b, front, m) && CustodyCovers(b, front)
    requires r.Ok? <==>
      (d in m.deposits && m.deposits[d].status.Credited? ==>
        Balance(m.ledger, System(Custody, m.deposits[d].asset)) >= m.deposits[d].amount)
    requires r.Ok? ==>
      && r.value.deposits == (if d in m.deposits then m.deposits[d := m.deposits[d].(status := Reorged)]
           else m.deposits)
      && forall a {:trigger System(Custody, a)} ::
           Balance(r.value.ledger, System(Custody, a)) == Balance(m.ledger, System(Custody, a))
           - (if d in m.deposits && m.deposits[d].status.Credited? && m.deposits[d].asset == a
              then m.deposits[d].amount else 0)
    ensures r.Ok? <==> CustodyCovers(b, front + [d])
    ensures r.Ok? ==> Reorganised(b, front + [d], r.value)
  {
    forall a ensures Owed(b, front + [d], a) == Owed(b, front, a)
      + (if d in b.deposits && d !in front && b.deposits[d].asset == a && b.deposits[d].status.Credited?
         then b.deposits[d].amount else 0)
    {
      OwedMore(b.deposits, front, d, a);
    }
    if r.Err? {
      var a := m.deposits[d].asset;
      assert Balance(b.ledger, System(Custody, a)) < Owed(b, front + [d], a);
    }
  }
}
