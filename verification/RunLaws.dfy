/** What every run of the money system guarantees, read off the invariant and the shape of a step. */
module RunLaws {
  import opened Prelude
  import opened Ledger
  import opened LedgerLaws
  import opened Books
  import opened BooksLaws
  import opened Pipeline
  import opened PipelineLaws
  import opened RefusalLaws

  // ---------------------------------------------------------- the shape of one step ---

  /** A withdrawal row keeps what it was requested with, moves legally, and keeps its nonce. */
  predicate Evolves(w: Withdrawal, w': Withdrawal) {
    && w'.user == w.user && w'.asset == w.asset && w'.chain == w.chain && w'.destination == w.destination
    && w'.amount == w.amount && w'.idempotencyKey == w.idempotencyKey && w'.reserved == w.reserved
    && w.status.CanBecome(w'.status)
    && (w.nonce.Some? ==> w'.nonce == w.nonce && w'.txHash == w.txHash)
  }

  ghost predicate RowsEvolve(b: Books, b': Books) {
    forall id :: id in b.withdrawals ==> id in b'.withdrawals && Evolves(b.withdrawals[id], b'.withdrawals[id])
  }

  /** The step posted no reversal. */
  ghost predicate NoReversal(l: Ledger, l': Ledger) {
    && l.posted.Keys <= l'.posted.Keys
    && forall k :: k in l'.posted.Keys && k !in l.posted.Keys ==> !k.ReversalKey?
  }

  ghost predicate Steps(b: Books, b': Books) { RowsEvolve(b, b') && NoReversal(b.ledger, b'.ledger) }

  lemma PairKeys(l: Ledger, key: Key, debit: Account, credit: Account, amount: int, l': Ledger)
    requires PostPair(l, key, debit, credit, amount) == Ok(l')
    ensures l.posted.Keys <= l'.posted.Keys <= l.posted.Keys + {key}
  {}

  lemma CreateSteps(b: Books, id: WithdrawalId, r: Request, decision: Decision, b': Books, made: Created)
    requires Create(b, id, r, decision) == Ok((b', made))
    ensures Steps(b, b')
  {
    assert RowsEvolve(b, b');
    if made.New? {
      PairKeys(b.ledger, ReserveKey(id), User(Available, r.user, r.asset), User(Reserved, r.user, r.asset), r.amount,
          b'.ledger);
    }
  }

  lemma ReleaseKeys(b: Books, id: WithdrawalId, l: Ledger)
    requires id in b.withdrawals && ReleaseIfReserved(b, id) == Ok(l)
    ensures NoReversal(b.ledger, l)
  {
    var w := b.withdrawals[id];
    if w.reserved {
      PairKeys(b.ledger, ReleaseKey(id), User(Reserved, w.user, w.asset), User(Available, w.user, w.asset), w.amount,
          l);
    }
  }

  lemma CancelSteps(b: Books, id: WithdrawalId, b': Books)
    requires Cancel(b, id) == Ok(b')
    ensures Steps(b, b')
  {
    ReleaseKeys(b, id, b'.ledger);
  }

  lemma FailAndReleaseSteps(b: Books, id: WithdrawalId, b': Books)
    requires FailAndRelease(b, id) == Ok(b')
    ensures Steps(b, b')
  {
    var w := b.withdrawals[id];
    if !w.status.Terminal() && !w.status.FundsMayHaveLeft() {
      ReleaseKeys(b, id, b'.ledger);
    }
  }

  lemma SignSteps(b: Books, id: WithdrawalId, hint: nat, fee: nat, b': Books)
    requires Sign(b, id, hint, fee) == Ok(b') && (b.withdrawals[id].status.Approved? ==> b.withdrawals[id].nonce.None?)
    ensures Steps(b, b')
  {}

  lemma MarkBroadcastSteps(b: Books, id: WithdrawalId, b': Books)
    requires MarkBroadcast(b, id) == Ok(b')
    ensures Steps(b, b')
  {
    var w := b.withdrawals[id];
    if w.status.Signing? {
      PairKeys(b.ledger, BroadcastKey(id), System(Clearing, w.asset), System(Custody, w.asset), w.amount, b'.ledger);
    }
  }

  lemma FeeKeys(l: Ledger, id: WithdrawalId, native: Option<AssetId>, fee: nat, l': Ledger)
    requires BookFee(l, id, native, fee) == Ok(l')
    ensures NoReversal(l, l')
  {
    if native.Some? && fee != 0 {
      PairKeys(l, FeeKey(id), System(NetworkFee, native.value), System(Custody, native.value), fee, l');
    }
  }

  lemma StatusEvolves(b: Books, b': Books, id: WithdrawalId, status: WithdrawalStatus)
    requires id in b.withdrawals && b.withdrawals[id].status.CanBecome(status)
    requires b'.withdrawals == b.withdrawals[id := b.withdrawals[id].(status := status)]
    ensures RowsEvolve(b, b')
  {}

  lemma SettledKeys(l: Ledger, id: WithdrawalId, w: Withdrawal, l': Ledger)
    requires SettleWithdrawal(l, id, w.user, w.asset, w.amount) == Ok(l')
    ensures NoReversal(l, l')
  {
    PairKeys(l, SettleKey(id), User(Reserved, w.user, w.asset), System(Clearing, w.asset), w.amount, l');
  }

  lemma KeysThen(l: Ledger, l1: Ledger, l2: Ledger)
    requires NoReversal(l, l1) && NoReversal(l1, l2)
    ensures NoReversal(l, l2)
  {}

  lemma SettleSuccessSteps(b: Books, id: WithdrawalId, native: Option<AssetId>, fee: nat, b': Books)
    requires SettleSuccess(b, id, native, fee) == Ok(b')
    ensures Steps(b, b')
  {
    var w := b.withdrawals[id];
    if !w.status.Completed? {
      var l := SettleWithdrawal(b.ledger, id, w.user, w.asset, w.amount).value;
      SettledKeys(b.ledger, id, w, l);
      FeeKeys(l, id, native, fee, b'.ledger);
      KeysThen(b.ledger, l, b'.ledger);
      StatusEvolves(b, b', id, Completed);
    }
  }

  lemma UnwoundKeys(l: Ledger, id: WithdrawalId, w: Withdrawal, l': Ledger)
    requires Unwound(l, id, w) == Ok(l')
    ensures NoReversal(l, l')
  {
    var l1 := ReverseBroadcast(l, id, w.asset, w.amount).value;
    PairKeys(l, BroadcastReversalKey(id), System(Custody, w.asset), System(Clearing, w.asset), w.amount, l1);
    PairKeys(l1, ReleaseKey(id), User(Reserved, w.user, w.asset), User(Available, w.user, w.asset), w.amount, l');
  }

  lemma SettleFailureSteps(b: Books, id: WithdrawalId, native: Option<AssetId>, fee: nat, b': Books)
    requires SettleFailure(b, id, native, fee) == Ok(b')
    ensures Steps(b, b')
  {
    var w := b.withdrawals[id];
    if !w.status.Terminal() {
      var l := Unwound(b.ledger, id, w).value;
      UnwoundKeys(b.ledger, id, w, l);
      FeeKeys(l, id, native, fee, b'.ledger);
      KeysThen(b.ledger, l, b'.ledger);
      StatusEvolves(b, b', id, WithdrawalStatus.Failed);
    }
  }

  lemma CreditSteps(b: Books, d: DepositId, b': Books)
    requires CreditConfirmed(b, d) == Ok(b')
    ensures Steps(b, b')
  {
    var dep := b.deposits[d];
    if dep.status.Confirmed? {
      PairKeys(b.ledger, CreditKey(d), System(Custody, dep.asset), User(Available, dep.user, dep.asset), dep.amount,
          b'.ledger);
    }
  }

  lemma FundSteps(b: Books, a: AssetId, amount: int, reference: string, b': Books)
    requires Fund(b, a, amount, reference) == Ok(b')
    ensures Steps(b, b')
  {
    PairKeys(b.ledger, FundingKey(reference), System(Custody, a), System(Treasury, a), amount, b'.ledger);
  }

  /** A reorg posts reversals only. */
  ghost predicate OnlyReversals(l: Ledger, l': Ledger) {
    && l.posted.Keys <= l'.posted.Keys
    && forall k :: k in l'.posted.Keys && k !in l.posted.Keys ==> k.ReversalKey?
  }

  lemma ReorgOneKeys(b: Books, d: DepositId, b': Books)
    requires ReorgDeposit(b, d) == Ok(b')
    ensures OnlyReversals(b.ledger, b'.ledger)
  {}

  lemma {:induction false} ReorgKeys(b: Books, ds: seq<DepositId>, b': Books)
    requires ReorgDeposits(b, ds) == Ok(b')
    ensures OnlyReversals(b.ledger, b'.ledger)
  {
    if ds != [] {
      var m := ReorgDeposits(b, ds[..|ds| - 1]).value;
      ReorgKeys(b, ds[..|ds| - 1], m);
      ReorgOneKeys(m, ds[|ds| - 1], b');
    }
  }

  ghost predicate StepsOrReverses(b: Books, b': Books) {
    RowsEvolve(b, b') && (NoReversal(b.ledger, b'.ledger) || OnlyReversals(b.ledger, b'.ledger))
  }

  lemma RecoverSteps(s: World, id: WithdrawalId, status: TxStatus, fee: nat)
    requires id in s.books.withdrawals
    ensures Steps(s.books, Recover(s, id, status, fee).books)
  {
    var r := MarkBroadcast(s.books, id);
    if r.Ok? { MarkBroadcastSteps(s.books, id, r.value); }
  }

  lemma WatchSteps(s: World, id: WithdrawalId, status: TxStatus, native: Option<AssetId>, fee: nat)
    requires id in s.books.withdrawals
    ensures Steps(s.books, Watch(s, id, status, native, fee).books)
  {
    var b' := Watch(s, id, status, native, fee).books;
    if b' != s.books {
      if !status.success { SettleFailureSteps(s.books, id, native, fee, b'); }
      else if status.final { SettleSuccessSteps(s.books, id, native, fee, b'); }
    }
  }

  lemma SignNext(s: World, id: WithdrawalId, hint: nat, fee: nat)
    requires RowsNet(s.books, s.mined)
    ensures Steps(s.books, Next(s, DoSign(id, hint, fee)).books)
  {
    if id in s.books.withdrawals {
      assert RowNet(s.books.nonces, s.mined, s.books.withdrawals[id]);
      SignSteps(s.books, id, hint, fee, Sign(s.books, id, hint, fee).value);
    }
  }

  lemma RecordNext(s: World)
    ensures Steps(s.books, Next(s, DoRecord).books)
  {
    var b' := Next(s, DoRecord).books;
    if b' != s.books { MarkBroadcastSteps(s.books, s.worker.id, b'); }
  }

  lemma ReleaseNext(s: World)
    ensures Steps(s.books, Next(s, DoRelease).books)
  {
    var b' := Next(s, DoRelease).books;
    if b' != s.books { FailAndReleaseSteps(s.books, s.worker.id, b'); }
  }

  lemma WorkerSteps(s: World, action: Action)
    requires RowsNet(s.books, s.mined)
    requires action.DoSign? || action.DoRecord? || action.DoRelease? || action.DoRecover? || action.DoInFlight?
    ensures Steps(s.books, Next(s, action).books)
  {
    match action
    case DoSign(id, hint, fee) => SignNext(s, id, hint, fee);
    case DoRecord => RecordNext(s);
    case DoRelease => ReleaseNext(s);
    case DoRecover(id, status, fee) => if id in s.books.withdrawals { RecoverSteps(s, id, status, fee); }
    case DoInFlight(id, status, native, fee) => if id in s.books.withdrawals { WatchSteps(s, id, status, native, fee); }
  }

  lemma CallSteps(s: World, action: Action)
    requires action.DoCreate? || action.DoCancel? || action.DoFund? || action.DoCredit?
    ensures Steps(s.books, Next(s, action).books)
  {
    match action
    case DoCreate(id, r, decision) =>
      var made := Create(s.books, id, r, decision);
      if made.Ok? { CreateSteps(s.books, id, r, decision, made.value.0, made.value.1); }
    case DoCancel(id) => if Cancel(s.books, id).Ok? { CancelSteps(s.books, id, Cancel(s.books, id).value); }
    case DoFund(a, amount, reference) =>
      if Fund(s.books, a, amount, reference).Ok? {
        FundSteps(s.books, a, amount, reference, Fund(s.books, a, amount, reference).value);
      }
    case DoCredit(d) =>
      if CreditConfirmed(s.books, d).Ok? { CreditSteps(s.books, d, CreditConfirmed(s.books, d).value); }
  }

  /** Every step: rows evolve legally and keep their nonce, keys are only added. */
  lemma NextSteps(s: World, action: Action)
    requires RowsNet(s.books, s.mined)
    ensures StepsOrReverses(s.books, Next(s, action).books)
  {
    if action.DoSign? || action.DoRecord? || action.DoRelease? || action.DoRecover? || action.DoInFlight? {
      WorkerSteps(s, action);
    } else if action.DoCreate? || action.DoCancel? || action.DoFund? || action.DoCredit? {
      CallSteps(s, action);
    } else if action.DoReorg? {
      var r := ReorgDeposits(s.books, action.deposits);
      if r.Ok? {
        ReorgLeavesWithdrawals(s.books, action.deposits);
        ReorgKeys(s.books, action.deposits, r.value);
      }
    }
  }

  // -------------------------------------------------------------- whole runs: ledger ---

  ghost function At(actions: seq<Action>): World { Run(START, actions) }

  /** Per-user conservation in every reachable state. */
  lemma PerUserConservation(actions: seq<Action>, u: UserId, a: AssetId)
    ensures var b := At(actions).books;
      Balance(b.ledger, User(Available, u, a))
        + Balance(b.ledger, User(Reserved, u, a)) - Balance(b.ledger, User(Deficit, u, a))
      == SumMap(b.deposits, CreditedTo(u, a)) - SumMap(b.withdrawals, PaidTo(u, a))
  {
    AlwaysSafe(actions);
    assert Equity(At(actions).books.ledger, u, a)
      == SumMap(At(actions).books.deposits, CreditedTo(u, a)) - SumMap(At(actions).books.withdrawals, PaidTo(u, a));
  }

  /** Reserved and clearing are exact, and clearing never goes negative although the schema allows it. */
  lemma ReservedAndClearingExact(actions: seq<Action>, u: UserId, a: AssetId)
    ensures var b := At(actions).books;
      && Balance(b.ledger, User(Reserved, u, a)) == SumMap(b.withdrawals, HeldFor(u, a))
      && Balance(b.ledger, System(Clearing, a)) == SumMap(b.withdrawals, InClearing(a)) >= 0
  {
    AlwaysSafe(actions);
    ClearingNeverNegative(At(actions).books, a);
    var held, clearing := HeldFor(u, a), InClearing(a);
  }

  /** The accounting identity, the surplus, and the three integrity checks, in every reachable state. */
  lemma LedgerAlwaysSound(actions: seq<Action>, a: AssetId)
    ensures var l := At(actions).books.ledger;
      && Sound(l)
      && Balance(l, System(Custody, a)) + Balance(l, System(Clearing, a))
           + Balance(l, System(NetworkFee, a)) + SumMap(l.balances, OfKind(Deficit, a))
         == SumMap(l.balances, OfKind(Available, a)) + SumMap(l.balances, OfKind(Reserved, a))
           + Balance(l, System(Treasury, a))
      && Surplus(l, a) == Balance(l, System(Treasury, a)) - Balance(l, System(NetworkFee, a))
  {
    AlwaysSafe(actions);
    SurplusIsTreasuryLessFees(At(actions).books.ledger, a);
  }

  // ------------------------------------------------------------ whole runs: deposits ---

  predicate IsCredited(s: World, d: DepositId) { d in s.books.deposits && s.books.deposits[d].status.Credited? }

  /** How many steps of the run credited the deposit. */
  ghost function Credits(actions: seq<Action>, d: DepositId): nat {
    if actions == [] then 0
    else
      var earlier := actions[..|actions| - 1];
      Credits(earlier, d) + if !IsCredited(At(earlier), d) && IsCredited(At(actions), d) then 1 else 0
  }

  /** How many steps of the run took a credit back. */
  ghost function Reversals(actions: seq<Action>, d: DepositId): nat {
    if actions == [] then 0
    else
      var earlier := actions[..|actions| - 1];
      Reversals(earlier, d) + if IsCredited(At(earlier), d) && !IsCredited(At(actions), d) then 1 else 0
  }

  predicate Posted(s: World, key: Key) { key in s.books.ledger.posted.Keys }

  /** One step adds at most one of a deposit's two keys, and then the credit flips accordingly. */
  lemma CreditFlips(s: World, action: Action, d: DepositId)
    requires Safe(s) && Safe(Next(s, action))
    ensures var s' := Next(s, action);
      && (Posted(s, CreditKey(d)) ==> Posted(s', CreditKey(d)))
      && (Posted(s, ReversalKey(d)) ==> Posted(s', ReversalKey(d)))
      && (!Posted(s, CreditKey(d)) && Posted(s', CreditKey(d)) <==> !IsCredited(s, d) && IsCredited(s', d))
      && (!Posted(s, ReversalKey(d)) && Posted(s', ReversalKey(d)) <==> IsCredited(s, d) && !IsCredited(s', d))
  {
    var s' := Next(s, action);
    NextSteps(s, action);
    DepositFact(s.books, d);
    DepositFact(s'.books, d);
    OneKeyAtATime(s.books.ledger, s'.books.ledger, d);
  }

  lemma OneKeyAtATime(l: Ledger, l': Ledger, d: DepositId)
    requires NoReversal(l, l') || OnlyReversals(l, l')
    ensures CreditKey(d) in l.posted.Keys ==> CreditKey(d) in l'.posted.Keys
    ensures ReversalKey(d) in l.posted.Keys ==> ReversalKey(d) in l'.posted.Keys
    ensures ReversalKey(d) in l'.posted.Keys && ReversalKey(d) !in l.posted.Keys ==>
      (CreditKey(d) in l'.posted.Keys ==> CreditKey(d) in l.posted.Keys)
  {}

  /** A deposit is credited at most once, reversed at most once, and reversed only after a credit. */
  lemma {:induction false} CreditedAndReversedAtMostOnce(actions: seq<Action>, d: DepositId)
    ensures Reversals(actions, d) <= Credits(actions, d) <= 1
    ensures Credits(actions, d) == if Posted(At(actions), CreditKey(d)) then 1 else 0
    ensures Reversals(actions, d) == if Posted(At(actions), ReversalKey(d)) then 1 else 0
    ensures Credits(actions, d) - Reversals(actions, d) == if IsCredited(At(actions), d) then 1 else 0
  {
    AlwaysSafe(actions);
    DepositFact(At(actions).books, d);
    if actions != [] {
      var earlier := actions[..|actions| - 1];
      CreditedAndReversedAtMostOnce(earlier, d);
      AlwaysSafe(earlier);
      CreditFlips(At(earlier), actions[|actions| - 1], d);
    }
  }

  // --------------------------------------------------------- whole runs: withdrawals ---

  lemma {:induction false} RunSplit(s: World, actions: seq<Action>, more: seq<Action>)
    ensures Run(s, actions + more) == Run(Run(s, actions), more)
  {
    if more == [] {
      assert actions + more == actions;
    } else {
      var all := actions + more;
      assert all[..|all| - 1] == actions + more[..|more| - 1];
      RunSplit(s, actions, more[..|more| - 1]);
    }
  }

  /** What was requested never changes; a nonce and hash once recorded never change; a final status is final. */
  predicate Outlives(w: Withdrawal, w': Withdrawal) {
    && w'.user == w.user && w'.asset == w.asset && w'.chain == w.chain && w'.destination == w.destination
    && w'.amount == w.amount && w'.idempotencyKey == w.idempotencyKey
    && (w.nonce.Some? ==> w'.nonce == w.nonce && w'.txHash == w.txHash)
    && (w.status.Terminal() ==> w'.status == w.status)
    && (w.status.FundsMayHaveLeft() ==> w'.status.FundsMayHaveLeft() || w'.status.Failed?)
  }

  lemma StepEvolves(s: World, action: Action, id: WithdrawalId)
    requires RowsNet(s.books, s.mined) && id in s.books.withdrawals
    ensures id in Next(s, action).books.withdrawals
    ensures Evolves(s.books.withdrawals[id], Next(s, action).books.withdrawals[id])
  {
    NextSteps(s, action);
  }

  lemma OutliveStep(w: Withdrawal, w1: Withdrawal, w2: Withdrawal)
    requires Outlives(w, w1) && Evolves(w1, w2)
    ensures Outlives(w, w2)
  {}

  lemma {:induction false} SafeFrom(s: World, more: seq<Action>)
    requires Safe(s)
    ensures Safe(Run(s, more))
  {
    if more != [] {
      SafeFrom(s, more[..|more| - 1]);
      NextSafe(Run(s, more[..|more| - 1]), more[|more| - 1]);
    }
  }

  lemma {:induction false} OutliveFrom(s: World, more: seq<Action>, id: WithdrawalId)
    requires Safe(s) && id in s.books.withdrawals
    ensures id in Run(s, more).books.withdrawals
    ensures Outlives(s.books.withdrawals[id], Run(s, more).books.withdrawals[id])
  {
    if more != [] {
      var m, last := Run(s, more[..|more| - 1]), more[|more| - 1];
      OutliveFrom(s, more[..|more| - 1], id);
      SafeFrom(s, more[..|more| - 1]);
      StepEvolves(m, last, id);
      OutliveStep(s.books.withdrawals[id], m.books.withdrawals[id], Next(m, last).books.withdrawals[id]);
    }
  }

  lemma RowsOutlive(actions: seq<Action>, more: seq<Action>, id: WithdrawalId)
    requires id in At(actions).books.withdrawals
    ensures id in At(actions + more).books.withdrawals
    ensures Outlives(At(actions).books.withdrawals[id], At(actions + more).books.withdrawals[id])
  {
    AlwaysSafe(actions);
    RunSplit(START, actions, more);
    OutliveFrom(At(actions), more, id);
  }

  /**
   * Every transaction ever broadcast for a withdrawal pays exactly that withdrawal, under the one
   * nonce its row holds, now and in every continuation of the run.
   */
  lemma OneNonce(actions: seq<Action>, more: seq<Action>, id: WithdrawalId, tx: Tx)
    requires (id, tx) in At(actions).sent
    ensures id in At(actions).books.withdrawals && id in At(actions + more).books.withdrawals
    ensures Pays(At(actions).books.withdrawals[id], tx) && Pays(At(actions + more).books.withdrawals[id], tx)
  {
    AlwaysSafe(actions);
    assert SentOk(At(actions).books, At(actions).mined, id, tx);
    RowsOutlive(actions, more, id);
  }

  /**
   * From the request to the wire: whatever is ever sent for a withdrawal pays the destination its
   * request named, on that chain, in that asset, by that amount.
   */
  lemma SentPaysTheRequest(
    actions: seq<Action>, id: WithdrawalId, r: Request, decision: Decision, more: seq<Action>, tx: Tx)
    requires Create(At(actions).books, id, r, decision).Ok?
    requires !Create(At(actions).books, id, r, decision).value.1.Existing?
    requires (id, tx) in At(actions + [DoCreate(id, r, decision)] + more).sent
    ensures tx.chain == r.chain && tx.to == r.destination && tx.asset == r.asset && tx.amount == r.amount
  {
    var made := actions + [DoCreate(id, r, decision)];
    assert made[..|made| - 1] == actions && made[|made| - 1] == DoCreate(id, r, decision);
    RowWasMade(At(actions), id, r, decision);
    RowsOutlive(made, more, id);
    OneNonce(made + more, [], id, tx);
  }

  predicate MinedIn(s: World, tx: Tx) { (tx.chain, tx.nonce) in s.mined && s.mined[(tx.chain, tx.nonce)].tx == tx }

  predicate PaidOut(s: World, tx: Tx) { MinedIn(s, tx) && s.mined[(tx.chain, tx.nonce)].success }

  /** Two withdrawals never share a nonce, and one withdrawal never has two mined transactions. */
  lemma NoDoublePayment(actions: seq<Action>, i: WithdrawalId, x: Tx, j: WithdrawalId, y: Tx)
    requires (i, x) in At(actions).sent && (j, y) in At(actions).sent
    ensures i != j ==> (x.chain, x.nonce) != (y.chain, y.nonce)
    ensures i == j ==> (x.chain, x.nonce) == (y.chain, y.nonce)
    ensures i == j && MinedIn(At(actions), x) && MinedIn(At(actions), y) ==> x == y
  {
    AlwaysSafe(actions);
    var s := At(actions);
    assert SentOk(s.books, s.mined, i, x) && SentOk(s.books, s.mined, j, y);
    if i != j {
      assert !Clash(s.books.withdrawals[i], s.books.withdrawals[j]);
    }
  }

  /** Safe release: once a reservation went back, nothing sent for it ever pays out, however the run goes on. */
  lemma ReleasedNeverPaid(actions: seq<Action>, more: seq<Action>, id: WithdrawalId, tx: Tx)
    requires id in At(actions).books.withdrawals
    requires At(actions).books.withdrawals[id].status.Failed? || At(actions).books.withdrawals[id].status.Cancelled?
    ensures (id, tx) in At(actions + more).sent ==>
      && id in At(actions + more).books.withdrawals
      && MinedAs(At(actions + more).mined, At(actions + more).books.withdrawals[id].txHash, false)
      && !PaidOut(At(actions + more), tx)
  {
    RowsOutlive(actions, more, id);
    AlwaysSafe(actions + more);
    var s := At(actions + more);
    assert (id, tx) in s.sent ==> SentOk(s.books, s.mined, id, tx);
  }

  /** The reservation was returned exactly when the withdrawal had one and ended unpaid. */
  lemma ReturnedIffUnpaid(actions: seq<Action>, id: WithdrawalId)
    requires id in At(actions).books.withdrawals
    ensures var s := At(actions); var w := s.books.withdrawals[id];
      && (Posted(s, ReleaseKey(id)) <==> w.reserved && (w.status.Failed? || w.status.Cancelled?))
      && (Posted(s, SettleKey(id)) <==> w.status.Completed?)
      && (w.status.Completed? ==> MinedAs(s.mined, w.txHash, true))
      && (w.status.Signing? ==> w.nonce.Some? && w.txHash.Some?)
  {
    AlwaysSafe(actions);
    RowFact(At(actions).books, id);
    assert RowNet(At(actions).books.nonces, At(actions).mined, At(actions).books.withdrawals[id]);
  }

  // ------------------------------------------------------------- repeating a request ---

  /**
   * After a request made or refused a withdrawal, any later request of that user under the same
   * key answers with that withdrawal and changes nothing, or is a conflict if its body differs.
   */
  lemma CreateIsIdempotent(
    actions: seq<Action>, id: WithdrawalId, r: Request, decision: Decision, more: seq<Action>,
    id': WithdrawalId, r': Request, decision': Decision)
    requires Create(At(actions).books, id, r, decision).Ok?
    requires !Create(At(actions).books, id, r, decision).value.1.Existing?
    requires r'.user == r.user && r'.idempotencyKey == r.idempotencyKey && IsPositive(r'.amount)
    ensures var b := At(actions + [DoCreate(id, r, decision)] + more).books;
      Create(b, id', r', decision') == if r' == r then Ok((b, Existing(id))) else Err(IdempotencyKeyConflict)
  {
    var made := actions + [DoCreate(id, r, decision)];
    assert made[..|made| - 1] == actions && made[|made| - 1] == DoCreate(id, r, decision);
    RowWasMade(At(actions), id, r, decision);
    RowsOutlive(made, more, id);
    AlwaysSafe(made + more);
    Repeated(At(made + more).books, id, id', r, r', decision');
  }

  lemma RowWasMade(s: World, id: WithdrawalId, r: Request, decision: Decision)
    requires Create(s.books, id, r, decision).Ok? && !Create(s.books, id, r, decision).value.1.Existing?
    ensures var b := Next(s, DoCreate(id, r, decision)).books;
      && 8 <= |r.idempotencyKey| <= 128
      && id in b.withdrawals && SameBody(b.withdrawals[id], r) && b.withdrawals[id].idempotencyKey == r.idempotencyKey
      && b.withdrawals[id].chain == r.chain && b.withdrawals[id].destination == r.destination
      && b.withdrawals[id].asset == r.asset && b.withdrawals[id].amount == r.amount
  {}

  lemma Repeated(b: Books, id: WithdrawalId, id': WithdrawalId, r: Request, r': Request, decision': Decision)
    requires Indexed(b) && id in b.withdrawals && SameBody(b.withdrawals[id], r)
    requires b.withdrawals[id].idempotencyKey == r.idempotencyKey && 8 <= |r.idempotencyKey| <= 128
    requires r'.user == r.user && r'.idempotencyKey == r.idempotencyKey && IsPositive(r'.amount)
    ensures Create(b, id', r', decision') == if r' == r then Ok((b, Existing(id))) else Err(IdempotencyKeyConflict)
  {
    assert Owner(b.withdrawals[id]) == (r'.user, r'.idempotencyKey);
  }

  // ---------------------------------------------------- re-signing with another fee ---

  /** Recovery signs again under the recorded nonce; the hash is the recorded one iff the fee is. */
  lemma ResignedTransaction(s: World, id: WithdrawalId, fee: nat)
    requires Safe(s) && id in s.books.withdrawals && s.books.withdrawals[id].status.Signing?
    ensures var w, s' := s.books.withdrawals[id], Recover(s, id, Unknown, fee);
      && w.txHash.Some?
      && s'.worker == Resigned(id, w.txHash.value.(fee := fee))
      && (s'.worker.tx == w.txHash.value <==> fee == w.txHash.value.fee)
  {
    assert RowNet(s.books.nonces, s.mined, s.books.withdrawals[id]);
  }

  /** Another transaction than the recorded one took the withdrawal's nonce. */
  predicate Displaced(s: World, id: WithdrawalId) {
    && id in s.books.withdrawals && s.books.withdrawals[id].status.InFlight()
    && var tx := s.books.withdrawals[id].txHash;
       tx.Some? && (tx.value.chain, tx.value.nonce) in s.mined
         && s.mined[(tx.value.chain, tx.value.nonce)].tx != tx.value
  }

  lemma CreateSparesFlight(b: Books, i: WithdrawalId, r: Request, decision: Decision, id: WithdrawalId)
    requires id in b.withdrawals
    ensures var made := Create(b, i, r, decision);
      made.Ok? ==> id in made.value.0.withdrawals && made.value.0.withdrawals[id] == b.withdrawals[id]
  {}

  lemma CallSparesFlight(s: World, action: Action, id: WithdrawalId)
    requires id in s.books.withdrawals && s.books.withdrawals[id].status.InFlight()
    requires !action.DoSign? && !action.DoRelease? && !action.DoRecord? && !action.DoRecover? && !action.DoInFlight?
    ensures var b := Next(s, action).books; id in b.withdrawals && b.withdrawals[id] == s.books.withdrawals[id]
  {
    match action
    case DoCreate(i, r, decision) => CreateSparesFlight(s.books, i, r, decision, id);
    case DoCancel(i) => CancelSparesFlight(s.books, i, id);
    case DoReorg(ds) => if ReorgDeposits(s.books, ds).Ok? { ReorgLeavesWithdrawals(s.books, ds); }
    case DoCredit(d) =>
      if CreditConfirmed(s.books, d).Ok? { CreditLeavesWithdrawals(s.books, d, CreditConfirmed(s.books, d).value); }
    case _ =>
  }

  lemma StaysInFlight(s: World, action: Action, id: WithdrawalId)
    requires Displaced(s, id)
    ensures var b := Next(s, action).books; id in b.withdrawals && b.withdrawals[id] == s.books.withdrawals[id]
  {
    match action
    case DoInFlight(i, status, native, fee) =>
      if i == id {
        assert !Honest(s, s.books.withdrawals[id].txHash.value, status) || !status.Mined?;
      } else {
        OtherRowSettled(s, i, status, native, fee, id);
      }
    case DoRelease => ReleaseSparesFlight(s, id);
    case DoRecord => RecordSparesFlight(s, id);
    case DoRecover(i, status, fee) => RecoverSparesFlight(s, i, status, fee, id);
    case DoSign(i, hint, fee) =>
    case _ => CallSparesFlight(s, action, id);
  }

  lemma OtherRowSettled(
      s: World, i: WithdrawalId, status: TxStatus, native: Option<AssetId>, fee: nat, id: WithdrawalId)
    requires i != id && id in s.books.withdrawals
    ensures var b := Next(s, DoInFlight(i, status, native, fee)).books;
      id in b.withdrawals && b.withdrawals[id] == s.books.withdrawals[id]
  {}

  lemma ReleaseSparesFlight(s: World, id: WithdrawalId)
    requires id in s.books.withdrawals && s.books.withdrawals[id].status.InFlight()
    ensures var b := Next(s, DoRelease).books; id in b.withdrawals && b.withdrawals[id] == s.books.withdrawals[id]
  {}

  lemma CancelSparesFlight(b: Books, i: WithdrawalId, id: WithdrawalId)
    requires id in b.withdrawals && b.withdrawals[id].status.InFlight()
    ensures Cancel(b, i).Ok? ==>
      id in Cancel(b, i).value.withdrawals && Cancel(b, i).value.withdrawals[id] == b.withdrawals[id]
  {}

  lemma RecordSparesFlight(s: World, id: WithdrawalId)
    requires id in s.books.withdrawals && s.books.withdrawals[id].status.InFlight()
    ensures var b := Next(s, DoRecord).books; id in b.withdrawals && b.withdrawals[id] == s.books.withdrawals[id]
  {}

  lemma RecoverSparesFlight(s: World, i: WithdrawalId, status: TxStatus, fee: nat, id: WithdrawalId)
    requires id in s.books.withdrawals && s.books.withdrawals[id].status.InFlight()
    ensures var b := Next(s, DoRecover(i, status, fee)).books;
      id in b.withdrawals && b.withdrawals[id] == s.books.withdrawals[id]
  {}

  lemma MinedForever(s: World, action: Action, slot: (ChainId, nat))
    requires slot in s.mined
    ensures slot in Next(s, action).mined && Next(s, action).mined[slot] == s.mined[slot]
  {}

  /**
   * A withdrawal in flight whose nonce was taken by a transaction other than the recorded one is
   * never settled and never returned, however long the system runs.
   */
  lemma {:induction false} DisplacedNeverSettles(s: World, more: seq<Action>, id: WithdrawalId)
    requires Displaced(s, id)
    ensures Displaced(Run(s, more), id)
  {
    if more != [] {
      var m := Run(s, more[..|more| - 1]);
      DisplacedNeverSettles(s, more[..|more| - 1], id);
      var tx := m.books.withdrawals[id].txHash.value;
      StaysInFlight(m, more[|more| - 1], id);
      MinedForever(m, more[|more| - 1], (tx.chain, tx.nonce));
    }
  }

  /**
   * What a look at a withdrawal in flight does, for every answer of an honest node: it ends the
   * withdrawal exactly when the recorded transaction reverted, or is final, and custody of the
   * native asset covers the gas.
   */
  lemma EndsIffRecordedTransactionDid(s: World, id: WithdrawalId, status: TxStatus, native: Option<AssetId>, fee: nat)
    requires Safe(s) && s.worker.Idle? && id in s.books.withdrawals && s.books.withdrawals[id].status.InFlight()
    ensures var w, b := s.books.withdrawals[id], Watch(s, id, status, native, fee).books;
      && id in b.withdrawals && w.txHash.Some?
      && (b.withdrawals[id].status.Completed? <==>
            status == Mined(true, true) && MinedAs(s.mined, w.txHash, true)
              && GasCovered(s.books.ledger, native, fee, w.asset, 0))
      && (b.withdrawals[id].status.Failed? <==>
            status.Mined? && !status.success && MinedAs(s.mined, w.txHash, false)
              && GasCovered(s.books.ledger, native, fee, w.asset, w.amount))
  {
    SettleRefusedOnlyForGas(s.books, id, native, fee);
    UnwindRefusedOnlyForGas(s.books, id, native, fee);
    RowFact(s.books, id);
    WatchOutcome(s, id, status, native, fee);
  }

  lemma WatchOutcome(s: World, id: WithdrawalId, status: TxStatus, native: Option<AssetId>, fee: nat)
    requires id in s.books.withdrawals && s.books.withdrawals[id].status.InFlight()
    requires s.books.withdrawals[id].txHash.Some?
    ensures var w, b := s.books.withdrawals[id], Watch(s, id, status, native, fee).books;
      && id in b.withdrawals
      && (b.withdrawals[id].status.Completed? <==>
            status == Mined(true, true) && MinedAs(s.mined, w.txHash, true)
              && SettleSuccess(s.books, id, native, fee).Ok?)
      && (b.withdrawals[id].status.Failed? <==>
            status.Mined? && !status.success && MinedAs(s.mined, w.txHash, false)
              && SettleFailure(s.books, id, native, fee).Ok?)
  {
    assert Honest(s, s.books.withdrawals[id].txHash.value, status) && status.Mined? <==>
      status.Mined? && MinedAs(s.mined, s.books.withdrawals[id].txHash, status.success);
  }

  /**
   * How that comes about: the first broadcast does not get out, recovery signs again while the fee
   * has changed, and the second transaction is mined. The transfer is paid once, under the one
   * nonce, and the withdrawal stays in flight.
   */
  lemma RepricingDisplaces(s: World, fee: nat)
    requires Safe(s) && s.worker.Signed? && s.books.withdrawals[s.worker.id].txHash == Some(s.worker.tx)
    requires fee != s.worker.tx.fee && (s.worker.tx.chain, s.worker.tx.nonce) !in s.mined
    requires var w := s.books.withdrawals[s.worker.id]; Balance(s.books.ledger, System(Custody, w.asset)) >= w.amount
    ensures exists actions ::
      var id, tx, t := s.worker.id, s.worker.tx.(fee := fee), Run(s, actions);
      (id, tx) in t.sent && PaidOut(t, tx) && Displaced(t, id)
  {
    var id, tx := s.worker.id, s.worker.tx.(fee := fee);
    BroadcastRefusedOnlyForCustody(s.books, id);
    var resent := LostThenResent(s, fee);
    var mined := RecordedThenMined(s.(worker := Sent(id, true), sent := s.sent + {(id, tx)}), id, tx);
    RunSplit(s, resent, mined);
  }

  lemma LostThenResent(s: World, fee: nat) returns (actions: seq<Action>)
    requires Safe(s) && s.worker.Signed? && s.books.withdrawals[s.worker.id].txHash == Some(s.worker.tx)
    ensures Run(s, actions)
      == s.(worker := Sent(s.worker.id, true), sent := s.sent + {(s.worker.id, s.worker.tx.(fee := fee))})
  {
    var id, idle := s.worker.id, s.(worker := Idle);
    LostBroadcast(s);
    Resent(idle, id, fee);
    RunTwo(s, DoSubmit(false, false), DoFailRead);
    RunTwo(idle, DoRecover(id, Unknown, fee), DoSubmit(true, true));
    RunSplit(s, [DoSubmit(false, false), DoFailRead], [DoRecover(id, Unknown, fee), DoSubmit(true, true)]);
    actions := [DoSubmit(false, false), DoFailRead] + [DoRecover(id, Unknown, fee), DoSubmit(true, true)];
  }

  lemma RunTwo(s: World, x: Action, y: Action)
    ensures Run(s, [x, y]) == Next(Next(s, x), y)
  {
    assert [x, y][..1] == [x] && [x][..0] == [];
    assert Run(s, [x]) == Next(s, x);
  }

  lemma RecordedThenMined(s: World, id: WithdrawalId, tx: Tx) returns (actions: seq<Action>)
    requires s.worker == Sent(id, true) && id in s.books.withdrawals && s.books.withdrawals[id].status.Signing?
    requires MarkBroadcast(s.books, id).Ok? && (id, tx) in s.sent && (tx.chain, tx.nonce) !in s.mined
    requires var recorded := s.books.withdrawals[id].txHash;
      recorded.Some? && recorded.value != tx && recorded.value.chain == tx.chain && recorded.value.nonce == tx.nonce
    ensures var t := Run(s, actions); (id, tx) in t.sent && PaidOut(t, tx) && Displaced(t, id)
  {
    Recorded(s, id);
    RunTwo(s, DoRecord, DoMine(tx, true));
    actions := [DoRecord, DoMine(tx, true)];
  }

  lemma LostBroadcast(s: World)
    requires WorkerOk(s.books, s.worker) && s.worker.Signed? && s.books.withdrawals[s.worker.id].txHash.Some?
    ensures Next(Next(s, DoSubmit(false, false)), DoFailRead) == s.(worker := Idle)
  {}

  lemma Resent(s: World, id: WithdrawalId, fee: nat)
    requires Safe(s) && s.worker.Idle? && id in s.books.withdrawals && s.books.withdrawals[id].status.Signing?
    ensures s.books.withdrawals[id].txHash.Some?
    ensures var tx := s.books.withdrawals[id].txHash.value.(fee := fee);
      Next(Next(s, DoRecover(id, Unknown, fee)), DoSubmit(true, true))
        == s.(worker := Sent(id, true), sent := s.sent + {(id, tx)})
  {
    ResignedTransaction(s, id, fee);
  }

  lemma Recorded(s: World, id: WithdrawalId)
    requires s.worker == Sent(id, true) && id in s.books.withdrawals && s.books.withdrawals[id].status.Signing?
    requires MarkBroadcast(s.books, id).Ok?
    ensures var s' := Next(s, DoRecord);
      && s'.sent == s.sent && s'.mined == s.mined && id in s'.books.withdrawals
      && s'.books.withdrawals[id] == s.books.withdrawals[id].(status := WithdrawalStatus.Broadcast)
  {}
}
