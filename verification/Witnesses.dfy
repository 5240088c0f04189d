/** Runs from the empty system that reach the states where the code falls short of its comments. */
module Witnesses {
  import opened Prelude
  import opened Ledger
  import opened LedgerLaws
  import opened Books
  import opened BooksLaws
  import opened RefusalLaws
  import opened Pipeline
  import opened PipelineLaws
  import opened RunLaws
  import opened Passes
  import opened PassLaws
  import opened BlockedLaws

  const DEPOSIT: DepositId := DepositId(0, 0, 0)

  function RequestOf(amount: int): Request { Request(0, 0, 0, amount, 0, "idem-key") }

  lemma Extend(actions: seq<Action>, action: Action)
    ensures At(actions + [action]) == Next(At(actions), action)
  {
    assert (actions + [action])[..|actions + [action]| - 1] == actions;
  }

  // -------------------------------------------------------------- one deposit, one withdrawal ---

  /** A credited deposit of `amount`, and nothing else. */
  ghost predicate Funded(s: World, amount: int) {
    && s.worker.Idle? && s.sent == {} && s.mined == map[]
    && s.books.deposits == map[DEPOSIT := Deposit(0, 0, amount, Credited)]
    && s.books.withdrawals == map[] && s.books.byKey == map[] && s.books.nonces == map[]
    && Balance(s.books.ledger, System(Custody, 0)) == amount && Balance(s.books.ledger, User(Available, 0, 0)) == amount
  }

  lemma ConfirmedFirst(amount: int) returns (actions: seq<Action>)
    requires IsPositive(amount)
    ensures At(actions) == START.(books := NO_BOOKS.(deposits := map[DEPOSIT := Deposit(0, 0, amount, Confirmed)]))
  {
    Extend([], DoObserve(DEPOSIT, 0, 0, amount));
    var one := [] + [DoObserve(DEPOSIT, 0, 0, amount)];
    Extend(one, DoConfirm(DEPOSIT, true));
    actions := one + [DoConfirm(DEPOSIT, true)];
    assert At([]) == START;
    assert At(one) == START.(books := NO_BOOKS.(deposits := map[DEPOSIT := Deposit(0, 0, amount, Observed)]));
  }

  lemma CreditsConfirmed(s: World, amount: int)
    requires IsPositive(amount) && Inv(s.books)
    requires s == START.(books := NO_BOOKS.(deposits := map[DEPOSIT := Deposit(0, 0, amount, Confirmed)]))
    ensures Funded(Next(s, DoCredit(DEPOSIT)), amount)
  {
    CreditAllowedIff(s.books, DEPOSIT);
    PairEffect(s.books.ledger, CreditKey(DEPOSIT), System(Custody, 0), User(Available, 0, 0), amount);
  }

  lemma FundedRun(amount: int) returns (actions: seq<Action>)
    requires IsPositive(amount)
    ensures Funded(At(actions), amount)
  {
    var confirmed := ConfirmedFirst(amount);
    AlwaysSafe(confirmed);
    CreditsConfirmed(At(confirmed), amount);
    Extend(confirmed, DoCredit(DEPOSIT));
    actions := confirmed + [DoCredit(DEPOSIT)];
  }

  /** The whole balance reserved for one approved withdrawal. */
  ghost predicate Reserving(s: World, amount: int) {
    && s.worker.Idle? && s.sent == {} && s.mined == map[]
    && s.books.deposits == map[DEPOSIT := Deposit(0, 0, amount, Credited)]
    && s.books.withdrawals == map[0 := NewRow(RequestOf(amount), Approved, true)] && s.books.nonces == map[]
    && Balance(s.books.ledger, System(Custody, 0)) == amount
  }

  lemma ReservesAll(s: World, amount: int)
    requires IsPositive(amount) && Inv(s.books) && Funded(s, amount)
    ensures Reserving(Next(s, DoCreate(0, RequestOf(amount), Allow)), amount)
  {
    FreshCreateAllowedIff(s.books, 0, RequestOf(amount), Allow);
    RowFact(s.books, 0);
    PairEffect(s.books.ledger, ReserveKey(0), User(Available, 0, 0), User(UserKind.Reserved, 0, 0), amount);
  }

  /** Signed, about to broadcast. */
  ghost predicate AboutToSend(s: World, amount: int) {
    && s.worker == Signed(0, Tx(0, 0, 0, 0, amount, 0)) && s.sent == {} && s.mined == map[]
    && s.books.deposits == map[DEPOSIT := Deposit(0, 0, amount, Credited)]
    && 0 in s.books.withdrawals && s.books.withdrawals[0].status.Signing?
    && s.books.withdrawals[0].txHash == Some(s.worker.tx)
    && s.books.withdrawals[0].asset == 0 && s.books.withdrawals[0].amount == amount && s.books.withdrawals[0].chain == 0
    && Balance(s.books.ledger, System(Custody, 0)) == amount
  }

  lemma Signs(s: World, amount: int)
    requires Reserving(s, amount)
    ensures AboutToSend(Next(s, DoSign(0, 0, 0)), amount)
  {}

  lemma SignedRun(amount: int) returns (actions: seq<Action>)
    requires IsPositive(amount)
    ensures AboutToSend(At(actions), amount)
  {
    var funded := FundedRun(amount);
    AlwaysSafe(funded);
    ReservesAll(At(funded), amount);
    Extend(funded, DoCreate(0, RequestOf(amount), Allow));
    var reserved := funded + [DoCreate(0, RequestOf(amount), Allow)];
    Signs(At(reserved), amount);
    Extend(reserved, DoSign(0, 0, 0));
    actions := reserved + [DoSign(0, 0, 0)];
  }

  // --------------------------------------------------------------------- a refused reorg ---

  lemma Sends(s: World, amount: int)
    requires AboutToSend(s, amount)
    ensures var s' := Next(s, DoSubmit(true, true)); s'.books == s.books && s'.worker == Sent(0, false)
  {}

  lemma LeavesCustody(b: Books, amount: int)
    requires IsPositive(amount) && Inv(b) && 0 in b.withdrawals && b.withdrawals[0].status.Signing?
    requires b.withdrawals[0].asset == 0 && b.withdrawals[0].amount == amount
    requires Balance(b.ledger, System(Custody, 0)) == amount
    ensures var r := MarkBroadcast(b, 0);
      r.Ok? && r.value.deposits == b.deposits && Balance(r.value.ledger, System(Custody, 0)) == 0
  {
    RowFact(b, 0);
    BroadcastRow(b.ledger.posted.Keys, 0, b.withdrawals[0]);
    EmptiesCustody(b.ledger, amount);
  }

  lemma EmptiesCustody(l: Ledger, amount: int)
    requires IsPositive(amount) && BroadcastKey(0) !in l.posted.Keys && Balance(l, System(Custody, 0)) == amount
    ensures var r := RecordBroadcast(l, 0, 0, amount); r.Ok? && Balance(r.value, System(Custody, 0)) == 0
  {
    PairEffect(l, BroadcastKey(0), System(Clearing, 0), System(Custody, 0), amount);
  }

  lemma Records(s: World)
    requires s.worker == Sent(0, false) && MarkBroadcast(s.books, 0).Ok?
    ensures Next(s, DoRecord).books == MarkBroadcast(s.books, 0).value
  {}

  lemma RefusesReorg(b: Books, amount: int)
    requires IsPositive(amount) && Inv(b) && b.deposits == map[DEPOSIT := Deposit(0, 0, amount, Credited)]
    requires Balance(b.ledger, System(Custody, 0)) == 0
    ensures ReorgDeposits(b, [DEPOSIT]).Err?
  {
    SumMapAtLeastOwn(b, amount);
    ReorgAllowedIff(b, [DEPOSIT]);
  }

  lemma SumMapAtLeastOwn(b: Books, amount: int)
    requires IsPositive(amount) && b.deposits == map[DEPOSIT := Deposit(0, 0, amount, Credited)]
    ensures Owed(b, [DEPOSIT], 0) == amount
  {
    SumMapRemove(b.deposits, TakenBack([DEPOSIT], 0), DEPOSIT);
    assert b.deposits - {DEPOSIT} == map[];
  }

  /**
   * A reorg that custody cannot cover is reachable: a deposit is credited, its value is withdrawn
   * and sent, and then the deposit's block is orphaned. The reorg is refused and changes nothing.
   */
  lemma ReorgRefusedInARun(amount: int) returns (actions: seq<Action>)
    requires IsPositive(amount)
    ensures IsCredited(At(actions), DEPOSIT) && ReorgDeposits(At(actions).books, [DEPOSIT]).Err?
    ensures At(actions + [DoReorg([DEPOSIT])]) == At(actions)
  {
    var signed := SignedRun(amount);
    AlwaysSafe(signed);
    Sends(At(signed), amount);
    Extend(signed, DoSubmit(true, true));
    var sent := signed + [DoSubmit(true, true)];
    LeavesCustody(At(signed).books, amount);
    Records(At(sent));
    Extend(sent, DoRecord);
    actions := sent + [DoRecord];
    RefusedNow(actions, amount);
  }

  lemma RefusedNow(actions: seq<Action>, amount: int)
    requires IsPositive(amount) && At(actions).books.deposits == map[DEPOSIT := Deposit(0, 0, amount, Credited)]
    requires Balance(At(actions).books.ledger, System(Custody, 0)) == 0
    ensures IsCredited(At(actions), DEPOSIT) && ReorgDeposits(At(actions).books, [DEPOSIT]).Err?
    ensures At(actions + [DoReorg([DEPOSIT])]) == At(actions)
  {
    AlwaysSafe(actions);
    RefusesReorg(At(actions).books, amount);
    Extend(actions, DoReorg([DEPOSIT]));
  }

  // ------------------------------------------------------------------- a blocked pipeline ---

  lemma TakesBack(signed: seq<Action>, amount: int)
    requires IsPositive(amount) && AboutToSend(At(signed), amount)
    ensures var b, r := At(signed).books, ReorgDeposits(At(signed).books, [DEPOSIT]);
      r.Ok? && r.value.withdrawals == b.withdrawals && Balance(r.value.ledger, System(Custody, 0)) == 0
  {
    var b := At(signed).books;
    AlwaysSafe(signed);
    ReorgOne(b, DEPOSIT);
    assert [DEPOSIT][..0] == [];
    assert ReorgDeposits(b, [DEPOSIT]) == ReorgDeposit(ReorgDeposits(b, [DEPOSIT][..0]).value, DEPOSIT);
  }

  lemma Claims(b: Books)
    requires 0 in b.withdrawals && b.withdrawals[0].status.Signing? && b.withdrawals[0].chain == 0
    ensures Distinct([0]) && 0 in Stranded(b, [0], 0)
  {}

  lemma StuckRun(amount: int) returns (actions: seq<Action>)
    requires IsPositive(amount)
    ensures At(actions).worker.Idle? && (0, Tx(0, 0, 0, 0, amount, 0)) in At(actions).sent
    ensures Distinct([0]) && Stuck(At(actions).books, [0], 0, 0)
    ensures At(actions).books.withdrawals[0].txHash == Some(Tx(0, 0, 0, 0, amount, 0))
  {
    var signed := SignedRun(amount);
    var crashed := signed + [DoSubmit(true, true)] + [DoCrash];
    Crashes(signed, amount);
    TakesBack(signed, amount);
    Extend(crashed, DoReorg([DEPOSIT]));
    actions := crashed + [DoReorg([DEPOSIT])];
    Claims(At(actions).books);
  }

  /**
   * A pipeline that is blocked for good is reachable: the worker dies between sending a withdrawal
   * and recording it, and then the deposit it is paid from is taken back by a reorg. However many
   * passes follow, the next one fails too if the node knows the transaction.
   */
  lemma BlockedInARun(amount: int, later: seq<ChainId>, outs: seq<ChainId -> Outside>) returns (actions: seq<Action>)
    requires IsPositive(amount) && outs != []
    requires forall j :: 0 <= j < |outs| ==> !outs[j](0).node(Tx(0, 0, 0, 0, amount, 0)).Unknown?
    ensures (0, Tx(0, 0, 0, 0, amount, 0)) in At(actions).sent
    ensures var b := PassAfterPass(At(actions).books, [0], [0] + later, outs[..|outs| - 1]);
      RunPass(b, [0], [0] + later, outs[|outs| - 1]).error.Some? && OnlyStrandedRows(At(actions).books, 0, b)
  {
    actions := StuckRun(amount);
    AlwaysSafe(actions);
    StuckForGood(At(actions).books, [0], 0, later, 0, outs[..|outs| - 1]);
  }

  lemma Crashes(signed: seq<Action>, amount: int)
    requires AboutToSend(At(signed), amount)
    ensures var s, s' := At(signed), At(signed + [DoSubmit(true, true)] + [DoCrash]);
      s'.books == s.books && s'.sent == {(0, s.worker.tx)} && s'.worker.Idle?
  {
    Extend(signed, DoSubmit(true, true));
    Extend(signed + [DoSubmit(true, true)], DoCrash);
  }

  // --------------------------------------------------------------- a displaced withdrawal ---

  /**
   * A withdrawal that is paid and stays in flight for ever is reachable: after a run from the
   * start its re-signed transaction has paid out, and no continuation settles or returns it.
   */
  lemma DisplacedInARun(amount: int) returns (actions: seq<Action>, tx: Tx)
    requires IsPositive(amount)
    ensures (0, tx) in At(actions).sent && PaidOut(At(actions), tx) && tx.amount == amount
    ensures forall more :: Displaced(At(actions + more), 0)
  {
    var signed := SignedRun(amount);
    AlwaysSafe(signed);
    var s := At(signed);
    RepricingDisplaces(s, 1);
    var rest: seq<Action> :|
      (s.worker.id, s.worker.tx.(fee := 1)) in Run(s, rest).sent && PaidOut(Run(s, rest), s.worker.tx.(fee := 1))
        && Displaced(Run(s, rest), s.worker.id);
    RunSplit(START, signed, rest);
    actions, tx := signed + rest, s.worker.tx.(fee := 1);
    forall more ensures Displaced(At(actions + more), 0) {
      RunSplit(START, actions, more);
      DisplacedNeverSettles(At(actions), more, 0);
    }
  }
}
