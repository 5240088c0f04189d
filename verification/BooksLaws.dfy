/** The invariant of the books, and that every committed transaction keeps it. */
module BooksLaws {
  import opened Prelude
  import opened Ledger
  import opened LedgerLaws
  import opened Books

  // ------------------------------------------------------------------- aggregates ---

  ghost function HeldFor(u: UserId, a: AssetId): (WithdrawalId, Withdrawal) -> int {
    (id: WithdrawalId, w: Withdrawal) => if w.user == u && w.asset == a && w.status.Held() then w.amount else 0
  }

  ghost function InClearing(a: AssetId): (WithdrawalId, Withdrawal) -> int {
    (id: WithdrawalId, w: Withdrawal) => if w.asset == a && w.status.InFlight() then w.amount else 0
  }

  ghost function PaidTo(u: UserId, a: AssetId): (WithdrawalId, Withdrawal) -> int {
    (id: WithdrawalId, w: Withdrawal) => if w.user == u && w.asset == a && w.status.Completed? then w.amount else 0
  }

  ghost function CreditedTo(u: UserId, a: AssetId): (DepositId, Deposit) -> int {
    (d: DepositId, dep: Deposit) => if dep.user == u && dep.asset == a && dep.status.Credited? then dep.amount else 0
  }

  /** What the exchange owes a user in an asset, net of what the user owes back. */
  ghost function Equity(l: Ledger, u: UserId, a: AssetId): int {
    Balance(l, User(Available, u, a)) + Balance(l, User(Reserved, u, a)) - Balance(l, User(Deficit, u, a))
  }

  /** Reserved balances are exactly the sums of the withdrawals holding them. */
  ghost predicate ReservedExact(b: Books) {
    forall u, a {:trigger HeldFor(u, a)} ::
      Balance(b.ledger, User(Reserved, u, a)) == SumMap(b.withdrawals, HeldFor(u, a))
  }

  /** Clearing is exactly the value sent and not yet final. */
  ghost predicate ClearingExact(b: Books) {
    forall a {:trigger InClearing(a)} ::
      Balance(b.ledger, System(Clearing, a)) == SumMap(b.withdrawals, InClearing(a))
  }

  /** Per-user conservation: credited deposits less completed withdrawals. */
  ghost predicate Conserved(b: Books) {
    forall u, a {:trigger Equity(b.ledger, u, a)} ::
      Equity(b.ledger, u, a) == SumMap(b.deposits, CreditedTo(u, a)) - SumMap(b.withdrawals, PaidTo(u, a))
  }

  // -------------------------------------------------------------------- row facts ---

  /** A withdrawal's status and the idempotency keys posted for it say the same thing. */
  ghost predicate RowOk(posted: set<Key>, id: WithdrawalId, w: Withdrawal) {
    && IsPositive(w.amount)
    && !w.status.Requested?
    && (w.status.Held() || w.status.Completed? || w.status.Cancelled? ==> w.reserved)
    && (ReserveKey(id) in posted <==> w.reserved)
    && (ReleaseKey(id) in posted <==> w.reserved && (w.status.Failed? || w.status.Cancelled?))
    && (SettleKey(id) in posted <==> w.status.Completed?)
    && (BroadcastReversalKey(id) in posted ==> w.status.Failed?)
    && (BroadcastKey(id) in posted <==> w.status.FundsMayHaveLeft() || BroadcastReversalKey(id) in posted)
    && (FeeKey(id) in posted ==> w.status.Terminal())
    && (w.status.Signing? || w.status.FundsMayHaveLeft() || BroadcastKey(id) in posted ==>
          w.txHash.Some? && w.nonce == Some(w.txHash.value.nonce))
  }

  ghost predicate NoKeys(posted: set<Key>, id: WithdrawalId) {
    && ReserveKey(id) !in posted && ReleaseKey(id) !in posted && BroadcastKey(id) !in posted
    && SettleKey(id) !in posted && BroadcastReversalKey(id) !in posted && FeeKey(id) !in posted
  }

  /** A deposit was credited iff its credit is posted and not compensated. */
  ghost predicate DepositOk(posted: set<Key>, d: DepositId, dep: Deposit) {
    && IsPositive(dep.amount)
    && (CreditKey(d) in posted <==> dep.status.Credited? || ReversalKey(d) in posted)
    && (ReversalKey(d) in posted ==> dep.status.Reorged?)
  }

  ghost predicate RowsOk(b: Books) {
    var posted := b.ledger.posted.Keys;
    && (forall id :: id in b.withdrawals ==> RowOk(posted, id, b.withdrawals[id]))
    && (forall id :: id !in b.withdrawals ==> NoKeys(posted, id))
  }

  ghost predicate DepositsOk(b: Books) {
    var posted := b.ledger.posted.Keys;
    && (forall d :: d in b.deposits ==> DepositOk(posted, d, b.deposits[d]))
    && (forall d :: d !in b.deposits ==> CreditKey(d) !in posted && ReversalKey(d) !in posted)
  }

  function Owner(w: Withdrawal): (UserId, string) { (w.user, w.idempotencyKey) }

  /** The unique index on (user, idempotency key). */
  ghost predicate Indexed(b: Books) {
    && (forall k :: k in b.byKey ==> b.byKey[k] in b.withdrawals && Owner(b.withdrawals[b.byKey[k]]) == k)
    && (forall id :: id in b.withdrawals ==>
          Owner(b.withdrawals[id]) in b.byKey && b.byKey[Owner(b.withdrawals[id])] == id)
  }

  ghost predicate Exact(b: Books) { ReservedExact(b) && ClearingExact(b) && Conserved(b) }

  ghost predicate Inv(b: Books) {
    Sound(b.ledger) && RowsOk(b) && DepositsOk(b) && Indexed(b) && Exact(b)
  }

  lemma EmptyBooks()
    ensures Inv(NO_BOOKS)
  {
    EmptyIsSound();
  }

  // ----------------------------------------------------- moving one row's aggregates ---

  ghost function RowAt(b: Books, id: WithdrawalId): Option<Withdrawal> {
    if id in b.withdrawals then Some(b.withdrawals[id]) else None
  }

  /** The reserved, clearing and equity balances moved by exactly the row's change. */
  ghost predicate MovesWith(l: Ledger, l': Ledger, id: WithdrawalId, was: Option<Withdrawal>, w: Withdrawal) {
    && (forall u, a {:trigger HeldFor(u, a)} ::
          Balance(l', User(Reserved, u, a)) - Balance(l, User(Reserved, u, a))
          == HeldFor(u, a)(id, w) - (if was.Some? then HeldFor(u, a)(id, was.value) else 0))
    && (forall a {:trigger InClearing(a)} ::
          Balance(l', System(Clearing, a)) - Balance(l, System(Clearing, a))
          == InClearing(a)(id, w) - (if was.Some? then InClearing(a)(id, was.value) else 0))
    && (forall u, a {:trigger PaidTo(u, a)} ::
          Equity(l', u, a) - Equity(l, u, a)
          == (if was.Some? then PaidTo(u, a)(id, was.value) else 0) - PaidTo(u, a)(id, w))
  }

  /** The equity moved by exactly the deposit row's change, and nothing else did. */
  ghost predicate PaysIn(l: Ledger, l': Ledger, d: DepositId, was: Option<Deposit>, dep: Deposit) {
    && (forall u, a {:trigger HeldFor(u, a)} :: Balance(l', User(Reserved, u, a)) == Balance(l, User(Reserved, u, a)))
    && (forall a {:trigger InClearing(a)} :: Balance(l', System(Clearing, a)) == Balance(l, System(Clearing, a)))
    && (forall u, a {:trigger CreditedTo(u, a)} ::
          Equity(l', u, a) - Equity(l, u, a)
          == CreditedTo(u, a)(d, dep) - (if was.Some? then CreditedTo(u, a)(d, was.value) else 0))
  }

  ghost function DepositAt(b: Books, d: DepositId): Option<Deposit> {
    if d in b.deposits then Some(b.deposits[d]) else None
  }

  /**
   * A transaction that rewrites one withdrawal row keeps the three aggregates if it moves the
   * reserved, clearing and equity balances by exactly the row's change.
   */
  lemma RowMoved(b: Books, b': Books, id: WithdrawalId, w: Withdrawal)
    requires Exact(b)
    requires b'.withdrawals == b.withdrawals[id := w] && b'.deposits == b.deposits
    requires MovesWith(b.ledger, b'.ledger, id, RowAt(b, id), w)
    ensures Exact(b')
  {
    forall u, a {:trigger HeldFor(u, a)}
      ensures Balance(b'.ledger, User(Reserved, u, a)) == SumMap(b'.withdrawals, HeldFor(u, a))
    {
      SumMapUpdate(b.withdrawals, HeldFor(u, a), id, w);
    }
    forall a {:trigger InClearing(a)}
      ensures Balance(b'.ledger, System(Clearing, a)) == SumMap(b'.withdrawals, InClearing(a))
    {
      SumMapUpdate(b.withdrawals, InClearing(a), id, w);
    }
    forall u, a {:trigger Equity(b'.ledger, u, a)}
      ensures Equity(b'.ledger, u, a) == SumMap(b'.deposits, CreditedTo(u, a)) - SumMap(b'.withdrawals, PaidTo(u, a))
    {
      assert Equity(b.ledger, u, a) == SumMap(b.deposits, CreditedTo(u, a)) - SumMap(b.withdrawals, PaidTo(u, a));
      SumMapUpdate(b.withdrawals, PaidTo(u, a), id, w);
    }
  }

  /** The same for one deposit row. */
  lemma DepositMoved(b: Books, b': Books, d: DepositId, dep: Deposit)
    requires Exact(b)
    requires b'.withdrawals == b.withdrawals && b'.deposits == b.deposits[d := dep]
    requires PaysIn(b.ledger, b'.ledger, d, DepositAt(b, d), dep)
    ensures Exact(b')
  {
    forall u, a {:trigger Equity(b'.ledger, u, a)}
      ensures Equity(b'.ledger, u, a) == SumMap(b'.deposits, CreditedTo(u, a)) - SumMap(b'.withdrawals, PaidTo(u, a))
    {
      assert Equity(b.ledger, u, a) == SumMap(b.deposits, CreditedTo(u, a)) - SumMap(b.withdrawals, PaidTo(u, a));
      SumMapUpdate(b.deposits, CreditedTo(u, a), d, dep);
    }
  }

  /** A held withdrawal's reservation is there to be settled or returned. */
  lemma ReservationIsThere(b: Books, id: WithdrawalId)
    requires Inv(b) && id in b.withdrawals && b.withdrawals[id].status.Held()
    ensures var w := b.withdrawals[id]; Balance(b.ledger, User(Reserved, w.user, w.asset)) >= w.amount
  {
    var w := b.withdrawals[id];
    var f := HeldFor(w.user, w.asset);
    forall j | j in b.withdrawals ensures f(j, b.withdrawals[j]) >= 0 {
      assert RowOk(b.ledger.posted.Keys, j, b.withdrawals[j]);
    }
    SumMapAtLeast(b.withdrawals, f, id);
  }

  /** Clearing holds at least the value of every withdrawal in flight, so it never goes negative. */
  lemma ClearingNeverNegative(b: Books, a: AssetId)
    requires Inv(b)
    ensures Balance(b.ledger, System(Clearing, a)) >= 0
  {
    forall j | j in b.withdrawals ensures InClearing(a)(j, b.withdrawals[j]) >= 0 {
      assert RowOk(b.ledger.posted.Keys, j, b.withdrawals[j]);
    }
    SumMapNonNegative(b.withdrawals, InClearing(a));
  }

  // -------------------------------------------------------------- rewriting one row ---

  /** The keys posted since belong to withdrawal `id`. */
  ghost predicate OnlyKeysOf(before: set<Key>, after: set<Key>, id: WithdrawalId) {
    && before <= after
    && forall k :: k in after && k !in before ==>
         !k.CreditKey? && !k.ReversalKey? && !k.FundingKey? && k.withdrawal == id
  }

  lemma RowsStep(b: Books, b': Books, id: WithdrawalId, w: Withdrawal)
    requires RowsOk(b) && DepositsOk(b)
    requires b'.withdrawals == b.withdrawals[id := w] && b'.deposits == b.deposits
    requires OnlyKeysOf(b.ledger.posted.Keys, b'.ledger.posted.Keys, id)
    requires RowOk(b'.ledger.posted.Keys, id, w)
    ensures RowsOk(b') && DepositsOk(b')
  {
    var posted, posted' := b.ledger.posted.Keys, b'.ledger.posted.Keys;
    forall j | j in b'.withdrawals && j != id ensures RowOk(posted', j, b'.withdrawals[j]) {
      assert RowOk(posted, j, b.withdrawals[j]);
    }
    forall j | j !in b'.withdrawals ensures NoKeys(posted', j) {
      assert NoKeys(posted, j);
    }
    forall d | d in b'.deposits ensures DepositOk(posted', d, b'.deposits[d]) {
      assert DepositOk(posted, d, b.deposits[d]);
    }
  }

  /** Rewriting an existing row together with a ledger that moved accordingly. */
  lemma RowStep(b: Books, l: Ledger, id: WithdrawalId, w: Withdrawal)
    requires Inv(b) && Sound(l) && id in b.withdrawals
    requires Owner(w) == Owner(b.withdrawals[id])
    requires OnlyKeysOf(b.ledger.posted.Keys, l.posted.Keys, id) && RowOk(l.posted.Keys, id, w)
    requires MovesWith(b.ledger, l, id, RowAt(b, id), w)
    ensures Inv(SetRow(b.(ledger := l), id, w))
  {
    var b' := SetRow(b.(ledger := l), id, w);
    RowsStep(b, b', id, w);
    RowMoved(b, b', id, w);
  }

  /** Keys of one deposit say nothing about withdrawals. */
  lemma RowIgnoresDeposit(posted: set<Key>, posted': set<Key>, d: DepositId, id: WithdrawalId, w: Withdrawal)
    requires posted <= posted' <= posted + {CreditKey(d), ReversalKey(d)}
    ensures RowOk(posted, id, w) <==> RowOk(posted', id, w)
    ensures NoKeys(posted, id) <==> NoKeys(posted', id)
  {}

  lemma DepositsStep(b: Books, b': Books, d: DepositId, dep: Deposit)
    requires RowsOk(b) && DepositsOk(b)
    requires b'.withdrawals == b.withdrawals && b'.deposits == b.deposits[d := dep]
    requires b.ledger.posted.Keys <= b'.ledger.posted.Keys <= b.ledger.posted.Keys + {CreditKey(d), ReversalKey(d)}
    requires DepositOk(b'.ledger.posted.Keys, d, dep)
    ensures RowsOk(b') && DepositsOk(b')
  {
    var posted, posted' := b.ledger.posted.Keys, b'.ledger.posted.Keys;
    forall j | j in b'.withdrawals ensures RowOk(posted', j, b'.withdrawals[j]) {
      RowIgnoresDeposit(posted, posted', d, j, b.withdrawals[j]);
    }
    var any := NewRow(Request(0, 0, 0, 0, 0, ""), Requested, false);
    forall j | j !in b'.withdrawals ensures NoKeys(posted', j) {
      RowIgnoresDeposit(posted, posted', d, j, any);
    }
    OtherDepositsOk(b, b', d, dep);
  }

  lemma OtherDepositsOk(b: Books, b': Books, d: DepositId, dep: Deposit)
    requires DepositsOk(b) && b'.deposits == b.deposits[d := dep]
    requires b.ledger.posted.Keys <= b'.ledger.posted.Keys <= b.ledger.posted.Keys + {CreditKey(d), ReversalKey(d)}
    requires DepositOk(b'.ledger.posted.Keys, d, dep)
    ensures DepositsOk(b')
  {
    var posted, posted' := b.ledger.posted.Keys, b'.ledger.posted.Keys;
    forall x | x in b'.deposits && x != d ensures DepositOk(posted', x, b'.deposits[x]) {
      assert DepositOk(posted, x, b.deposits[x]);
    }
  }

  lemma DepositStep(b: Books, l: Ledger, d: DepositId, dep: Deposit)
    requires Inv(b) && Sound(l)
    requires b.ledger.posted.Keys <= l.posted.Keys <= b.ledger.posted.Keys + {CreditKey(d), ReversalKey(d)}
    requires DepositOk(l.posted.Keys, d, dep)
    requires PaysIn(b.ledger, l, d, DepositAt(b, d), dep)
    ensures Inv(SetDeposit(b.(ledger := l), d, dep))
  {
    var b' := SetDeposit(b.(ledger := l), d, dep);
    DepositsStep(b, b', d, dep);
    DepositMoved(b, b', d, dep);
  }

  // -------------------------------------------------------- facts read off the invariant ---

  lemma RowFact(b: Books, id: WithdrawalId)
    requires Inv(b)
    ensures Sound(b.ledger)
    ensures id in b.withdrawals ==> RowOk(b.ledger.posted.Keys, id, b.withdrawals[id])
    ensures id !in b.withdrawals ==> NoKeys(b.ledger.posted.Keys, id)
  {}

  lemma DepositFact(b: Books, d: DepositId)
    requires Inv(b)
    ensures Sound(b.ledger)
    ensures d in b.deposits ==> DepositOk(b.ledger.posted.Keys, d, b.deposits[d])
    ensures d !in b.deposits ==> CreditKey(d) !in b.ledger.posted.Keys && ReversalKey(d) !in b.ledger.posted.Keys
  {}

  /** A row change that the balances do not see. */
  lemma NothingMoves(l: Ledger, id: WithdrawalId, w: Withdrawal, w': Withdrawal)
    requires w.user == w'.user && w.asset == w'.asset && w.amount == w'.amount
    requires w.status.Held() == w'.status.Held() && w.status.InFlight() == w'.status.InFlight()
    requires w.status.Completed? == w'.status.Completed?
    ensures MovesWith(l, l, id, Some(w), w')
  {}

  // ---------------------------------------------- two-account moves seen by the aggregates ---

  lemma ReserveMoves(l: Ledger, l': Ledger, id: WithdrawalId, w: Withdrawal)
    requires w.status.Held() && !w.status.InFlight()
    requires Moves(l, l', ReserveKey(id), User(Available, w.user, w.asset), -w.amount, User(Reserved, w.user, w.asset),
        w.amount)
    ensures MovesWith(l, l', id, None, w)
  {}

  lemma ReleaseMoves(l: Ledger, l': Ledger, id: WithdrawalId, w: Withdrawal, status: WithdrawalStatus)
    requires w.status.Held() && !w.status.InFlight() && (status.Failed? || status.Cancelled?)
    requires Moves(l, l', ReleaseKey(id), User(Reserved, w.user, w.asset), -w.amount, User(Available, w.user, w.asset),
        w.amount)
    ensures MovesWith(l, l', id, Some(w), w.(status := status))
  {}

  lemma BroadcastMoves(l: Ledger, l': Ledger, id: WithdrawalId, w: Withdrawal)
    requires w.status.Signing?
    requires Moves(l, l', BroadcastKey(id), System(Clearing, w.asset), w.amount, System(Custody, w.asset), -w.amount)
    ensures MovesWith(l, l', id, Some(w), w.(status := WithdrawalStatus.Broadcast))
  {}

  lemma SettleMoves(l: Ledger, l': Ledger, id: WithdrawalId, w: Withdrawal)
    requires w.status.InFlight()
    requires Moves(l, l', SettleKey(id), User(Reserved, w.user, w.asset), -w.amount, System(Clearing, w.asset),
        -w.amount)
    ensures MovesWith(l, l', id, Some(w), w.(status := Completed))
  {}

  lemma UnwindMoves(l: Ledger, l1: Ledger, l2: Ledger, id: WithdrawalId, w: Withdrawal)
    requires w.status.InFlight()
    requires Moves(l, l1, BroadcastReversalKey(id), System(Custody, w.asset), w.amount, System(Clearing, w.asset),
        -w.amount)
    requires Moves(l1, l2, ReleaseKey(id), User(Reserved, w.user, w.asset), -w.amount, User(Available, w.user, w.asset),
        w.amount)
    ensures MovesWith(l, l2, id, Some(w), w.(status := WithdrawalStatus.Failed))
  {}

  lemma CreditMoves(l: Ledger, l': Ledger, d: DepositId, dep: Deposit)
    requires dep.status.Confirmed?
    requires Moves(l, l', CreditKey(d), System(Custody, dep.asset), dep.amount, User(Available, dep.user, dep.asset),
        dep.amount)
    ensures PaysIn(l, l', d, Some(dep), dep.(status := Credited))
  {}

  lemma ReversalMoves(l: Ledger, l': Ledger, d: DepositId, dep: Deposit)
    requires dep.status.Credited? && Reverses(l, l', dep.user, dep.asset, dep.amount)
    ensures PaysIn(l, l', d, Some(dep), dep.(status := Reorged))
  {}

  // ------------------------------------------------------------------ service steps ---

  lemma IndexInsert(b: Books, b': Books, id: WithdrawalId, r: Request, w: Withdrawal)
    requires Indexed(b) && id !in b.withdrawals && (r.user, r.idempotencyKey) !in b.byKey
    requires Owner(w) == (r.user, r.idempotencyKey)
    requires b'.withdrawals == b.withdrawals[id := w] && b'.byKey == b.byKey[(r.user, r.idempotencyKey) := id]
    ensures Indexed(b')
  {}

  lemma NewRowOk(posted: set<Key>, id: WithdrawalId, r: Request, status: WithdrawalStatus)
    requires NoKeys(posted, id) && IsPositive(r.amount) && (status.Validated? || status.Approved?)
    ensures RowOk(posted + {ReserveKey(id)}, id, NewRow(r, status, true))
    ensures OnlyKeysOf(posted, posted + {ReserveKey(id)}, id)
  {}

  lemma DeniedRowOk(l: Ledger, id: WithdrawalId, r: Request)
    requires NoKeys(l.posted.Keys, id) && IsPositive(r.amount)
    ensures RowOk(l.posted.Keys, id, NewRow(r, WithdrawalStatus.Failed, false))
    ensures MovesWith(l, l, id, None, NewRow(r, WithdrawalStatus.Failed, false))
  {}

  lemma InsertStep(b: Books, l: Ledger, id: WithdrawalId, r: Request, status: WithdrawalStatus, reserved: bool)
    requires Inv(b) && Sound(l) && id !in b.withdrawals && (r.user, r.idempotencyKey) !in b.byKey
    requires var w := NewRow(r, status, reserved);
      && OnlyKeysOf(b.ledger.posted.Keys, l.posted.Keys, id) && RowOk(l.posted.Keys, id, w)
      && MovesWith(b.ledger, l, id, None, w)
    ensures Inv(Insert(b.(ledger := l), id, r, status, reserved))
  {
    var b' := Insert(b.(ledger := l), id, r, status, reserved);
    var w := NewRow(r, status, reserved);
    IndexInsert(b, b', id, r, w);
    RowsStep(b, b', id, w);
    RowMoved(b, b', id, w);
  }

  lemma ReserveLeg(l: Ledger, l': Ledger, id: WithdrawalId, w: Withdrawal)
    requires Sound(l) && ReserveKey(id) !in l.posted && w.status.Held() && !w.status.InFlight()
    requires ReserveWithdrawal(l, id, w.user, w.asset, w.amount) == Ok(l')
    ensures Sound(l') && l'.posted.Keys == l.posted.Keys + {ReserveKey(id)}
    ensures MovesWith(l, l', id, None, w)
  {
    PairEffect(l, ReserveKey(id), User(Available, w.user, w.asset), User(Reserved, w.user, w.asset), w.amount);
    ReserveMoves(l, l', id, w);
  }

  lemma CreateKeeps(b: Books, id: WithdrawalId, r: Request, decision: Decision)
    requires Inv(b) && Create(b, id, r, decision).Ok?
    ensures Inv(Create(b, id, r, decision).value.0)
  {
    var (b', c) := Create(b, id, r, decision).value;
    RowFact(b, id);
    if c.New? {
      var w := b'.withdrawals[id];
      NewRowOk(b.ledger.posted.Keys, id, r, w.status);
      ReserveLeg(b.ledger, b'.ledger, id, w);
      InsertStep(b, b'.ledger, id, r, w.status, true);
    } else if c.Denied? {
      DeniedRowOk(b.ledger, id, r);
      InsertStep(b, b.ledger, id, r, WithdrawalStatus.Failed, false);
    }
  }

  lemma ApproveKeeps(b: Books, id: WithdrawalId)
    requires Inv(b) && Approve(b, id).Ok?
    ensures Inv(Approve(b, id).value)
  {
    var w := b.withdrawals[id];
    var w' := w.(status := Approved);
    RowFact(b, id);
    NothingMoves(b.ledger, id, w, w');
    RowStep(b, b.ledger, id, w');
  }

  lemma ReleaseLeg(l: Ledger, l': Ledger, id: WithdrawalId, w: Withdrawal, status: WithdrawalStatus)
    requires Sound(l) && ReleaseKey(id) !in l.posted
    requires ReleaseReservation(l, id, w.user, w.asset, w.amount) == Ok(l')
    requires w.status.Held() && !w.status.InFlight() && (status.Failed? || status.Cancelled?)
    ensures Sound(l') && l'.posted.Keys == l.posted.Keys + {ReleaseKey(id)}
    ensures MovesWith(l, l', id, Some(w), w.(status := status))
  {
    PairEffect(l, ReleaseKey(id), User(Reserved, w.user, w.asset), User(Available, w.user, w.asset), w.amount);
    ReleaseMoves(l, l', id, w, status);
  }

  lemma ReleasedRow(posted: set<Key>, id: WithdrawalId, w: Withdrawal, status: WithdrawalStatus)
    requires RowOk(posted, id, w) && w.status.Held() && !w.status.InFlight()
    requires status.Failed? || status.Cancelled?
    ensures RowOk(posted + {ReleaseKey(id)}, id, w.(status := status))
    ensures OnlyKeysOf(posted, posted + {ReleaseKey(id)}, id)
  {}

  /** Returning a held reservation that was never recorded as broadcast. */
  lemma ReleaseKeeps(b: Books, id: WithdrawalId, l: Ledger, status: WithdrawalStatus)
    requires Inv(b) && id in b.withdrawals
    requires b.withdrawals[id].status.Held() && !b.withdrawals[id].status.InFlight()
    requires ReleaseIfReserved(b, id) == Ok(l)
    requires status.Failed? || status.Cancelled?
    ensures Inv(SetRow(b.(ledger := l), id, b.withdrawals[id].(status := status)))
  {
    var w := b.withdrawals[id];
    RowFact(b, id);
    ReleasedRow(b.ledger.posted.Keys, id, w, status);
    ReleaseLeg(b.ledger, l, id, w, status);
    RowStep(b, l, id, w.(status := status));
  }

  lemma CancelKeeps(b: Books, id: WithdrawalId)
    requires Inv(b) && Cancel(b, id).Ok?
    ensures Inv(Cancel(b, id).value)
  {
    RowFact(b, id);
    ReleaseKeeps(b, id, ReleaseIfReserved(b, id).value, Cancelled);
  }

  // ----------------------------------------------------------------- pipeline steps ---

  lemma SignKeeps(b: Books, id: WithdrawalId, hint: nat, fee: nat)
    requires Inv(b) && Sign(b, id, hint, fee).Ok?
    ensures Inv(Sign(b, id, hint, fee).value)
  {
    var b', w := Sign(b, id, hint, fee).value, b.withdrawals[id];
    if w.status.Approved? {
      var w' := b'.withdrawals[id];
      RowFact(b, id);
      NothingMoves(b.ledger, id, w, w');
      RowStep(b, b.ledger, id, w');
    }
  }

  lemma BroadcastLeg(l: Ledger, l': Ledger, id: WithdrawalId, w: Withdrawal)
    requires Sound(l) && BroadcastKey(id) !in l.posted && w.status.Signing?
    requires RecordBroadcast(l, id, w.asset, w.amount) == Ok(l')
    ensures Sound(l') && l'.posted.Keys == l.posted.Keys + {BroadcastKey(id)}
    ensures MovesWith(l, l', id, Some(w), w.(status := WithdrawalStatus.Broadcast))
  {
    PairEffect(l, BroadcastKey(id), System(Clearing, w.asset), System(Custody, w.asset), w.amount);
    BroadcastMoves(l, l', id, w);
  }

  lemma BroadcastRow(posted: set<Key>, id: WithdrawalId, w: Withdrawal)
    requires RowOk(posted, id, w) && w.status.Signing?
    ensures BroadcastKey(id) !in posted
    ensures RowOk(posted + {BroadcastKey(id)}, id, w.(status := WithdrawalStatus.Broadcast))
    ensures OnlyKeysOf(posted, posted + {BroadcastKey(id)}, id)
  {}

  lemma MarkBroadcastKeeps(b: Books, id: WithdrawalId)
    requires Inv(b) && MarkBroadcast(b, id).Ok?
    ensures Inv(MarkBroadcast(b, id).value)
  {
    var b', w := MarkBroadcast(b, id).value, b.withdrawals[id];
    if w.status.Signing? {
      RowFact(b, id);
      BroadcastRow(b.ledger.posted.Keys, id, w);
      BroadcastLeg(b.ledger, b'.ledger, id, w);
      RowStep(b, b'.ledger, id, w.(status := WithdrawalStatus.Broadcast));
    }
  }

  lemma NoteConfirmationsKeeps(b: Books, id: WithdrawalId)
    requires Inv(b)
    ensures Inv(NoteConfirmations(b, id))
  {
    if id in b.withdrawals && b.withdrawals[id].status.Broadcast? {
      var w := b.withdrawals[id];
      var w' := w.(status := WithdrawalStatus.Confirming);
      RowFact(b, id);
      NothingMoves(b.ledger, id, w, w');
      RowStep(b, b.ledger, id, w');
    }
  }

  lemma FailAndReleaseKeeps(b: Books, id: WithdrawalId)
    requires Inv(b) && FailAndRelease(b, id).Ok?
    ensures Inv(FailAndRelease(b, id).value)
  {
    var w := b.withdrawals[id];
    RowFact(b, id);
    if !w.status.Terminal() && !w.status.FundsMayHaveLeft() {
      ReleaseKeeps(b, id, ReleaseIfReserved(b, id).value, WithdrawalStatus.Failed);
    }
  }

  /** Neither a user account nor clearing differs. */
  ghost predicate SameLiabilities(l: Ledger, l': Ledger) {
    forall x: Account :: x.User? || x.skind.Clearing? ==> Balance(l', x) == Balance(l, x)
  }

  /** Booking gas is refused exactly when custody of the native asset is short of it. */
  lemma FeeEffect(l: Ledger, id: WithdrawalId, native: Option<AssetId>, fee: nat)
    requires Sound(l) && FeeKey(id) !in l.posted.Keys
    ensures BookFee(l, id, native, fee).Ok? <==>
      native.None? || fee == 0 || (fee <= MAX_AMOUNT && Balance(l, System(Custody, native.value)) >= fee)
    ensures BookFee(l, id, native, fee).Ok? ==>
      var l' := BookFee(l, id, native, fee).value;
      && Sound(l') && SameLiabilities(l, l')
      && (l'.posted.Keys == l.posted.Keys || l'.posted.Keys == l.posted.Keys + {FeeKey(id)})
  {
    if native.Some? && fee > 0 {
      var x, y := System(NetworkFee, native.value), System(Custody, native.value);
      assert Balance(l, x) >= 0;
      PairEffect(l, FeeKey(id), x, y, fee);
    }
  }

  /** Reserved and clearing both fall by the amount; with the reservation there, nothing refuses it. */
  lemma SettleLeg(l: Ledger, id: WithdrawalId, w: Withdrawal)
    requires Sound(l) && SettleKey(id) !in l.posted && IsPositive(w.amount) && w.status.InFlight()
    requires Balance(l, User(Reserved, w.user, w.asset)) >= w.amount
    ensures var r := SettleWithdrawal(l, id, w.user, w.asset, w.amount);
      && r.Ok? && Sound(r.value) && r.value.posted.Keys == l.posted.Keys + {SettleKey(id)}
      && MovesWith(l, r.value, id, Some(w), w.(status := Completed))
      && forall a :: Balance(r.value, System(Custody, a)) == Balance(l, System(Custody, a))
  {
    PairEffect(l, SettleKey(id), User(Reserved, w.user, w.asset), System(Clearing, w.asset), w.amount);
    SettleMoves(l, SettleWithdrawal(l, id, w.user, w.asset, w.amount).value, id, w);
  }

  lemma ThenFee(l: Ledger, l1: Ledger, l2: Ledger, id: WithdrawalId, w: Withdrawal, w': Withdrawal)
    requires MovesWith(l, l1, id, Some(w), w') && SameLiabilities(l1, l2)
    ensures MovesWith(l, l2, id, Some(w), w')
  {
    forall u, a { EquitySame(l1, l2, u, a); }
  }

  lemma EquitySame(l1: Ledger, l2: Ledger, u: UserId, a: AssetId)
    requires SameLiabilities(l1, l2)
    ensures Equity(l1, u, a) == Equity(l2, u, a)
  {}

  lemma SettledRow(posted: set<Key>, after: set<Key>, id: WithdrawalId, w: Withdrawal)
    requires RowOk(posted, id, w) && w.status.InFlight()
    requires after == posted + {SettleKey(id)} || after == posted + {SettleKey(id)} + {FeeKey(id)}
    ensures RowOk(after, id, w.(status := Completed)) && OnlyKeysOf(posted, after, id)
  {}

  lemma FeeStillFresh(posted: set<Key>, after: set<Key>, id: WithdrawalId)
    requires FeeKey(id) !in posted
    requires after == posted + {SettleKey(id)} || after == posted + {BroadcastReversalKey(id)} + {ReleaseKey(id)}
    ensures FeeKey(id) !in after
  {}

  lemma FreshSettleKeys(posted: set<Key>, id: WithdrawalId, w: Withdrawal)
    requires RowOk(posted, id, w) && w.status.InFlight()
    ensures IsPositive(w.amount)
    ensures SettleKey(id) !in posted && FeeKey(id) !in posted && ReleaseKey(id) !in posted
    ensures BroadcastReversalKey(id) !in posted
  {}

  lemma SettleSuccessKeeps(b: Books, id: WithdrawalId, native: Option<AssetId>, fee: nat)
    requires Inv(b) && SettleSuccess(b, id, native, fee).Ok?
    ensures Inv(SettleSuccess(b, id, native, fee).value)
  {
    var b', w := SettleSuccess(b, id, native, fee).value, b.withdrawals[id];
    if !w.status.Completed? {
      RowFact(b, id);
      ReservationIsThere(b, id);
      FreshSettleKeys(b.ledger.posted.Keys, id, w);
      SettleLeg(b.ledger, id, w);
      var l := SettleWithdrawal(b.ledger, id, w.user, w.asset, w.amount).value;
      FeeStillFresh(b.ledger.posted.Keys, l.posted.Keys, id);
      FeeEffect(l, id, native, fee);
      ThenFee(b.ledger, l, b'.ledger, id, w, w.(status := Completed));
      SettledRow(b.ledger.posted.Keys, b'.ledger.posted.Keys, id, w);
      RowStep(b, b'.ledger, id, w.(status := Completed));
    }
  }

  lemma UnwindLeg(l: Ledger, id: WithdrawalId, w: Withdrawal)
    requires Sound(l) && BroadcastReversalKey(id) !in l.posted && IsPositive(w.amount)
    ensures var r := ReverseBroadcast(l, id, w.asset, w.amount);
      && r.Ok? && Sound(r.value) && r.value.posted.Keys == l.posted.Keys + {BroadcastReversalKey(id)}
      && Moves(l, r.value, BroadcastReversalKey(id), System(Custody, w.asset), w.amount, System(Clearing, w.asset),
           -w.amount)
  {
    assert Balance(l, System(Custody, w.asset)) >= 0;
    PairEffect(l, BroadcastReversalKey(id), System(Custody, w.asset), System(Clearing, w.asset), w.amount);
  }

  lemma ReturnLeg(l: Ledger, id: WithdrawalId, w: Withdrawal)
    requires Sound(l) && ReleaseKey(id) !in l.posted && IsPositive(w.amount)
    requires Balance(l, User(Reserved, w.user, w.asset)) >= w.amount
    ensures var r := ReleaseReservation(l, id, w.user, w.asset, w.amount);
      && r.Ok? && Sound(r.value) && r.value.posted.Keys == l.posted.Keys + {ReleaseKey(id)}
      && Moves(l, r.value, ReleaseKey(id), User(Reserved, w.user, w.asset), -w.amount, User(Available, w.user, w.asset),
           w.amount)
  {
    assert Balance(l, User(Available, w.user, w.asset)) >= 0;
    PairEffect(l, ReleaseKey(id), User(Reserved, w.user, w.asset), User(Available, w.user, w.asset), w.amount);
  }

  /** Custody of every asset after the broadcast leg is undone. */
  ghost predicate CustodyBack(l: Ledger, l': Ledger, w: Withdrawal) {
    forall a {:trigger System(Custody, a)} ::
      Balance(l', System(Custody, a)) == Balance(l, System(Custody, a)) + if a == w.asset then w.amount else 0
  }

  lemma StillReserved(l: Ledger, l1: Ledger, id: WithdrawalId, w: Withdrawal)
    requires Moves(l, l1, BroadcastReversalKey(id), System(Custody, w.asset), w.amount, System(Clearing, w.asset),
        -w.amount)
    ensures Balance(l1, User(Reserved, w.user, w.asset)) == Balance(l, User(Reserved, w.user, w.asset))
    ensures CustodyBack(l, l1, w)
  {}

  lemma CustodyKept(l: Ledger, l1: Ledger, l2: Ledger, id: WithdrawalId, w: Withdrawal)
    requires CustodyBack(l, l1, w)
    requires Moves(l1, l2, ReleaseKey(id), User(Reserved, w.user, w.asset), -w.amount, User(Available, w.user, w.asset),
        w.amount)
    ensures CustodyBack(l, l2, w)
  {}

  /** Undoing the broadcast leg and returning the reservation: neither can be refused. */
  lemma Unwind(l: Ledger, id: WithdrawalId, w: Withdrawal) returns (l': Ledger)
    requires Sound(l) && IsPositive(w.amount) && w.status.InFlight()
    requires BroadcastReversalKey(id) !in l.posted && ReleaseKey(id) !in l.posted
    requires Balance(l, User(Reserved, w.user, w.asset)) >= w.amount
    ensures Unwound(l, id, w) == Ok(l') && Sound(l')
    ensures l'.posted.Keys == l.posted.Keys + {BroadcastReversalKey(id)} + {ReleaseKey(id)}
    ensures MovesWith(l, l', id, Some(w), w.(status := WithdrawalStatus.Failed))
    ensures CustodyBack(l, l', w)
  {
    UnwindLeg(l, id, w);
    var l1 := ReverseBroadcast(l, id, w.asset, w.amount).value;
    StillReserved(l, l1, id, w);
    ReturnLeg(l1, id, w);
    l' := ReleaseReservation(l1, id, w.user, w.asset, w.amount).value;
    UnwindMoves(l, l1, l', id, w);
    CustodyKept(l, l1, l', id, w);
  }

  lemma RevertedRow(posted: set<Key>, after: set<Key>, id: WithdrawalId, w: Withdrawal)
    requires RowOk(posted, id, w) && w.status.InFlight()
    requires || after == posted + {BroadcastReversalKey(id)} + {ReleaseKey(id)}
             || after == posted + {BroadcastReversalKey(id)} + {ReleaseKey(id)} + {FeeKey(id)}
    ensures RowOk(after, id, w.(status := WithdrawalStatus.Failed)) && OnlyKeysOf(posted, after, id)
  {}

  lemma FailureStep(b: Books, id: WithdrawalId, l: Ledger, l': Ledger)
    requires Inv(b) && id in b.withdrawals && b.withdrawals[id].status.InFlight()
    requires l.posted.Keys == b.ledger.posted.Keys + {BroadcastReversalKey(id)} + {ReleaseKey(id)}
    requires MovesWith(b.ledger, l, id, RowAt(b, id), b.withdrawals[id].(status := WithdrawalStatus.Failed))
    requires Sound(l') && SameLiabilities(l, l')
    requires l'.posted.Keys == l.posted.Keys || l'.posted.Keys == l.posted.Keys + {FeeKey(id)}
    ensures Inv(SetRow(b.(ledger := l'), id, b.withdrawals[id].(status := WithdrawalStatus.Failed)))
  {
    var w := b.withdrawals[id];
    RowFact(b, id);
    ThenFee(b.ledger, l, l', id, w, w.(status := WithdrawalStatus.Failed));
    RevertedRow(b.ledger.posted.Keys, l'.posted.Keys, id, w);
    RowStep(b, l', id, w.(status := WithdrawalStatus.Failed));
  }

  /** A reverted withdrawal's unwinding goes through, and only the gas can then be refused. */
  lemma UnwindThenFee(l: Ledger, id: WithdrawalId, w: Withdrawal, native: Option<AssetId>, fee: nat)
    returns (l1: Ledger)
    requires Sound(l) && RowOk(l.posted.Keys, id, w) && w.status.InFlight()
    requires Balance(l, User(Reserved, w.user, w.asset)) >= w.amount
    ensures Unwound(l, id, w) == Ok(l1)
    ensures l1.posted.Keys == l.posted.Keys + {BroadcastReversalKey(id)} + {ReleaseKey(id)}
    ensures MovesWith(l, l1, id, Some(w), w.(status := WithdrawalStatus.Failed))
    ensures BookFee(l1, id, native, fee).Ok? <==>
      || native.None? || fee == 0
      || (fee <= MAX_AMOUNT
          && Balance(l, System(Custody, native.value)) + (if native.value == w.asset then w.amount else 0) >= fee)
    ensures BookFee(l1, id, native, fee).Ok? ==>
      var l2 := BookFee(l1, id, native, fee).value;
      && Sound(l2) && SameLiabilities(l1, l2)
      && (l2.posted.Keys == l1.posted.Keys || l2.posted.Keys == l1.posted.Keys + {FeeKey(id)})
  {
    FreshSettleKeys(l.posted.Keys, id, w);
    l1 := Unwind(l, id, w);
    FeeStillFresh(l.posted.Keys, l1.posted.Keys, id);
    FeeEffect(l1, id, native, fee);
  }

  lemma SettleFailureKeeps(b: Books, id: WithdrawalId, native: Option<AssetId>, fee: nat)
    requires Inv(b) && id in b.withdrawals && b.withdrawals[id].status.InFlight()
    requires SettleFailure(b, id, native, fee).Ok?
    ensures Inv(SettleFailure(b, id, native, fee).value)
  {
    RowFact(b, id);
    ReservationIsThere(b, id);
    var l := UnwindThenFee(b.ledger, id, b.withdrawals[id], native, fee);
    FailureStep(b, id, l, BookFee(l, id, native, fee).value);
  }

  // ------------------------------------------------------------------ deposit steps ---

  lemma NothingPaid(l: Ledger, d: DepositId, was: Option<Deposit>, dep: Deposit)
    requires !dep.status.Credited? && (was.Some? ==> !was.value.status.Credited?)
    ensures PaysIn(l, l, d, was, dep)
  {}

  lemma ObserveKeeps(b: Books, d: DepositId, u: UserId, a: AssetId, amount: int)
    requires Inv(b) && ObserveDeposit(b, d, u, a, amount).Ok?
    ensures Inv(ObserveDeposit(b, d, u, a, amount).value)
  {
    if d !in b.deposits {
      var dep := Deposit(u, a, amount, Observed);
      DepositFact(b, d);
      NothingPaid(b.ledger, d, None, dep);
      DepositStep(b, b.ledger, d, dep);
    }
  }

  lemma ConfirmKeeps(b: Books, d: DepositId, final: bool)
    requires Inv(b)
    ensures Inv(ConfirmDeposit(b, d, final))
  {
    var b' := ConfirmDeposit(b, d, final);
    if d in b.deposits && b'.deposits[d] != b.deposits[d] {
      DepositFact(b, d);
      NothingPaid(b.ledger, d, Some(b.deposits[d]), b'.deposits[d]);
      DepositStep(b, b.ledger, d, b'.deposits[d]);
    }
  }

  lemma CreditLeg(l: Ledger, l': Ledger, d: DepositId, dep: Deposit)
    requires Sound(l) && CreditKey(d) !in l.posted && dep.status.Confirmed?
    requires CreditDeposit(l, d, dep.user, dep.asset, dep.amount) == Ok(l')
    ensures Sound(l') && l'.posted.Keys == l.posted.Keys + {CreditKey(d)}
    ensures PaysIn(l, l', d, Some(dep), dep.(status := Credited))
  {
    PairEffect(l, CreditKey(d), System(Custody, dep.asset), User(Available, dep.user, dep.asset), dep.amount);
    CreditMoves(l, l', d, dep);
  }

  lemma CreditKeeps(b: Books, d: DepositId)
    requires Inv(b) && CreditConfirmed(b, d).Ok?
    ensures Inv(CreditConfirmed(b, d).value)
  {
    var b', dep := CreditConfirmed(b, d).value, b.deposits[d];
    if dep.status.Confirmed? {
      DepositFact(b, d);
      CreditLeg(b.ledger, b'.ledger, d, dep);
      DepositStep(b, b'.ledger, d, dep.(status := Credited));
    }
  }

  lemma ReversalLeg(l: Ledger, l': Ledger, d: DepositId, dep: Deposit)
    requires Sound(l) && ReversalKey(d) !in l.posted && dep.status.Credited?
    requires ReverseDepositCredit(l, d, dep.user, dep.asset, dep.amount) == Ok(l')
    ensures Sound(l') && l'.posted.Keys == l.posted.Keys + {ReversalKey(d)}
    ensures PaysIn(l, l', d, Some(dep), dep.(status := Reorged))
  {
    ReversalKeepsSound(l, d, dep.user, dep.asset, dep.amount);
    ReversalEffect(l, d, dep.user, dep.asset, dep.amount);
    ReversalMoves(l, l', d, dep);
  }

  lemma ReorgKeeps(b: Books, d: DepositId)
    requires Inv(b) && ReorgDeposit(b, d).Ok?
    ensures Inv(ReorgDeposit(b, d).value)
  {
    var b' := ReorgDeposit(b, d).value;
    if d in b.deposits && !b.deposits[d].status.Reorged? {
      var dep := b.deposits[d];
      DepositFact(b, d);
      if dep.status.Credited? {
        ReversalLeg(b.ledger, b'.ledger, d, dep);
      } else {
        NothingPaid(b.ledger, d, Some(dep), dep.(status := Reorged));
      }
      DepositStep(b, b'.ledger, d, dep.(status := Reorged));
    }
  }

  lemma {:induction false} ReorgAllKeeps(b: Books, ds: seq<DepositId>)
    requires Inv(b) && ReorgDeposits(b, ds).Ok?
    ensures Inv(ReorgDeposits(b, ds).value)
  {
    if ds != [] {
      ReorgAllKeeps(b, ds[..|ds| - 1]);
      ReorgKeeps(ReorgDeposits(b, ds[..|ds| - 1]).value, ds[|ds| - 1]);
    }
  }

  lemma FundLeg(l: Ledger, l': Ledger, a: AssetId, amount: int, reference: string)
    requires Sound(l) && FundCustody(l, a, amount, reference) == Ok(l')
    ensures Sound(l') && SameLiabilities(l, l')
    ensures l'.posted.Keys == l.posted.Keys || l'.posted.Keys == l.posted.Keys + {FundingKey(reference)}
  {
    PairEffect(l, FundingKey(reference), System(Custody, a), System(Treasury, a), amount);
  }

  lemma FundKeeps(b: Books, a: AssetId, amount: int, reference: string)
    requires Inv(b) && Fund(b, a, amount, reference).Ok?
    ensures Inv(Fund(b, a, amount, reference).value)
  {
    var b' := Fund(b, a, amount, reference).value;
    FundLeg(b.ledger, b'.ledger, a, amount, reference);
    SameRows(b, b', reference);
    forall u, x { EquitySame(b.ledger, b'.ledger, u, x); }
  }

  lemma SameRows(b: Books, b': Books, reference: string)
    requires RowsOk(b) && DepositsOk(b) && b'.withdrawals == b.withdrawals && b'.deposits == b.deposits
    requires b.ledger.posted.Keys <= b'.ledger.posted.Keys <= b.ledger.posted.Keys + {FundingKey(reference)}
    ensures RowsOk(b') && DepositsOk(b')
  {
    var posted, posted' := b.ledger.posted.Keys, b'.ledger.posted.Keys;
    forall j | j in b'.withdrawals ensures RowOk(posted', j, b'.withdrawals[j]) {
      assert RowOk(posted, j, b.withdrawals[j]);
    }
    forall j | j !in b'.withdrawals ensures NoKeys(posted', j) {
      assert NoKeys(posted, j);
    }
    forall d | d in b'.deposits ensures DepositOk(posted', d, b'.deposits[d]) {
      assert DepositOk(posted, d, b.deposits[d]);
    }
  }
}
