/** The withdrawal transactions on the tables: the service calls and the pipeline's settle and fail steps. */
module WithdrawalOps {
  import opened Prelude
  import opened Ledger
  import opened Books
  import opened Watcher
  import opened Database

  /** `WithdrawalService::create` from the idempotent insert on, with the risk decision given. */
  method CreateWithdrawal(db: Db, id: WithdrawalId, q: Request, decision: Decision) returns (r: Result<Created>)
    modifies db
    ensures match Create(old(db.BooksNow()), id, q, decision)
            case Ok(p) => r == Ok(p.1) && db.Now() == Tables(old(db.StoreNow()), p.0)
            case Err(e) => r == Err(e) && db.Now() == old(db.Now())
  {
    if !IsPositive(q.amount) {
      return Err(InvalidAmount);
    }
    if |q.idempotencyKey| < 8 || |q.idempotencyKey| > 128 {
      return Err(Validation);
    }
    var start := db.Now();
    var slot := (q.user, q.idempotencyKey);
    if slot in db.byKey {
      var existing := db.byKey[slot];
      if existing !in db.withdrawals {
        return Err(Internal);
      }
      if !SameBody(db.withdrawals[existing], q) {
        return Err(IdempotencyKeyConflict);
      }
      return Ok(Existing(existing));
    }
    if id in db.withdrawals {
      return Err(Conflict);
    }
    db.withdrawals, db.byKey := db.withdrawals[id := NewRow(q, Requested, false)], db.byKey[slot := id];
    if decision.Deny? {
      db.withdrawals := db.withdrawals[id := NewRow(q, WithdrawalStatus.Failed, false)];
      assert db.withdrawals == start.books.withdrawals[id := NewRow(q, WithdrawalStatus.Failed, false)];
      return Ok(Denied(id));
    }
    var admitted := AdmitWithdrawal(db, start, id, q, decision.ManualApproval?);
    return if admitted.Ok? then Ok(New(id)) else Err(admitted.error);
  }

  /** The rest of `create` for a request the policy allows: validate, reserve, and approve unless held. */
  method AdmitWithdrawal(db: Db, start: Tables, id: WithdrawalId, q: Request, held: bool) returns (r: Result<()>)
    requires db.Now() == start.(books := Insert(start.books, id, q, Requested, false))
    modifies db
    ensures match ReserveWithdrawal(start.books.ledger, id, q.user, q.asset, q.amount)
            case Ok(l) =>
              && r.Ok?
              && (var status := if held then Validated else Approved;
                  db.Now() == start.(books := Insert(start.books.(ledger := l), id, q, status, true)))
            case Err(e) => r == Err(e) && db.Now() == start
  {
    db.withdrawals := db.withdrawals[id := NewRow(q, Validated, false)];
    r := db.PostReservation(id, q.user, q.asset, q.amount);
    if r.Err? {
      db.Rollback(start);
      return;
    }
    var status := if held then Validated else Approved;
    db.withdrawals := db.withdrawals[id := NewRow(q, status, true)];
    assert db.withdrawals == start.books.withdrawals[id := NewRow(q, status, true)];
  }

  /** `WithdrawalService::approve`. */
  method ApproveWithdrawal(db: Db, id: WithdrawalId) returns (r: Result<()>)
    modifies db
    ensures Commits(r, OnBooks(old(db.StoreNow()), Approve(old(db.BooksNow()), id)), old(db.Now()), db.Now())
    ensures r.Ok? <==> id in old(db.withdrawals) && old(db.withdrawals[id].status.Validated?)
    ensures r.Ok? ==> db.withdrawals == old(db.withdrawals)[id := old(db.withdrawals[id]).(status := Approved)]
  {
    if id !in db.withdrawals {
      return Err(NotFound);
    }
    var w := db.withdrawals[id];
    if !w.status.Validated? {
      return Err(InvalidStateTransition);
    }
    db.withdrawals := db.withdrawals[id := w.(status := Approved)];
    return Ok(());
  }

  /** `WithdrawalService::cancel`: release first, then the transition, which the schema may refuse. */
  method CancelWithdrawal(db: Db, id: WithdrawalId) returns (r: Result<()>)
    modifies db
    ensures Commits(r, OnBooks(old(db.StoreNow()), Cancel(old(db.BooksNow()), id)), old(db.Now()), db.Now())
  {
    if id !in db.withdrawals {
      return Err(NotFound);
    }
    var start, w := db.Now(), db.withdrawals[id];
    if w.status.FundsMayHaveLeft() || w.status.Terminal() {
      return Err(Conflict);
    }
    if w.reserved {
      var released := db.PostRelease(id, w.user, w.asset, w.amount);
      if released.Err? {
        db.Rollback(start);
        return released;
      }
    }
    if !w.status.CanBecome(Cancelled) {
      db.Rollback(start);
      return Err(InvalidStateTransition);
    }
    db.withdrawals := db.withdrawals[id := w.(status := Cancelled)];
    return Ok(());
  }

  /** `mark_broadcast`. */
  method RecordBroadcastOf(db: Db, id: WithdrawalId) returns (r: Result<()>)
    modifies db
    ensures Commits(r, OnBooks(old(db.StoreNow()), MarkBroadcast(old(db.BooksNow()), id)), old(db.Now()), db.Now())
  {
    if id !in db.withdrawals {
      return Err(NotFound);
    }
    var start, w := db.Now(), db.withdrawals[id];
    if !w.status.Signing? {
      return Ok(());
    }
    if w.txHash.None? {
      return Err(Conflict);
    }
    db.withdrawals := db.withdrawals[id := w.(status := WithdrawalStatus.Broadcast)];
    r := db.PostBroadcast(id, w.asset, w.amount);
    if r.Err? {
      db.Rollback(start);
    }
  }

  function Then(r: Result<Ledger>, id: WithdrawalId, native: Option<AssetId>, fee: nat): Result<Ledger> {
    match r
    case Ok(l) => BookFee(l, id, native, fee)
    case Err(e) => Err(e)
  }

  /** The ledger legs of `settle_success`. */
  method PostSettled(db: Db, id: WithdrawalId, w: Withdrawal, native: Option<AssetId>, fee: nat) returns (r: Result<()>)
    modifies db`balances, db`posted
    ensures Follows(r, Then(SettleWithdrawal(old(db.LedgerNow()), id, w.user, w.asset, w.amount), id, native, fee),
        db.LedgerNow())
  {
    r := db.PostSettlement(id, w.user, w.asset, w.amount);
    if r.Ok? {
      r := db.PostFee(id, native, fee);
    }
  }

  /** The ledger legs of `settle_failure`. */
  method PostUnwound(db: Db, id: WithdrawalId, w: Withdrawal, native: Option<AssetId>, fee: nat) returns (r: Result<()>)
    modifies db`balances, db`posted
    ensures Follows(r, Then(Unwound(old(db.LedgerNow()), id, w), id, native, fee), db.LedgerNow())
  {
    r := db.PostBroadcastReversal(id, w.asset, w.amount);
    if r.Ok? {
      r := db.PostRelease(id, w.user, w.asset, w.amount);
    }
    if r.Ok? {
      r := db.PostFee(id, native, fee);
    }
  }

  /** `settle_success`. */
  method SettleCompleted(db: Db, id: WithdrawalId, native: Option<AssetId>, fee: nat) returns (r: Result<()>)
    modifies db
    ensures Commits(r, OnBooks(old(db.StoreNow()), SettleSuccess(old(db.BooksNow()), id, native, fee)), old(db.Now()),
        db.Now())
  {
    if id !in db.withdrawals {
      return Err(NotFound);
    }
    var start, w := db.Now(), db.withdrawals[id];
    if w.status.Completed? {
      return Ok(());
    }
    if !w.status.FundsMayHaveLeft() {
      return Err(InvalidStateTransition);
    }
    r := PostSettled(db, id, w, native, fee);
    if r.Err? {
      db.Rollback(start);
      return;
    }
    db.withdrawals := db.withdrawals[id := w.(status := Completed)];
  }

  /** `settle_failure`. */
  method SettleReverted(db: Db, id: WithdrawalId, native: Option<AssetId>, fee: nat) returns (r: Result<()>)
    modifies db
    ensures Commits(r, OnBooks(old(db.StoreNow()), SettleFailure(old(db.BooksNow()), id, native, fee)), old(db.Now()),
        db.Now())
  {
    if id !in db.withdrawals {
      return Err(NotFound);
    }
    var start, w := db.Now(), db.withdrawals[id];
    if w.status.Terminal() {
      return Ok(());
    }
    r := PostUnwound(db, id, w, native, fee);
    if r.Err? {
      db.Rollback(start);
      return;
    }
    db.withdrawals := db.withdrawals[id := w.(status := WithdrawalStatus.Failed)];
  }

  /** `fail_and_release`. */
  method FailWithdrawal(db: Db, id: WithdrawalId) returns (r: Result<()>)
    modifies db
    ensures Commits(r, OnBooks(old(db.StoreNow()), FailAndRelease(old(db.BooksNow()), id)), old(db.Now()), db.Now())
  {
    if id !in db.withdrawals {
      return Err(NotFound);
    }
    var start, w := db.Now(), db.withdrawals[id];
    if w.status.Terminal() || w.status.FundsMayHaveLeft() {
      return Ok(());
    }
    if w.reserved {
      r := db.PostRelease(id, w.user, w.asset, w.amount);
      if r.Err? {
        db.Rollback(start);
        return;
      }
    }
    db.withdrawals := db.withdrawals[id := w.(status := WithdrawalStatus.Failed)];
    return Ok(());
  }
}
