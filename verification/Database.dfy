/** The tables as mutable state, with ledger postings that update them entry by entry. */
module Database {
  import opened Prelude
  import opened Ledger
  import opened LedgerLaws
  import opened Posting
  import opened Books
  import opened Blocks
  import opened Watcher

  /**
   * The outcome of an update inside a transaction, as the ledger function has it. After an error the
   * caller rolls back.
   */
  ghost predicate Follows(r: Result<()>, spec: Result<Ledger>, now: Ledger) {
    match spec
    case Ok(l) => r.Ok? && now == l
    case Err(e) => r == Err(e)
  }

  /** Accounts whose balance grows with debits: what the house holds or is owed. */
  predicate DebitNormal(a: Account) {
    match a
    case System(kind, _) => kind.Custody? || kind.Clearing? || kind.NetworkFee?
    case User(kind, _, _) => kind.Deficit?
  }

  /** The accounts the schema lets below zero. */
  predicate MayGoNegative(a: Account) { a.System? && (a.skind.Clearing? || a.skind.Treasury?) }

  /** The balance the trigger computes for an inserted entry. */
  function Triggered(balances: map<Account, int>, e: Entry): int {
    Bal(balances, e.account) + if DebitNormal(e.account) == e.direction.Debit? then e.amount else -e.amount
  }

  /** An accepted posting moved exactly two balances if its key was new, and nothing if it was a replay. */
  ghost predicate Posts(
      r: Result<()>, key: Key, before: Ledger, now: Ledger, x: Account, dx: int, y: Account, dy: int) {
    r.Ok? ==> if key in before.posted then now == before else Moves(before, now, key, x, dx, y, dy)
  }

  /** A whole transaction: it commits what the function says, or fails and changes nothing. */
  ghost predicate Commits(r: Result<()>, spec: Result<Tables>, before: Tables, after: Tables) {
    match spec
    case Ok(t) => r.Ok? && after == t
    case Err(e) => r == Err(e) && after == before
  }

  function OnBooks(s: Store, r: Result<Books>): Result<Tables> {
    match r
    case Ok(b) => Ok(Tables(s, b))
    case Err(e) => Err(e)
  }

  class Db {
    /** Account ids are assigned at creation; postings are sorted by them. */
    const rank: Account -> int
    var balances: map<Account, int>
    var posted: map<Key, multiset<Entry>>
    var withdrawals: map<WithdrawalId, Withdrawal>
    var byKey: map<(UserId, string), WithdrawalId>
    var nonces: map<ChainId, nat>
    var deposits: map<DepositId, Deposit>
    var canonical: map<nat, Block>
    var cursor: Option<Cursor>
    var transfers: map<DepositId, TransferRow>

    function LedgerNow(): Ledger
      reads this
    {
      Ledger(balances, posted)
    }

    function BooksNow(): Books
      reads this
    {
      Books(LedgerNow(), withdrawals, byKey, nonces, deposits)
    }

    function StoreNow(): Store
      reads this
    {
      Store(canonical, cursor, transfers)
    }

    function Now(): Tables
      reads this
    {
      Tables(StoreNow(), BooksNow())
    }

    constructor (rank: Account -> int)
      ensures Now() == Tables(Store(map[], None, map[]), NO_BOOKS)
    {
      this.rank := rank;
      balances, posted, withdrawals, byKey, nonces, deposits := map[], map[], map[], map[], map[], map[];
      canonical, cursor, transfers := map[], None, map[];
    }

    method Rollback(t: Tables)
      modifies this
      ensures Now() == t
    {
      balances, posted := t.books.ledger.balances, t.books.ledger.posted;
      withdrawals, byKey, nonces, deposits := t.books.withdrawals, t.books.byKey, t.books.nonces, t.books.deposits;
      canonical, cursor, transfers := t.store.canonical, t.store.cursor, t.store.transfers;
    }

    // ------------------------------------------------------------------------ ledger ---

    /** The balance trigger on one inserted entry. */
    method InsertLedgerEntry(e: Entry) returns (r: Result<()>)
      modifies this`balances
      ensures match InsertEntry(old(balances), e)
              case Ok(b) => r.Ok? && balances == b
              case Err(x) => r == Err(x)
      ensures r.Ok? <==> MayGoNegative(e.account) || Triggered(old(balances), e) >= 0
      ensures balances == if r.Ok? then old(balances)[e.account := Triggered(old(balances), e)] else old(balances)
    {
      if !Accepts(balances, e) {
        return Err(NegativeBalance);
      }
      balances := balances[e.account := Bal(balances, e.account) + e.Delta()];
      return Ok(());
    }

    /** The entry loop of `post_transaction`; it stops at the first entry the trigger refuses. */
    method InsertEntries(es: seq<Entry>) returns (r: Result<()>)
      modifies this`balances
      ensures match InsertAll(old(balances), es)
              case Ok(b) => r.Ok? && balances == b
              case Err(x) => r == Err(x)
    {
      for i := 0 to |es|
        invariant InsertAll(old(balances), es[..i]) == Ok(balances)
      {
        assert es[..i + 1][..i] == es[..i];
        var inserted := InsertLedgerEntry(es[i]);
        if inserted.Err? {
          RefusalSticks(old(balances), es, i + 1);
          return inserted;
        }
      }
      assert es[..|es|] == es;
      return Ok(());
    }

    /** `post_transaction`. */
    method PostTransaction(key: Key, es: seq<Entry>) returns (r: Result<()>)
      modifies this`balances, this`posted
      ensures Follows(r, PostSorted(rank, old(LedgerNow()), key, es), LedgerNow())
    {
      var problem := CheckPosting(key, es);
      if problem.Some? {
        return Err(problem.value);
      }
      if key in posted {
        return Ok(());
      }
      posted := posted[key := multiset(es)];
      var sorted := OrderedEntries(rank, es);
      r := InsertEntries(sorted);
    }

    /** Two legs of one amount; every domain posting but one has this shape. */
    method PostTwoLegs(key: Key, debit: Account, credit: Account, amount: int) returns (r: Result<()>)
      requires debit != credit && debit.asset == credit.asset
      modifies this`balances, this`posted
      ensures Follows(r, PostPair(old(LedgerNow()), key, debit, credit, amount), LedgerNow())
      ensures Posts(r, key, old(LedgerNow()), LedgerNow(),
                    debit, Entry(debit, amount, Debit).Delta(), credit, Entry(credit, amount, Credit).Delta())
    {
      PairEffect(LedgerNow(), key, debit, credit, amount);
      if !IsPositive(amount) {
        return Err(InvalidAmount);
      }
      SortedIsBuilderOrder(rank, LedgerNow(), key, Pair(debit, credit, amount));
      r := PostTransaction(key, Pair(debit, credit, amount));
    }

    method PostDepositCredit(d: DepositId, u: UserId, a: AssetId, amount: int) returns (r: Result<()>)
      modifies this`balances, this`posted
      ensures Follows(r, CreditDeposit(old(LedgerNow()), d, u, a, amount), LedgerNow())
      ensures Posts(r, CreditKey(d), old(LedgerNow()), LedgerNow(), System(Custody, a), amount, User(Available, u, a),
          amount)
    {
      r := PostTwoLegs(CreditKey(d), System(Custody, a), User(Available, u, a), amount);
    }

    /** `reverse_deposit_credit`: take back what is spendable and book the rest as a deficit. */
    method PostDepositReversal(d: DepositId, u: UserId, a: AssetId, amount: int) returns (r: Result<()>)
      modifies this`balances, this`posted
      ensures Follows(r, ReverseDepositCredit(old(LedgerNow()), d, u, a, amount), LedgerNow())
    {
      if !IsPositive(amount) {
        return Err(InvalidAmount);
      }
      var current := Bal(balances, User(Available, u, a));
      var taken := if current >= amount then amount else if current > 0 then current else 0;
      var shortfall := amount - taken;
      var es := [Entry(System(Custody, a), amount, Credit)];
      if taken > 0 {
        es := es + [Entry(User(Available, u, a), taken, Debit)];
      }
      if shortfall > 0 {
        es := es + [Entry(User(Deficit, u, a), shortfall, Debit)];
      }
      ReversalOrder(rank, LedgerNow(), d, u, a, amount, es);
      r := PostTransaction(ReversalKey(d), es);
    }

    /** `reserve_withdrawal`: lock the spendable account, check, post. */
    method PostReservation(w: WithdrawalId, u: UserId, a: AssetId, amount: int) returns (r: Result<()>)
      modifies this`balances, this`posted
      ensures Follows(r, ReserveWithdrawal(old(LedgerNow()), w, u, a, amount), LedgerNow())
      ensures Posts(r, ReserveKey(w), old(LedgerNow()), LedgerNow(), User(Available, u, a), -amount,
          User(Reserved, u, a), amount)
    {
      if !IsPositive(amount) {
        return Err(InvalidAmount);
      }
      var current := Bal(balances, User(Available, u, a));
      if current < amount {
        return Err(InsufficientBalance);
      }
      r := PostTwoLegs(ReserveKey(w), User(Available, u, a), User(Reserved, u, a), amount);
    }

    method PostRelease(w: WithdrawalId, u: UserId, a: AssetId, amount: int) returns (r: Result<()>)
      modifies this`balances, this`posted
      ensures Follows(r, ReleaseReservation(old(LedgerNow()), w, u, a, amount), LedgerNow())
      ensures Posts(r, ReleaseKey(w), old(LedgerNow()), LedgerNow(), User(Reserved, u, a), -amount,
          User(Available, u, a), amount)
    {
      r := PostTwoLegs(ReleaseKey(w), User(Reserved, u, a), User(Available, u, a), amount);
    }

    method PostBroadcast(w: WithdrawalId, a: AssetId, amount: int) returns (r: Result<()>)
      modifies this`balances, this`posted
      ensures Follows(r, RecordBroadcast(old(LedgerNow()), w, a, amount), LedgerNow())
      ensures Posts(r, BroadcastKey(w), old(LedgerNow()), LedgerNow(), System(Clearing, a), amount, System(Custody, a),
          -amount)
    {
      r := PostTwoLegs(BroadcastKey(w), System(Clearing, a), System(Custody, a), amount);
    }

    method PostSettlement(w: WithdrawalId, u: UserId, a: AssetId, amount: int) returns (r: Result<()>)
      modifies this`balances, this`posted
      ensures Follows(r, SettleWithdrawal(old(LedgerNow()), w, u, a, amount), LedgerNow())
      ensures Posts(r, SettleKey(w), old(LedgerNow()), LedgerNow(), User(Reserved, u, a), -amount, System(Clearing, a),
          -amount)
    {
      r := PostTwoLegs(SettleKey(w), User(Reserved, u, a), System(Clearing, a), amount);
    }

    method PostBroadcastReversal(w: WithdrawalId, a: AssetId, amount: int) returns (r: Result<()>)
      modifies this`balances, this`posted
      ensures Follows(r, ReverseBroadcast(old(LedgerNow()), w, a, amount), LedgerNow())
      ensures Posts(r, BroadcastReversalKey(w), old(LedgerNow()), LedgerNow(), System(Custody, a), amount,
          System(Clearing, a), -amount)
    {
      r := PostTwoLegs(BroadcastReversalKey(w), System(Custody, a), System(Clearing, a), amount);
    }

    /** `record_network_fee`, in the chain's native asset when that is registered. */
    method PostFee(w: WithdrawalId, native: Option<AssetId>, fee: nat) returns (r: Result<()>)
      modifies this`balances, this`posted
      ensures Follows(r, BookFee(old(LedgerNow()), w, native, fee), LedgerNow())
      ensures native.Some? && fee > 0 ==>
        Posts(r, FeeKey(w), old(LedgerNow()), LedgerNow(), System(NetworkFee, native.value), fee,
            System(Custody, native.value), -(fee as int))
    {
      if native.None? || fee == 0 {
        return Ok(());
      }
      r := PostTwoLegs(FeeKey(w), System(NetworkFee, native.value), System(Custody, native.value), fee);
    }

    method PostFunding(a: AssetId, amount: int, reference: string) returns (r: Result<()>)
      modifies this`balances, this`posted
      ensures Follows(r, FundCustody(old(LedgerNow()), a, amount, reference), LedgerNow())
      ensures Posts(r, FundingKey(reference), old(LedgerNow()), LedgerNow(), System(Custody, a), amount,
          System(Treasury, a), amount)
    {
      r := PostTwoLegs(FundingKey(reference), System(Custody, a), System(Treasury, a), amount);
    }
  }

  lemma ReversalOrder(rank: Account -> int, l: Ledger, d: DepositId, u: UserId, a: AssetId, amount: int, es: seq<Entry>)
    requires es == ReversalEntries(l, u, a, amount)
    ensures PostSorted(rank, l, ReversalKey(d), es) == Post(l, ReversalKey(d), ReversalEntries(l, u, a, amount))
  {
    assert DistinctAccounts(es);
    SortedIsBuilderOrder(rank, l, ReversalKey(d), es);
  }

  lemma {:induction false} RefusalSticks(b: map<Account, int>, es: seq<Entry>, i: nat)
    requires i <= |es| && InsertAll(b, es[..i]).Err?
    ensures InsertAll(b, es) == InsertAll(b, es[..i])
  {
    if i == |es| {
      assert es[..i] == es;
    } else {
      assert es[..|es| - 1][..i] == es[..i];
      RefusalSticks(b, es[..|es| - 1], i);
    }
  }
}
