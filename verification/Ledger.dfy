/** The double-entry ledger: postings, the balance trigger, and the nine domain postings. */
module Ledger {
  import opened Prelude

  type UserId = nat
  type AssetId = nat
  type ChainId = nat
  type WithdrawalId = nat

  /** One deposit per observed transfer, so the transfer's natural key names the deposit. */
  datatype DepositId = DepositId(chain: ChainId, txHash: nat, logIndex: int)

  /** Amounts are `i128` in memory. */
  const MAX_AMOUNT: int := 0x7FFF_FFFF_FFFF_FFFF_FFFF_FFFF_FFFF_FFFF
  const MIN_AMOUNT: int := -0x8000_0000_0000_0000_0000_0000_0000_0000

  predicate Fits(x: int) { MIN_AMOUNT <= x <= MAX_AMOUNT }

  /** `require_positive`; an integer outside `i128` is not an amount at all. */
  predicate IsPositive(amount: int) { 0 < amount <= MAX_AMOUNT }

  datatype Direction = Debit | Credit {
    function Sign(): int { if Debit? then 1 else -1 }
  }

  datatype UserKind = Available | Reserved | Deficit
  datatype SystemKind = Custody | Clearing | NetworkFee | Treasury

  /** An account is identified by its type, owner and asset (the unique indexes of the schema). */
  datatype Account =
    | User(ukind: UserKind, user: UserId, asset: AssetId)
    | System(skind: SystemKind, asset: AssetId)
  {
    function Normal(): Direction {
      match this
      case User(Deficit, _, _) => Debit
      case User(_, _, _) => Credit
      case System(Treasury, _) => Credit
      case System(_, _) => Debit
    }

    predicate AllowsNegative() { System? && (skind.Clearing? || skind.Treasury?) }
  }

  datatype Entry = Entry(account: Account, amount: int, direction: Direction) {
    /** What the balance trigger adds to the account's natural balance. */
    function Delta(): int { if direction == account.Normal() then amount else -amount }
    function Signed(): int { direction.Sign() * amount }
  }

  /** Idempotency keys, one constructor per key format. */
  datatype Key =
    | CreditKey(deposit: DepositId)
    | ReversalKey(deposit: DepositId)
    | ReserveKey(withdrawal: WithdrawalId)
    | ReleaseKey(withdrawal: WithdrawalId)
    | BroadcastKey(withdrawal: WithdrawalId)
    | SettleKey(withdrawal: WithdrawalId)
    | BroadcastReversalKey(withdrawal: WithdrawalId)
    | FeeKey(withdrawal: WithdrawalId)
    | FundingKey(reference: string)
  {
    /** Length of the rendered key: a fixed prefix and a 36-character UUID, or the reference. */
    function Length(): nat {
      match this
      case CreditKey(_) => 15 + 36
      case ReversalKey(_) => 17 + 36
      case ReserveKey(_) => 19 + 36
      case ReleaseKey(_) => 19 + 36
      case BroadcastKey(_) => 21 + 36
      case SettleKey(_) => 18 + 36
      case BroadcastReversalKey(_) => 30 + 36
      case FeeKey(_) => 12 + 36
      case FundingKey(r) => 16 + |r|
    }
  }

  datatype Ledger = Ledger(balances: map<Account, int>, posted: map<Key, multiset<Entry>>)

  const EMPTY: Ledger := Ledger(map[], map[])

  function Bal(b: map<Account, int>, a: Account): int { if a in b then b[a] else 0 }
  function Balance(l: Ledger, a: Account): int { Bal(l.balances, a) }

  // ------------------------------------------------------------- validation ---

  /** `Posting::net`: the running sum fails at the first step that leaves the `i128` range. */
  function Net(es: seq<Entry>): Result<int> {
    if es == [] then Ok(0)
    else
      match Net(es[..|es| - 1])
      case Err(e) => Err(e)
      case Ok(n) =>
        var signed := es[|es| - 1].Signed();
        if Fits(signed) && Fits(n + signed) then Ok(n + signed) else Err(AmountOverflow)
  }

  /** `Posting::validate`; the key is never blank because every format has a prefix. */
  function Validate(key: Key, es: seq<Entry>): Option<Error> {
    if key.Length() > 200 then Some(Validation)
    else if |es| < 2 then Some(Unbalanced)
    else if exists e :: e in es && e.amount <= 0 then Some(InvalidAmount)
    else
      match Net(es)
      case Err(e) => Some(e)
      case Ok(n) => if n != 0 then Some(Unbalanced) else None
  }

  // ----------------------------------------------------------- posting entries ---

  predicate Accepts(b: map<Account, int>, e: Entry) {
    e.account.AllowsNegative() || Bal(b, e.account) + e.Delta() >= 0
  }

  /** The balance trigger and the non-negative CHECK, for one inserted entry. */
  function InsertEntry(b: map<Account, int>, e: Entry): Result<map<Account, int>> {
    if Accepts(b, e) then Ok(b[e.account := Bal(b, e.account) + e.Delta()]) else Err(NegativeBalance)
  }

  function InsertAll(b: map<Account, int>, es: seq<Entry>): Result<map<Account, int>> {
    if es == [] then Ok(b)
    else
      match InsertAll(b, es[..|es| - 1])
      case Err(e) => Err(e)
      case Ok(m) => InsertEntry(m, es[|es| - 1])
  }

  /** `post_transaction`: a key that was posted before writes nothing. */
  function Post(l: Ledger, key: Key, es: seq<Entry>): Result<Ledger> {
    match Validate(key, es)
    case Some(e) => Err(e)
    case None =>
      if key in l.posted then Ok(l)
      else
        match InsertAll(l.balances, es)
        case Err(e) => Err(e)
        case Ok(b) => Ok(Ledger(b, l.posted[key := multiset(es)]))
  }

  // ------------------------------------------------------------ domain postings ---

  function Pair(debit: Account, credit: Account, amount: int): seq<Entry> {
    [Entry(debit, amount, Debit), Entry(credit, amount, Credit)]
  }

  function PostPair(l: Ledger, key: Key, debit: Account, credit: Account, amount: int): Result<Ledger> {
    if !IsPositive(amount) then Err(InvalidAmount) else Post(l, key, Pair(debit, credit, amount))
  }

  function CreditDeposit(l: Ledger, d: DepositId, u: UserId, a: AssetId, amount: int): Result<Ledger> {
    PostPair(l, CreditKey(d), System(Custody, a), User(Available, u, a), amount)
  }

  function FromAvailable(current: int, amount: int): int {
    if current >= amount then amount else if current > 0 then current else 0
  }

  function ReversalEntries(l: Ledger, u: UserId, a: AssetId, amount: int): seq<Entry> {
    var taken := FromAvailable(Balance(l, User(Available, u, a)), amount);
    [Entry(System(Custody, a), amount, Credit)]
    + (if taken > 0 then [Entry(User(Available, u, a), taken, Debit)] else [])
    + (if amount - taken > 0 then [Entry(User(Deficit, u, a), amount - taken, Debit)] else [])
  }

  function ReverseDepositCredit(l: Ledger, d: DepositId, u: UserId, a: AssetId, amount: int): Result<Ledger> {
    if !IsPositive(amount) then Err(InvalidAmount)
    else Post(l, ReversalKey(d), ReversalEntries(l, u, a, amount))
  }

  function ReserveWithdrawal(l: Ledger, w: WithdrawalId, u: UserId, a: AssetId, amount: int): Result<Ledger> {
    if !IsPositive(amount) then Err(InvalidAmount)
    else if Balance(l, User(Available, u, a)) < amount then Err(InsufficientBalance)
    else PostPair(l, ReserveKey(w), User(Available, u, a), User(Reserved, u, a), amount)
  }

  function ReleaseReservation(l: Ledger, w: WithdrawalId, u: UserId, a: AssetId, amount: int): Result<Ledger> {
    PostPair(l, ReleaseKey(w), User(Reserved, u, a), User(Available, u, a), amount)
  }

  function RecordBroadcast(l: Ledger, w: WithdrawalId, a: AssetId, amount: int): Result<Ledger> {
    PostPair(l, BroadcastKey(w), System(Clearing, a), System(Custody, a), amount)
  }

  function SettleWithdrawal(l: Ledger, w: WithdrawalId, u: UserId, a: AssetId, amount: int): Result<Ledger> {
    PostPair(l, SettleKey(w), User(Reserved, u, a), System(Clearing, a), amount)
  }

  function ReverseBroadcast(l: Ledger, w: WithdrawalId, a: AssetId, amount: int): Result<Ledger> {
    PostPair(l, BroadcastReversalKey(w), System(Custody, a), System(Clearing, a), amount)
  }

  function RecordNetworkFee(l: Ledger, w: WithdrawalId, native: AssetId, fee: int): Result<Ledger> {
    if fee == 0 then Ok(l)
    else PostPair(l, FeeKey(w), System(NetworkFee, native), System(Custody, native), fee)
  }

  function FundCustody(l: Ledger, a: AssetId, amount: int, reference: string): Result<Ledger> {
    PostPair(l, FundingKey(reference), System(Custody, a), System(Treasury, a), amount)
  }
}
