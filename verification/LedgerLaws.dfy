/** What every posting keeps: no drift, balanced books, the accounting identity, order independence. */
module LedgerLaws {
  import opened Prelude
  import opened Ledger

  // ------------------------------------------------------ balances after a posting ---

  ghost function DeltaAt(a: Account): Entry -> int {
    (e: Entry) => if e.account == a then e.Delta() else 0
  }

  /** Accepted entries move every balance by the sum of its entries' deltas. */
  lemma {:induction false} InsertAllEffect(b: map<Account, int>, es: seq<Entry>, a: Account)
    requires InsertAll(b, es).Ok?
    ensures Bal(InsertAll(b, es).value, a) == Bal(b, a) + SumSeq(es, DeltaAt(a))
  {
    if es != [] {
      InsertAllEffect(b, es[..|es| - 1], a);
    }
  }

  function AccountsOf(es: seq<Entry>): set<Account> { set e | e in es :: e.account }

  lemma {:induction false} InsertAllKeys(b: map<Account, int>, es: seq<Entry>)
    requires InsertAll(b, es).Ok?
    ensures InsertAll(b, es).value.Keys == b.Keys + AccountsOf(es)
  {
    if es != [] {
      var front, last := es[..|es| - 1], es[|es| - 1];
      InsertAllKeys(b, front);
      InLastOrFront(es);
      assert AccountsOf(es) == AccountsOf(front) + {last.account};
    }
  }

  lemma InLastOrFront(es: seq<Entry>)
    requires es != []
    ensures forall e :: e in es <==> e in es[..|es| - 1] || e == es[|es| - 1]
  {
    assert es == es[..|es| - 1] + [es[|es| - 1]];
  }

  lemma SameMap(m: map<Account, int>, n: map<Account, int>)
    requires m.Keys == n.Keys && forall a :: Bal(m, a) == Bal(n, a)
    ensures m == n
  {
    forall a | a in m ensures m[a] == n[a] {
      assert Bal(m, a) == Bal(n, a);
    }
  }

  ghost predicate NonNegative(b: map<Account, int>) {
    forall a :: a in b && !a.AllowsNegative() ==> b[a] >= 0
  }

  lemma {:induction false} InsertAllNonNegative(b: map<Account, int>, es: seq<Entry>)
    requires NonNegative(b) && InsertAll(b, es).Ok?
    ensures NonNegative(InsertAll(b, es).value)
  {
    if es != [] {
      InsertAllNonNegative(b, es[..|es| - 1]);
    }
  }

  // ------------------------------------------------------------ order independence ---

  predicate DistinctAccounts(es: seq<Entry>) {
    forall i, j :: 0 <= i < j < |es| ==> es[i].account != es[j].account
  }

  lemma {:induction false} UntouchedAccount(b: map<Account, int>, es: seq<Entry>, a: Account)
    requires InsertAll(b, es).Ok?
    requires forall e :: e in es ==> e.account != a
    ensures Bal(InsertAll(b, es).value, a) == Bal(b, a)
  {
    if es != [] {
      UntouchedAccount(b, es[..|es| - 1], a);
    }
  }

  lemma {:induction false} AcceptedIffEachIs(b: map<Account, int>, es: seq<Entry>)
    requires DistinctAccounts(es)
    ensures InsertAll(b, es).Ok? <==> forall e :: e in es ==> Accepts(b, e)
    ensures InsertAll(b, es).Err? ==> InsertAll(b, es).error == NegativeBalance
  {
    if es != [] {
      var front, last := es[..|es| - 1], es[|es| - 1];
      AcceptedIffEachIs(b, front);
      InLastOrFront(es);
      if InsertAll(b, front).Ok? {
        UntouchedAccount(b, front, last.account);
        assert Accepts(InsertAll(b, front).value, last) <==> Accepts(b, last);
      }
    }
  }

  /** Inserting in account-id order gives the same answer and the same balances as builder order. */
  lemma OrderIrrelevant(b: map<Account, int>, es: seq<Entry>, sorted: seq<Entry>)
    requires DistinctAccounts(es)
    requires multiset(sorted) == multiset(es)
    ensures InsertAll(b, sorted) == InsertAll(b, es)
  {
    DistinctPermuted(es, sorted);
    AcceptedIffEachIs(b, es);
    AcceptedIffEachIs(b, sorted);
    assert forall e :: e in es <==> e in multiset(es);
    assert forall e :: e in sorted <==> e in multiset(sorted);
    if InsertAll(b, es).Ok? {
      SameAfterPermuting(b, es, sorted);
    }
  }

  lemma SameAfterPermuting(b: map<Account, int>, es: seq<Entry>, sorted: seq<Entry>)
    requires multiset(sorted) == multiset(es)
    requires InsertAll(b, es).Ok? && InsertAll(b, sorted).Ok?
    ensures InsertAll(b, sorted) == InsertAll(b, es)
  {
    var m, n := InsertAll(b, es).value, InsertAll(b, sorted).value;
    InsertAllKeys(b, es);
    InsertAllKeys(b, sorted);
    assert forall e :: e in es <==> e in multiset(es);
    assert forall e :: e in sorted <==> e in multiset(sorted);
    assert AccountsOf(es) == AccountsOf(sorted);
    forall a ensures Bal(m, a) == Bal(n, a) {
      InsertAllEffect(b, es, a);
      InsertAllEffect(b, sorted, a);
      SumBagOfSeq(es, DeltaAt(a));
      SumBagOfSeq(sorted, DeltaAt(a));
    }
    SameMap(m, n);
  }

  lemma DistinctPermuted(es: seq<Entry>, sorted: seq<Entry>)
    requires DistinctAccounts(es)
    requires multiset(sorted) == multiset(es)
    ensures DistinctAccounts(sorted)
  {
    forall i, j | 0 <= i < j < |sorted| ensures sorted[i].account != sorted[j].account {
      if sorted[i].account == sorted[j].account {
        var x, y := sorted[i], sorted[j];
        assert x in multiset(es) && y in multiset(es);
        assert x == y;
        CountTwice(sorted, i, j);
        CountOnce(es, x);
      }
    }
  }

  lemma CountTwice(s: seq<Entry>, i: nat, j: nat)
    requires i < j < |s| && s[i] == s[j]
    ensures multiset(s)[s[i]] >= 2
  {
    assert s == s[..j] + [s[j]] + s[j + 1..];
    assert s[i] in s[..j];
  }

  lemma CountOnce(s: seq<Entry>, x: Entry)
    requires DistinctAccounts(s) && x in s
    ensures multiset(s)[x] == 1
  {
    var i :| 0 <= i < |s| && s[i] == x;
    assert s == s[..i] + [s[i]] + s[i + 1..];
    assert x !in s[..i] && x !in s[i + 1..];
  }

  /**
   * Distinct accounts are needed: with one account named twice, crediting first is accepted
   * and debiting first is refused.
   */
  lemma OrderMattersForRepeatedAccounts()
    ensures exists b, x, y ::
      InsertAll(b, [x, y]).Ok? && InsertAll(b, [y, x]).Err?
  {
    var a := User(Available, 0, 0);
    var x, y := Entry(a, 5, Credit), Entry(a, 5, Debit);
    var b: map<Account, int> := map[];
    assert [x, y][..1] == [x] && [y, x][..1] == [y];
    assert [x][..0] == [] && [y][..0] == [];
    assert InsertAll(b, [x]) == InsertEntry(b, x);
    assert InsertAll(b, [y]) == InsertEntry(b, y);
    assert InsertAll(b, [x, y]).Ok? && InsertAll(b, [y, x]).Err?;
  }

  // --------------------------------------------------------------- net and totals ---

  ghost function SignOf(): Entry -> int { (e: Entry) => e.Signed() }

  ghost function SignedSum(es: seq<Entry>): int { SumSeq(es, SignOf()) }

  lemma {:induction false} NetIsSignedSum(es: seq<Entry>)
    requires Net(es).Ok?
    ensures Net(es).value == SignedSum(es) && Fits(SignedSum(es))
  {
    if es != [] {
      NetIsSignedSum(es[..|es| - 1]);
    }
  }

  /** `checked_sum` over one side of the posting. */
  function Total(es: seq<Entry>, side: Direction): Result<int> {
    if es == [] then Ok(0)
    else
      match Total(es[..|es| - 1], side)
      case Err(e) => Err(e)
      case Ok(t) =>
        var e := es[|es| - 1];
        if e.direction != side then Ok(t)
        else if Fits(t + e.amount) then Ok(t + e.amount) else Err(AmountOverflow)
  }

  predicate Positive(es: seq<Entry>) { forall e :: e in es ==> 0 < e.amount <= MAX_AMOUNT }

  /** When neither side's total overflows, `net` is their difference and cannot overflow either. */
  lemma {:induction false} NetIsDifferenceOfTotals(es: seq<Entry>)
    requires Positive(es)
    requires Total(es, Debit).Ok? && Total(es, Credit).Ok?
    ensures Net(es) == Ok(Total(es, Debit).value - Total(es, Credit).value)
    ensures Total(es, Debit).value >= 0 && Total(es, Credit).value >= 0
    ensures Net(es) == Ok(0) <==> Total(es, Debit).value == Total(es, Credit).value
  {
    if es != [] {
      var front := es[..|es| - 1];
      assert es[|es| - 1] in es;
      assert Positive(front) by {
        forall e | e in front ensures e in es {}
      }
      NetIsDifferenceOfTotals(front);
      TotalsFit(front);
    }
  }

  lemma {:induction false} TotalsFit(es: seq<Entry>)
    ensures Total(es, Debit).Ok? ==> Fits(Total(es, Debit).value)
    ensures Total(es, Credit).Ok? ==> Fits(Total(es, Credit).value)
  {
    if es != [] {
      TotalsFit(es[..|es| - 1]);
    }
  }

  /** The converse needs the totals: alternating sides, `net` is zero while both totals overflow. */
  lemma NetZeroDespiteTotalOverflow(a: Account, b: Account)
    ensures var es := [Entry(a, MAX_AMOUNT, Debit), Entry(b, MAX_AMOUNT, Credit),
                       Entry(a, MAX_AMOUNT, Debit), Entry(b, MAX_AMOUNT, Credit)];
            Net(es) == Ok(0) && Total(es, Debit).Err? && Total(es, Credit).Err?
  {
    var d, c := Entry(a, MAX_AMOUNT, Debit), Entry(b, MAX_AMOUNT, Credit);
    assert [d, c, d, c][..3] == [d, c, d] && [d, c, d][..2] == [d, c] && [d, c][..1] == [d] && [d][..0] == [];
    assert d.Signed() == MAX_AMOUNT && c.Signed() == -MAX_AMOUNT;
    assert Net([d]) == Ok(MAX_AMOUNT);
    assert Net([d, c]) == Ok(0);
    assert Net([d, c, d]) == Ok(MAX_AMOUNT);
    assert Total([d], Debit) == Ok(MAX_AMOUNT) && Total([d, c], Debit) == Ok(MAX_AMOUNT);
    assert Total([d, c, d], Debit).Err?;
    assert Total([d], Credit) == Ok(0) && Total([d, c], Credit) == Ok(MAX_AMOUNT);
    assert Total([d, c, d], Credit) == Ok(MAX_AMOUNT);
  }

  // ------------------------------------------------------------ the accounting identity ---

  /** Debit-normal accounts of the asset count positively, credit-normal ones negatively. */
  ghost function Weight(asset: AssetId): (Account, int) -> int {
    (a: Account, bal: int) => if a.asset != asset then 0 else a.Normal().Sign() * bal
  }

  ghost predicate Identity(b: map<Account, int>) {
    forall asset :: SumMap(b, Weight(asset)) == 0
  }

  predicate OneAsset(es: seq<Entry>) {
    forall i, j :: 0 <= i < |es| && 0 <= j < |es| ==> es[i].account.asset == es[j].account.asset
  }

  /** An entry shifts its asset's weighted total by its signed amount, whichever account it names. */
  lemma EntryShiftsTotal(b: map<Account, int>, e: Entry, asset: AssetId)
    requires InsertEntry(b, e).Ok?
    ensures SumMap(InsertEntry(b, e).value, Weight(asset))
         == SumMap(b, Weight(asset)) + if e.account.asset == asset then e.Signed() else 0
  {
    SumMapUpdate(b, Weight(asset), e.account, Bal(b, e.account) + e.Delta());
  }

  ghost function SignedIn(asset: AssetId): Entry -> int {
    (e: Entry) => if e.account.asset == asset then e.Signed() else 0
  }

  /** Debits equal credits in each asset on its own. */
  ghost predicate BalancedByAsset(es: seq<Entry>) {
    forall asset {:trigger SignedIn(asset)} :: SumSeq(es, SignedIn(asset)) == 0
  }

  /** Entries shift each asset's weighted total by their signed sum in that asset. */
  lemma {:induction false} InsertShiftsTotal(b: map<Account, int>, es: seq<Entry>, asset: AssetId)
    requires InsertAll(b, es).Ok?
    ensures SumMap(InsertAll(b, es).value, Weight(asset)) == SumMap(b, Weight(asset)) + SumSeq(es, SignedIn(asset))
  {
    if es != [] {
      InsertShiftsTotal(b, es[..|es| - 1], asset);
      EntryShiftsTotal(InsertAll(b, es[..|es| - 1]).value, es[|es| - 1], asset);
    }
  }

  /** With the identity in place, accepted entries keep it exactly when they balance in each asset. */
  lemma IdentityKeptIff(b: map<Account, int>, es: seq<Entry>)
    requires Identity(b) && InsertAll(b, es).Ok?
    ensures Identity(InsertAll(b, es).value) <==> BalancedByAsset(es)
  {
    var b' := InsertAll(b, es).value;
    forall asset ensures SumMap(b', Weight(asset)) == SumSeq(es, SignedIn(asset)) {
      InsertShiftsTotal(b, es, asset);
    }
    if Identity(b') {
      forall asset {:trigger SignedIn(asset)} ensures SumSeq(es, SignedIn(asset)) == 0 {
        assert SumMap(b', Weight(asset)) == 0;
      }
    }
  }

  lemma {:induction false} OneAssetSum(es: seq<Entry>, asset: AssetId)
    requires OneAsset(es)
    ensures SumSeq(es, SignedIn(asset)) == if es != [] && es[0].account.asset == asset then SignedSum(es) else 0
  {
    if es != [] {
      OneAssetSum(es[..|es| - 1], asset);
      assert SignedSum(es) == SignedSum(es[..|es| - 1]) + es[|es| - 1].Signed();
      assert SumSeq(es, SignedIn(asset)) == SumSeq(es[..|es| - 1], SignedIn(asset)) + SignedIn(asset)(es[|es| - 1]);
    }
  }

  // ---------------------------------------------------------------------- integrity ---

  ghost function EntriesAt(a: Account): (Key, multiset<Entry>) -> int {
    (k: Key, bag: multiset<Entry>) => SumBag(bag, DeltaAt(a))
  }

  /** `derived_balance` of the reconciliation view: the signed sum of the account's entries. */
  ghost function Derived(l: Ledger, a: Account): int { SumMap(l.posted, EntriesAt(a)) }

  /** The three checks of `verify_ledger_integrity` and the accounting identity. */
  ghost predicate Sound(l: Ledger) {
    && NonNegative(l.balances)
    && Identity(l.balances)
    && (forall a {:trigger Derived(l, a)} :: Balance(l, a) == Derived(l, a))
    && (forall k :: k in l.posted ==> SumBag(l.posted[k], SignOf()) == 0 && |l.posted[k]| >= 2)
  }

  lemma EmptyIsSound()
    ensures Sound(EMPTY)
  {}

  /** Posting is idempotent: a posted key changes nothing; a new key is recorded with its entries. */
  lemma PostShape(l: Ledger, key: Key, es: seq<Entry>)
    requires Post(l, key, es).Ok?
    ensures key in l.posted ==> Post(l, key, es).value == l
    ensures key !in l.posted ==>
      var l' := Post(l, key, es).value;
      && l'.posted == l.posted[key := multiset(es)]
      && forall a :: Balance(l', a) == Balance(l, a) + SumSeq(es, DeltaAt(a))
  {
    if key !in l.posted {
      forall a ensures Bal(InsertAll(l.balances, es).value, a) == Bal(l.balances, a) + SumSeq(es, DeltaAt(a)) {
        InsertAllEffect(l.balances, es, a);
      }
    }
  }

  /**
   * An accepted posting under a new key leaves the ledger sound exactly when it balances in each
   * asset; the other checks always pass.
   */
  lemma PostSoundIff(l: Ledger, key: Key, es: seq<Entry>)
    requires Sound(l) && key !in l.posted && Post(l, key, es).Ok?
    ensures Sound(Post(l, key, es).value) <==> BalancedByAsset(es)
  {
    var l' := Post(l, key, es).value;
    PostShape(l, key, es);
    InsertAllNonNegative(l.balances, es);
    NetIsSignedSum(es);
    SumBagOfSeq(es, SignOf());
    IdentityKeptIff(l.balances, es);
    forall a ensures Balance(l', a) == Derived(l', a) {
      assert Balance(l, a) == Derived(l, a);
      SumMapUpdate(l.posted, EntriesAt(a), key, multiset(es));
      SumBagOfSeq(es, DeltaAt(a));
    }
  }

  /** In particular every single-asset posting keeps the ledger sound. */
  lemma PostKeepsSound(l: Ledger, key: Key, es: seq<Entry>)
    requires Sound(l) && OneAsset(es) && Post(l, key, es).Ok?
    ensures Sound(Post(l, key, es).value)
  {
    if key !in l.posted {
      NetIsSignedSum(es);
      forall asset {:trigger SignedIn(asset)} ensures SumSeq(es, SignedIn(asset)) == 0 {
        OneAssetSum(es, asset);
      }
      PostSoundIff(l, key, es);
    }
  }

  /**
   * One asset is needed: `validate` sums across assets, so a posting that debits one asset and
   * credits another passes it and breaks both assets' identities.
   */
  lemma MixedAssetsBreakTheIdentity()
    ensures exists key, es :: Post(EMPTY, key, es).Ok? && !Identity(Post(EMPTY, key, es).value.balances)
  {
    var key := FundingKey("x");
    var d, c := Entry(System(Custody, 0), 1, Debit), Entry(System(Treasury, 1), 1, Credit);
    var es := [d, c];
    assert es[..1] == [d] && [d][..0] == [];
    assert Net([d]) == Ok(1);
    assert Net(es) == Ok(0);
    assert InsertAll(EMPTY.balances, [d]) == InsertEntry(EMPTY.balances, d);
    var b := InsertAll(EMPTY.balances, [d]).value;
    EntryShiftsTotal(EMPTY.balances, d, 0);
    EntryShiftsTotal(b, c, 0);
    assert SumMap(EMPTY.balances, Weight(0)) == 0;
    assert Post(EMPTY, key, es).Ok?;
    assert SumMap(Post(EMPTY, key, es).value.balances, Weight(0)) == 1;
  }

  // ------------------------------------------------------------------------ solvency ---

  ghost function OfKind(kind: UserKind, asset: AssetId): (Account, int) -> int {
    (a: Account, bal: int) => if a.User? && a.ukind == kind && a.asset == asset then bal else 0
  }

  /** Available plus reserved, less deficits, over all users: the solvency query. */
  ghost function UserLiability(l: Ledger, asset: AssetId): int {
    SumMap(l.balances, OfKind(Available, asset)) + SumMap(l.balances, OfKind(Reserved, asset))
    - SumMap(l.balances, OfKind(Deficit, asset))
  }

  /** `SolvencyRow::surplus`. */
  ghost function Surplus(l: Ledger, asset: AssetId): int {
    Balance(l, System(Custody, asset)) + Balance(l, System(Clearing, asset)) - UserLiability(l, asset)
  }

  ghost function OnlyAt(x: Account, k: Account, bal: int): int { if k == x then bal else 0 }

  lemma WeightByType(k: Account, bal: int, asset: AssetId)
    ensures Weight(asset)(k, bal)
         == OnlyAt(System(Custody, asset), k, bal) + OnlyAt(System(Clearing, asset), k, bal)
           + OnlyAt(System(NetworkFee, asset), k, bal)
            - OnlyAt(System(Treasury, asset), k, bal) + OfKind(Deficit, asset)(k, bal)
            - OfKind(Available, asset)(k, bal) - OfKind(Reserved, asset)(k, bal)
  {}

  lemma BalWithout(b: map<Account, int>, k: Account, x: Account)
    requires k in b
    ensures Bal(b, x) == Bal(b - {k}, x) + OnlyAt(x, k, b[k])
  {}

  /** The weighted total is the seven account types' totals, each with its sign. */
  lemma {:induction false} TotalByType(b: map<Account, int>, asset: AssetId)
    ensures SumMap(b, Weight(asset))
         == Bal(b, System(Custody, asset)) + Bal(b, System(Clearing, asset)) + Bal(b, System(NetworkFee, asset))
            - Bal(b, System(Treasury, asset)) + SumMap(b, OfKind(Deficit, asset))
            - SumMap(b, OfKind(Available, asset)) - SumMap(b, OfKind(Reserved, asset))
    decreases |b|
  {
    if b != map[] {
      var k :| k in b;
      SumMapRemove(b, Weight(asset), k);
      SumMapRemove(b, OfKind(Deficit, asset), k);
      SumMapRemove(b, OfKind(Available, asset), k);
      SumMapRemove(b, OfKind(Reserved, asset), k);
      var rest := b - {k};
      TotalByType(rest, asset);
      WeightByType(k, b[k], asset);
      BalWithout(b, k, System(Custody, asset));
      BalWithout(b, k, System(Clearing, asset));
      BalWithout(b, k, System(NetworkFee, asset));
      BalWithout(b, k, System(Treasury, asset));
    }
  }

  /**
   * The accounting identity of a sound ledger: for every asset, custody, clearing, fees and
   * deficits equal available, reserved and treasury; so the reported surplus is treasury less fees.
   */
  lemma SurplusIsTreasuryLessFees(l: Ledger, asset: AssetId)
    requires Sound(l)
    ensures Balance(l, System(Custody, asset)) + Balance(l, System(Clearing, asset))
              + Balance(l, System(NetworkFee, asset)) + SumMap(l.balances, OfKind(Deficit, asset))
         == SumMap(l.balances, OfKind(Available, asset)) + SumMap(l.balances, OfKind(Reserved, asset))
              + Balance(l, System(Treasury, asset))
    ensures Surplus(l, asset) == Balance(l, System(Treasury, asset)) - Balance(l, System(NetworkFee, asset))
  {
    TotalByType(l.balances, asset);
  }

  // ------------------------------------------------------- what a domain posting does ---

  /** A posting recorded `key` and moved exactly the accounts `x` and `y`. */
  ghost predicate Moves(l: Ledger, l': Ledger, key: Key, x: Account, dx: int, y: Account, dy: int) {
    && l'.posted.Keys == l.posted.Keys + {key}
    && forall a :: Balance(l', a) == Balance(l, a) + (if a == x then dx else 0) + (if a == y then dy else 0)
  }

  lemma PairDeltas(debit: Account, credit: Account, amount: int, a: Account)
    ensures SumSeq(Pair(debit, credit, amount), DeltaAt(a))
         == DeltaAt(a)(Entry(debit, amount, Debit)) + DeltaAt(a)(Entry(credit, amount, Credit))
  {
    var d, c := Entry(debit, amount, Debit), Entry(credit, amount, Credit);
    var f := DeltaAt(a);
    assert [d, c][..1] == [d] && [d][..0] == [];
    assert SumSeq([d], f) == SumSeq([d][..0], f) + f(d);
    assert SumSeq([d, c], f) == SumSeq([d, c][..1], f) + f(c);
  }

  lemma PairValid(key: Key, debit: Account, credit: Account, amount: int)
    requires IsPositive(amount)
    ensures Validate(key, Pair(debit, credit, amount)) == None <==> key.Length() <= 200
  {
    var d, c := Entry(debit, amount, Debit), Entry(credit, amount, Credit);
    var es := Pair(debit, credit, amount);
    assert es[..1] == [d] && [d][..0] == [];
    assert d.Signed() == amount && c.Signed() == -amount;
    assert Net([d]) == Ok(amount);
    assert Net(es) == Ok(0);
  }

  /** Exactly when a two-legged posting is accepted, and what it then changes. */
  lemma PairEffect(l: Ledger, key: Key, debit: Account, credit: Account, amount: int)
    requires debit != credit && debit.asset == credit.asset
    ensures PostPair(l, key, debit, credit, amount).Ok? <==>
      && IsPositive(amount) && key.Length() <= 200
      && (key in l.posted || (Accepts(l.balances, Entry(debit, amount, Debit))
            && Accepts(l.balances, Entry(credit, amount, Credit))))
    ensures PostPair(l, key, debit, credit, amount).Ok? ==>
      var l' := PostPair(l, key, debit, credit, amount).value;
      && (key in l.posted ==> l' == l)
      && (key !in l.posted ==>
            Moves(l, l', key, debit, Entry(debit, amount, Debit).Delta(), credit,
                Entry(credit, amount, Credit).Delta()))
      && (Sound(l) ==> Sound(l'))
  {
    if IsPositive(amount) {
      var es := Pair(debit, credit, amount);
      PairValid(key, debit, credit, amount);
      AcceptedIffEachIs(l.balances, es);
      assert es[0] in es && es[1] in es;
      if Post(l, key, es).Ok? {
        PostShape(l, key, es);
        forall a ensures SumSeq(es, DeltaAt(a)) == DeltaAt(a)(es[0]) + DeltaAt(a)(es[1]) {
          PairDeltas(debit, credit, amount, a);
        }
        if Sound(l) {
          PostKeepsSound(l, key, es);
        }
      }
    }
  }

  ghost function Maybe(account: Account, amount: int, direction: Direction): seq<Entry> {
    if amount > 0 then [Entry(account, amount, direction)] else []
  }

  lemma MaybeSum(account: Account, amount: int, direction: Direction, f: Entry -> int)
    ensures SumSeq(Maybe(account, amount, direction), f)
      == if amount > 0 then f(Entry(account, amount, direction)) else 0
  {
    if amount > 0 {
      var e := Entry(account, amount, direction);
      assert [e][..0] == [];
      assert SumSeq([e], f) == SumSeq([e][..0], f) + f(e);
    }
  }

  /** The reversal's entries sum, leg by leg. */
  lemma ReversalSum(l: Ledger, u: UserId, a: AssetId, amount: int, taken: int, f: Entry -> int)
    requires amount > 0 && taken == FromAvailable(Balance(l, User(Available, u, a)), amount)
    ensures SumSeq(ReversalEntries(l, u, a, amount), f)
         == f(Entry(System(Custody, a), amount, Credit))
            + (if taken > 0 then f(Entry(User(Available, u, a), taken, Debit)) else 0)
            + (if amount - taken > 0 then f(Entry(User(Deficit, u, a), amount - taken, Debit)) else 0)
  {
    var c := Maybe(System(Custody, a), amount, Credit);
    var v := Maybe(User(Available, u, a), taken, Debit);
    var s := Maybe(User(Deficit, u, a), amount - taken, Debit);
    assert ReversalEntries(l, u, a, amount) == c + v + s;
    SumSeqConcat(c + v, s, f);
    SumSeqConcat(c, v, f);
    MaybeSum(System(Custody, a), amount, Credit, f);
    MaybeSum(User(Available, u, a), taken, Debit, f);
    MaybeSum(User(Deficit, u, a), amount - taken, Debit, f);
  }

  lemma ReversalValid(l: Ledger, d: DepositId, u: UserId, a: AssetId, amount: int)
    requires IsPositive(amount)
    ensures Validate(ReversalKey(d), ReversalEntries(l, u, a, amount)) == None
  {
    var taken := FromAvailable(Balance(l, User(Available, u, a)), amount);
    var es := ReversalEntries(l, u, a, amount);
    var c := Entry(System(Custody, a), amount, Credit);
    assert c.Signed() == -amount;
    assert [c][..0] == [];
    assert Net([c]) == Ok(-amount);
    assert es[..1] == [c];
    if |es| == 3 {
      assert es[..2][..1] == [c];
      assert Net(es[..2]) == Ok(taken - amount);
    }
    assert Net(es) == Ok(0);
  }

  lemma ReversalAccepted(l: Ledger, u: UserId, a: AssetId, amount: int)
    requires NonNegative(l.balances) && amount > 0
    ensures InsertAll(l.balances, ReversalEntries(l, u, a, amount)).Ok? <==> Balance(l, System(Custody, a)) >= amount
  {
    var es := ReversalEntries(l, u, a, amount);
    AcceptedIffEachIs(l.balances, es);
    assert es[0] == Entry(System(Custody, a), amount, Credit) && es[0] in es;
    assert Accepts(l.balances, es[0]) <==> Balance(l, System(Custody, a)) >= amount;
    assert forall i :: 1 <= i < |es| ==> Accepts(l.balances, es[i]);
  }

  ghost function ReversalShift(u: UserId, a: AssetId, amount: int, taken: int, x: Account): int {
    if x == System(Custody, a) then -amount
    else if x == User(Available, u, a) then -taken
    else if x == User(Deficit, u, a) then amount - taken
    else 0
  }

  /** Balance changes of an accepted, fresh reversal. */
  ghost predicate Reverses(l: Ledger, l': Ledger, u: UserId, a: AssetId, amount: int) {
    var taken := FromAvailable(Balance(l, User(Available, u, a)), amount);
    forall x :: Balance(l', x) == Balance(l, x) + ReversalShift(u, a, amount, taken, x)
  }

  lemma ReversalDelta(l: Ledger, u: UserId, a: AssetId, amount: int, taken: int, x: Account)
    requires amount > 0 && taken == FromAvailable(Balance(l, User(Available, u, a)), amount)
    ensures SumSeq(ReversalEntries(l, u, a, amount), DeltaAt(x)) == ReversalShift(u, a, amount, taken, x)
  {
    ReversalSum(l, u, a, amount, taken, DeltaAt(x));
  }

  lemma ReversalMoves(l: Ledger, d: DepositId, u: UserId, a: AssetId, amount: int)
    requires IsPositive(amount) && ReversalKey(d) !in l.posted
    requires ReverseDepositCredit(l, d, u, a, amount).Ok?
    ensures Reverses(l, ReverseDepositCredit(l, d, u, a, amount).value, u, a, amount)
  {
    var es := ReversalEntries(l, u, a, amount);
    var taken := FromAvailable(Balance(l, User(Available, u, a)), amount);
    PostShape(l, ReversalKey(d), es);
    forall x ensures SumSeq(es, DeltaAt(x)) == ReversalShift(u, a, amount, taken, x) {
      ReversalDelta(l, u, a, amount, taken, x);
    }
  }

  lemma ReversalKeepsSound(l: Ledger, d: DepositId, u: UserId, a: AssetId, amount: int)
    requires Sound(l) && ReverseDepositCredit(l, d, u, a, amount).Ok?
    ensures Sound(ReverseDepositCredit(l, d, u, a, amount).value)
  {
    var es := ReversalEntries(l, u, a, amount);
    assert OneAsset(es);
    PostKeepsSound(l, ReversalKey(d), es);
  }

  /**
   * Compensating a credited deposit: what is spendable is taken back, the shortfall becomes a
   * receivable, and custody falls by the whole amount. The only thing that can refuse a fresh
   * reversal is custody holding less than the amount.
   */
  lemma ReversalEffect(l: Ledger, d: DepositId, u: UserId, a: AssetId, amount: int)
    requires NonNegative(l.balances)
    ensures ReverseDepositCredit(l, d, u, a, amount).Ok? <==>
      IsPositive(amount) && (ReversalKey(d) in l.posted || Balance(l, System(Custody, a)) >= amount)
    ensures ReverseDepositCredit(l, d, u, a, amount).Ok? ==>
      var l' := ReverseDepositCredit(l, d, u, a, amount).value;
      && (ReversalKey(d) in l.posted ==> l' == l)
      && (ReversalKey(d) !in l.posted ==>
            l'.posted.Keys == l.posted.Keys + {ReversalKey(d)} && Reverses(l, l', u, a, amount))
  {
    if IsPositive(amount) {
      ReversalValid(l, d, u, a, amount);
      ReversalAccepted(l, u, a, amount);
      if ReversalKey(d) !in l.posted && ReverseDepositCredit(l, d, u, a, amount).Ok? {
        PostShape(l, ReversalKey(d), ReversalEntries(l, u, a, amount));
        ReversalMoves(l, d, u, a, amount);
      }
    }
  }

  /** After a reversal the user owes a deficit only once nothing spendable is left. */
  lemma ReversalTakesSpendableFirst(l: Ledger, l': Ledger, u: UserId, a: AssetId, amount: int)
    requires Sound(l) && amount > 0 && Reverses(l, l', u, a, amount)
    ensures Balance(l', User(Available, u, a)) >= 0
    ensures Balance(l', User(Deficit, u, a)) > Balance(l, User(Deficit, u, a)) ==>
      Balance(l', User(Available, u, a)) == 0
    ensures Balance(l', User(Available, u, a)) - Balance(l', User(Deficit, u, a))
         == Balance(l, User(Available, u, a)) - Balance(l, User(Deficit, u, a)) - amount
  {
    assert Balance(l, User(Available, u, a)) >= 0;
  }
}
