/** The posting's own loops: the running net, validation, and sorting entries by account. */
module Posting {
  import opened Prelude
  import opened Ledger
  import opened LedgerLaws

  /** Every signed entry and every running sum is a 128-bit amount. */
  ghost predicate RunsWithin(es: seq<Entry>) {
    forall k :: 0 <= k < |es| ==> Fits(es[k].Signed()) && Fits(SignedSum(es[..k + 1]))
  }

  lemma RunsWithinFront(es: seq<Entry>)
    requires es != []
    ensures var front := es[..|es| - 1];
      RunsWithin(es) <==> RunsWithin(front) && Fits(es[|front|].Signed()) && Fits(SignedSum(es))
  {
    var front, n := es[..|es| - 1], |es| - 1;
    assert es[..n + 1] == es;
    if RunsWithin(es) {
      assert Fits(es[n].Signed()) && Fits(SignedSum(es[..n + 1]));
      forall k | 0 <= k < n ensures Fits(front[k].Signed()) && Fits(SignedSum(front[..k + 1])) {
        assert front[k] == es[k] && front[..k + 1] == es[..k + 1];
        assert Fits(es[k].Signed()) && Fits(SignedSum(es[..k + 1]));
      }
      assert RunsWithin(front);
    }
    if RunsWithin(front) && Fits(es[n].Signed()) && Fits(SignedSum(es)) {
      forall k | 0 <= k < |es| ensures Fits(es[k].Signed()) && Fits(SignedSum(es[..k + 1])) {
        if k < n {
          assert front[k] == es[k] && front[..k + 1] == es[..k + 1];
          assert Fits(front[k].Signed()) && Fits(SignedSum(front[..k + 1]));
        }
      }
      assert RunsWithin(es);
    }
  }

  /** `net` is an error exactly when the running sum leaves the range on the way. */
  lemma {:induction false} NetOkIff(es: seq<Entry>)
    ensures Net(es).Ok? <==> RunsWithin(es)
    ensures Net(es) == if RunsWithin(es) then Ok(SignedSum(es)) else Err(AmountOverflow)
  {
    if es != [] {
      NetOkIff(es[..|es| - 1]);
      RunsWithinFront(es);
    }
    if Net(es).Ok? {
      NetIsSignedSum(es);
    }
  }

  /** What `validate` says about a posting, cause by cause and in this order. */
  lemma ValidateNames(key: Key, es: seq<Entry>)
    ensures Validate(key, es).None? <==>
      key.Length() <= 200 && |es| >= 2 && (forall e :: e in es ==> e.amount > 0) && RunsWithin(es) && SignedSum(es) == 0
    ensures Validate(key, es) == Some(Validation) <==> key.Length() > 200
    ensures Validate(key, es) == Some(InvalidAmount) <==>
      key.Length() <= 200 && |es| >= 2 && exists e :: e in es && e.amount <= 0
    ensures Validate(key, es) == Some(AmountOverflow) <==>
      key.Length() <= 200 && |es| >= 2 && (forall e :: e in es ==> e.amount > 0) && !RunsWithin(es)
  {
    NetOkIff(es);
  }

  /** `Posting::net`. */
  method ComputeNet(es: seq<Entry>) returns (r: Result<int>)
    ensures r == Net(es)
    ensures r.Ok? <==> RunsWithin(es)
    ensures r.Ok? ==> r.value == SignedSum(es)
    ensures r.Err? ==> r.error == AmountOverflow
  {
    var net := 0;
    for i := 0 to |es|
      invariant Net(es[..i]) == Ok(net)
    {
      assert es[..i + 1][..i] == es[..i];
      var signed := es[i].Signed();
      if !Fits(signed) || !Fits(net + signed) {
        OverflowSticks(es, i + 1);
        NetOkIff(es);
        return Err(AmountOverflow);
      }
      net := net + signed;
    }
    assert es[..|es|] == es;
    NetOkIff(es);
    return Ok(net);
  }

  /** Once the running sum has left the range, `net` is an error whatever follows. */
  lemma {:induction false} OverflowSticks(es: seq<Entry>, i: nat)
    requires i <= |es| && Net(es[..i]) == Err(AmountOverflow)
    ensures Net(es) == Err(AmountOverflow)
  {
    if i == |es| {
      assert es[..i] == es;
    } else {
      assert es[..|es| - 1][..i] == es[..i];
      OverflowSticks(es[..|es| - 1], i);
    }
  }

  /** `Posting::validate`. */
  method CheckPosting(key: Key, es: seq<Entry>) returns (problem: Option<Error>)
    ensures problem == Validate(key, es)
    ensures problem.None? ==> |es| >= 2 && SignedSum(es) == 0 && forall e :: e in es ==> e.amount > 0
  {
    if key.Length() > 200 {
      return Some(Validation);
    }
    if |es| < 2 {
      return Some(Unbalanced);
    }
    for i := 0 to |es|
      invariant forall k :: 0 <= k < i ==> es[k].amount > 0
    {
      if es[i].amount <= 0 {
        assert es[i] in es;
        return Some(InvalidAmount);
      }
    }
    var net := ComputeNet(es);
    match net {
      case Err(e) => return Some(e);
      case Ok(n) => return if n != 0 then Some(Unbalanced) else None;
    }
  }

  // --------------------------------------------------------------------------- sorting ---

  /** The sort key: the account's id, then the direction's name, `credit` before `debit`. */
  predicate Before(rank: Account -> int, x: Entry, y: Entry) {
    || rank(x.account) < rank(y.account)
    || (rank(x.account) == rank(y.account) && (x.direction.Credit? || y.direction.Debit?))
  }

  /** Insert after every entry that is not greater, so equal keys keep their order. */
  function Insert(rank: Account -> int, s: seq<Entry>, e: Entry): seq<Entry> {
    if s == [] || Before(rank, s[|s| - 1], e) then s + [e]
    else Insert(rank, s[..|s| - 1], e) + [s[|s| - 1]]
  }

  function Sort(rank: Account -> int, es: seq<Entry>): seq<Entry> {
    if es == [] then [] else Insert(rank, Sort(rank, es[..|es| - 1]), es[|es| - 1])
  }

  ghost predicate Ordered(rank: Account -> int, s: seq<Entry>) {
    forall i, j :: 0 <= i < j < |s| ==> Before(rank, s[i], s[j])
  }

  /** Lower account ids come first, and on one account `credit` comes before `debit`. */
  ghost predicate ByAccountCreditsFirst(rank: Account -> int, s: seq<Entry>) {
    forall i, j :: 0 <= i < j < |s| ==>
      && rank(s[i].account) <= rank(s[j].account)
      && (rank(s[i].account) == rank(s[j].account) ==> !(s[i].direction.Debit? && s[j].direction.Credit?))
  }

  lemma {:induction false} InsertAdds(rank: Account -> int, s: seq<Entry>, e: Entry)
    ensures multiset(Insert(rank, s, e)) == multiset(s) + multiset{e}
  {
    if s != [] && !Before(rank, s[|s| - 1], e) {
      InsertAdds(rank, s[..|s| - 1], e);
      assert s == s[..|s| - 1] + [s[|s| - 1]];
    }
  }

  lemma OrderedWithLast(rank: Account -> int, r: seq<Entry>, last: Entry)
    requires Ordered(rank, r) && forall x :: x in r ==> Before(rank, x, last)
    ensures Ordered(rank, r + [last])
  {}

  lemma {:induction false} InsertOrders(rank: Account -> int, s: seq<Entry>, e: Entry)
    requires Ordered(rank, s)
    ensures Ordered(rank, Insert(rank, s, e))
  {
    if s == [] || Before(rank, s[|s| - 1], e) {
      forall x | x in s ensures Before(rank, x, e) {}
      OrderedWithLast(rank, s, e);
    } else {
      var front, last := s[..|s| - 1], s[|s| - 1];
      InsertOrders(rank, front, e);
      InsertAdds(rank, front, e);
      var r := Insert(rank, front, e);
      forall x | x in r ensures Before(rank, x, last) {
        assert x in multiset(r);
        assert x in front || x == e;
      }
      OrderedWithLast(rank, r, last);
    }
  }

  lemma {:induction false} SortAdds(rank: Account -> int, es: seq<Entry>)
    ensures multiset(Sort(rank, es)) == multiset(es)
  {
    if es != [] {
      SortAdds(rank, es[..|es| - 1]);
      InsertAdds(rank, Sort(rank, es[..|es| - 1]), es[|es| - 1]);
      assert es == es[..|es| - 1] + [es[|es| - 1]];
    }
  }

  lemma {:induction false} SortOrders(rank: Account -> int, es: seq<Entry>)
    ensures Ordered(rank, Sort(rank, es))
  {
    if es != [] {
      SortOrders(rank, es[..|es| - 1]);
      InsertOrders(rank, Sort(rank, es[..|es| - 1]), es[|es| - 1]);
    }
  }

  lemma OrderedReads(rank: Account -> int, s: seq<Entry>)
    requires Ordered(rank, s)
    ensures ByAccountCreditsFirst(rank, s)
  {
    forall i, j | 0 <= i < j < |s|
      ensures rank(s[i].account) <= rank(s[j].account)
      ensures rank(s[i].account) == rank(s[j].account) ==> !(s[i].direction.Debit? && s[j].direction.Credit?)
    {
      assert Before(rank, s[i], s[j]);
    }
  }

  /** Sorting rearranges and orders. */
  lemma SortKeeps(rank: Account -> int, es: seq<Entry>)
    ensures multiset(Sort(rank, es)) == multiset(es) && ByAccountCreditsFirst(rank, Sort(rank, es))
  {
    SortAdds(rank, es);
    SortOrders(rank, es);
    OrderedReads(rank, Sort(rank, es));
  }

  lemma InsertLeftOf(rank: Account -> int, s: seq<Entry>, e: Entry, k: nat)
    requires 0 < k <= |s| && !Before(rank, s[k - 1], e)
    ensures Insert(rank, s[..k], e) + s[k..] == Insert(rank, s[..k - 1], e) + s[k - 1..]
  {
    assert s[..k][..k - 1] == s[..k - 1];
    assert [s[k - 1]] + s[k..] == s[k - 1..];
  }

  /** One insertion of the sort. */
  method Place(rank: Account -> int, s: seq<Entry>, e: Entry) returns (t: seq<Entry>)
    ensures t == Insert(rank, s, e)
  {
    var k := |s|;
    assert s[..k] == s && s[k..] == [];
    while k > 0 && !Before(rank, s[k - 1], e)
      invariant 0 <= k <= |s|
      invariant Insert(rank, s, e) == Insert(rank, s[..k], e) + s[k..]
    {
      InsertLeftOf(rank, s, e, k);
      k := k - 1;
    }
    t := s[..k] + [e] + s[k..];
  }

  /** `ordered_entries`: a stable sort of a copy. */
  method OrderedEntries(rank: Account -> int, es: seq<Entry>) returns (s: seq<Entry>)
    ensures s == Sort(rank, es)
    ensures multiset(s) == multiset(es) && ByAccountCreditsFirst(rank, s)
  {
    s := [];
    for i := 0 to |es|
      invariant s == Sort(rank, es[..i])
    {
      assert es[..i + 1][..i] == es[..i];
      s := Place(rank, s, es[i]);
    }
    assert es[..|es|] == es;
    SortKeeps(rank, es);
  }

  /** `post_transaction` with its entries in sorted order. */
  function PostSorted(rank: Account -> int, l: Ledger, key: Key, es: seq<Entry>): Result<Ledger> {
    match Validate(key, es)
    case Some(e) => Err(e)
    case None =>
      if key in l.posted then Ok(l)
      else
        match InsertAll(l.balances, Sort(rank, es))
        case Err(e) => Err(e)
        case Ok(b) => Ok(Ledger(b, l.posted[key := multiset(es)]))
  }

  /** With distinct accounts the sorted posting and the builder-order posting are the same, refusals included. */
  lemma SortedIsBuilderOrder(rank: Account -> int, l: Ledger, key: Key, es: seq<Entry>)
    requires DistinctAccounts(es)
    ensures PostSorted(rank, l, key, es) == Post(l, key, es)
  {
    SortKeeps(rank, es);
    OrderIrrelevant(l.balances, es, Sort(rank, es));
  }
}
