/** When a whole pass over the chains goes through, and how one withdrawal can block every pass. */
module BlockedLaws {
  import opened Prelude
  import opened Ledger
  import opened Books
  import opened BooksLaws
  import opened Passes
  import opened PassLaws
  import opened GasLaws

  // ------------------------------------------------------------------------------ claims ---

  lemma {:induction false} ClaimedDistinct(
      rows: map<WithdrawalId, Withdrawal>, order: seq<WithdrawalId>, chain: ChainId, status: WithdrawalStatus,
      limit: nat)
    requires Distinct(order)
    ensures Distinct(Claimed(rows, order, chain, status, limit))
  {
    if order != [] && limit > 0 {
      var rest := order[1..];
      assert forall i :: 0 <= i < |rest| ==> rest[i] == order[i + 1];
      ClaimedDistinct(rows, rest, chain, status, limit - 1);
      ClaimedDistinct(rows, rest, chain, status, limit);
    }
  }

  predicate Matches(rows: map<WithdrawalId, Withdrawal>, id: WithdrawalId, chain: ChainId, status: WithdrawalStatus) {
    id in rows && rows[id].chain == chain && rows[id].status == status
  }

  /** How many of the rows created before `i` match. */
  function Older(
      rows: map<WithdrawalId, Withdrawal>, order: seq<WithdrawalId>, chain: ChainId, status: WithdrawalStatus,
      i: nat): nat
    requires i <= |order|
  {
    if i == 0 then 0
    else Older(rows, order, chain, status, i - 1) + if Matches(rows, order[i - 1], chain, status) then 1 else 0
  }

  lemma {:induction false} OlderInTail(
      rows: map<WithdrawalId, Withdrawal>, order: seq<WithdrawalId>, chain: ChainId, status: WithdrawalStatus, i: nat)
    requires 0 < i <= |order|
    ensures Older(rows, order, chain, status, i)
         == Older(rows, order[1..], chain, status, i - 1) + if Matches(rows, order[0], chain, status) then 1 else 0
  {
    if i > 1 {
      OlderInTail(rows, order, chain, status, i - 1);
      assert order[1..][i - 2] == order[i - 1];
    }
  }

  /** Claimed are exactly the oldest matching rows: those with fewer than the limit of matching rows before them. */
  lemma {:induction false} ClaimedIff(
      rows: map<WithdrawalId, Withdrawal>, order: seq<WithdrawalId>, chain: ChainId, status: WithdrawalStatus,
      limit: nat, i: nat)
    requires Distinct(order) && i < |order|
    ensures order[i] in Claimed(rows, order, chain, status, limit) <==>
      Matches(rows, order[i], chain, status) && Older(rows, order, chain, status, i) < limit
  {
    var rest, first := order[1..], Matches(rows, order[0], chain, status);
    assert forall j :: 0 <= j < |rest| ==> rest[j] == order[j + 1];
    if i > 0 {
      OlderInTail(rows, order, chain, status, i);
      if limit > 0 {
        ClaimedIff(rows, rest, chain, status, if first then limit - 1 else limit, i - 1);
      }
    }
  }

  /** They are claimed in the order they were created. */
  lemma {:induction false} ClaimedInOrder(
      rows: map<WithdrawalId, Withdrawal>, order: seq<WithdrawalId>, chain: ChainId, status: WithdrawalStatus,
      limit: nat)
    returns (at: seq<nat>)
    ensures |at| == |Claimed(rows, order, chain, status, limit)|
    ensures forall k :: 0 <= k < |at| ==>
      at[k] < |order| && order[at[k]] == Claimed(rows, order, chain, status, limit)[k]
    ensures forall j, k :: 0 <= j < k < |at| ==> at[j] < at[k]
  {
    at := [];
    if order != [] && limit > 0 {
      var first := Matches(rows, order[0], chain, status);
      var rest := ClaimedInOrder(rows, order[1..], chain, status, if first then limit - 1 else limit);
      var later := seq(|rest|, k requires 0 <= k < |rest| => rest[k] + 1);
      at := if first then [0] + later else later;
    }
  }

  /** A row that keeps its status stays claimed while other rows only leave that status. */
  lemma {:induction false} StaysClaimed(
      rows: map<WithdrawalId, Withdrawal>, rows': map<WithdrawalId, Withdrawal>, order: seq<WithdrawalId>,
      chain: ChainId, status: WithdrawalStatus, limit: nat, limit': nat, id: WithdrawalId)
    requires id in Claimed(rows, order, chain, status, limit) && limit <= limit'
    requires id in rows' && rows'[id].chain == chain && rows'[id].status == status
    requires forall x :: x in rows' && rows'[x].chain == chain && rows'[x].status == status ==>
      x in rows && rows[x].chain == chain && rows[x].status == status
    ensures id in Claimed(rows', order, chain, status, limit')
  {
    if order[0] != id {
      var x, rest := order[0], order[1..];
      var was := x in rows && rows[x].chain == chain && rows[x].status == status;
      var now := x in rows' && rows'[x].chain == chain && rows'[x].status == status;
      var left, left' := if was then limit - 1 else limit, if now then limit' - 1 else limit';
      StaysClaimed(rows, rows', rest, chain, status, left, left', id);
    }
  }

  lemma InFlightHasHash(b: Books, id: WithdrawalId)
    requires Inv(b) && id in b.withdrawals && b.withdrawals[id].status.InFlight()
    ensures b.withdrawals[id].txHash.Some?
  {
    RowFact(b, id);
  }

  lemma InFlightClaims(b: Books, order: seq<WithdrawalId>, chain: ChainId)
    requires Inv(b) && Distinct(order)
    ensures Distinct(ClaimedInFlight(b.withdrawals, order, chain))
    ensures AllInFlight(b, ClaimedInFlight(b.withdrawals, order, chain))
  {
    var sent := Claimed(b.withdrawals, order, chain, WithdrawalStatus.Broadcast, BATCH);
    var seen := Claimed(b.withdrawals, order, chain, WithdrawalStatus.Confirming, BATCH);
    ClaimedDistinct(b.withdrawals, order, chain, WithdrawalStatus.Broadcast, BATCH);
    ClaimedDistinct(b.withdrawals, order, chain, WithdrawalStatus.Confirming, BATCH);
    forall i, j | 0 <= i < |sent| && 0 <= j < |seen| ensures sent[i] != seen[j] {
      assert sent[i] in sent && seen[j] in seen;
    }
    forall id | id in sent + seen ensures b.withdrawals[id].txHash.Some? {
      InFlightHasHash(b, id);
    }
  }

  // --------------------------------------------------------------------------- one chain ---

  ghost function Stranded(b: Books, order: seq<WithdrawalId>, chain: ChainId): (ids: seq<WithdrawalId>)
    requires Distinct(order)
    ensures Distinct(ids) && AllIn(b, ids, Signing)
  {
    ClaimedDistinct(b.withdrawals, order, chain, Signing, BATCH);
    Claimed(b.withdrawals, order, chain, Signing, BATCH)
  }

  /** Custody lasts for what the node has seen of this chain. */
  ghost predicate RecoveryClear(b: Books, order: seq<WithdrawalId>, chain: ChainId, out: Outside)
    requires Distinct(order)
  {
    Recoverable(b, Stranded(b, order, chain), out)
  }

  /** The tables when the pass comes to what is in flight. */
  function AfterSending(b: Books, order: seq<WithdrawalId>, chain: ChainId, out: Outside): Books {
    var recovered := Over(b, Claimed(b.withdrawals, order, chain, Signing, BATCH),
        Recovering(out.node, out.resending)).books;
    Over(recovered, Claimed(recovered.withdrawals, order, chain, Approved, BATCH), Sending(out.sending)).books
  }

  lemma AfterSendingKeeps(b: Books, order: seq<WithdrawalId>, chain: ChainId, out: Outside)
    requires Inv(b)
    ensures Inv(AfterSending(b, order, chain, out))
  {
    var ids := Claimed(b.withdrawals, order, chain, Signing, BATCH);
    RecoveryKeeps(b, ids, out);
    var recovered := Over(b, ids, Recovering(out.node, out.resending)).books;
    SendingKeeps(recovered, Claimed(recovered.withdrawals, order, chain, Approved, BATCH), out.sending);
  }

  /** Native custody lasts for the gas of what this chain settles. */
  ghost predicate SettlementClear(b: Books, order: seq<WithdrawalId>, chain: ChainId, out: Outside)
    requires Inv(b) && Distinct(order)
  {
    var m := AfterSending(b, order, chain, out);
    AfterSendingKeeps(b, order, chain, out);
    InFlightClaims(m, order, chain);
    Settleable(m, ClaimedInFlight(m.withdrawals, order, chain), out)
  }

  /** With recovery through, only the settlements decide. */
  lemma SendingClear(b: Books, order: seq<WithdrawalId>, chain: ChainId, out: Outside)
    requires Inv(b) && Distinct(order)
    requires Over(b, Claimed(b.withdrawals, order, chain, Signing, BATCH),
        Recovering(out.node, out.resending)).error.None?
    ensures var m := AfterSending(b, order, chain, out);
      ChainPass(b, order, chain, out)
      == Over(m, ClaimedInFlight(m.withdrawals, order, chain), Watching(out.node, out.fees, out.native))
  {
    var ids := Claimed(b.withdrawals, order, chain, Signing, BATCH);
    RecoveryKeeps(b, ids, out);
    var recovered := Over(b, ids, Recovering(out.node, out.resending)).books;
    ClaimedDistinct(recovered.withdrawals, order, chain, Approved, BATCH);
    SendsAll(recovered, Claimed(recovered.withdrawals, order, chain, Approved, BATCH), out.sending);
  }

  lemma ChainKeeps(b: Books, order: seq<WithdrawalId>, chain: ChainId, out: Outside)
    requires Inv(b) && Distinct(order)
    ensures Inv(ChainPass(b, order, chain, out).books)
  {
    var ids := Claimed(b.withdrawals, order, chain, Signing, BATCH);
    var m := AfterSending(b, order, chain, out);
    if Over(b, ids, Recovering(out.node, out.resending)).error.None? {
      SendingClear(b, order, chain, out);
      AfterSendingKeeps(b, order, chain, out);
      WatchingKeeps(m, ClaimedInFlight(m.withdrawals, order, chain), out);
    } else {
      RecoveryKeeps(b, ids, out);
    }
  }

  /** The pass at a chain goes through exactly when custody and gas last. */
  lemma ChainClearIff(b: Books, order: seq<WithdrawalId>, chain: ChainId, out: Outside)
    requires Inv(b) && Distinct(order)
    ensures ChainPass(b, order, chain, out).error.None? <==>
      RecoveryClear(b, order, chain, out) && SettlementClear(b, order, chain, out)
  {
    RecoversIff(b, Stranded(b, order, chain), out);
    if RecoveryClear(b, order, chain, out) {
      SendingClear(b, order, chain, out);
      var m := AfterSending(b, order, chain, out);
      AfterSendingKeeps(b, order, chain, out);
      InFlightClaims(m, order, chain);
      SettlesIff(m, ClaimedInFlight(m.withdrawals, order, chain), out);
    }
  }

  // --------------------------------------------------------------------------- all chains ---

  lemma {:induction false} RunKeeps(b: Books, order: seq<WithdrawalId>, chains: seq<ChainId>, out: ChainId -> Outside)
    requires Inv(b) && Distinct(order)
    ensures Inv(RunPass(b, order, chains, out).books)
  {
    if chains != [] {
      var m, chain := RunPass(b, order, chains[..|chains| - 1], out).books, chains[|chains| - 1];
      RunKeeps(b, order, chains[..|chains| - 1], out);
      ChainKeeps(m, order, chain, out(chain));
    }
  }

  /** The pass over one chain more, and what stays of it when it ends there. */
  lemma ChainNext(b: Books, order: seq<WithdrawalId>, chains: seq<ChainId>, k: nat, out: ChainId -> Outside)
    requires k < |chains| && RunPass(b, order, chains[..k], out).error.None?
    ensures var p := ChainPass(RunPass(b, order, chains[..k], out).books, order, chains[k], out(chains[k]));
      RunPass(b, order, chains[..k + 1], out) == p && (p.error.Some? ==> RunPass(b, order, chains, out) == p)
  {
    assert chains[..k + 1][..k] == chains[..k];
    if RunPass(b, order, chains[..k + 1], out).error.Some? {
      PassEnded(b, order, chains, k + 1, out);
    }
  }

  lemma {:induction false} PassEnded(
      b: Books, order: seq<WithdrawalId>, chains: seq<ChainId>, k: nat, out: ChainId -> Outside)
    requires k <= |chains| && RunPass(b, order, chains[..k], out).error.Some?
    ensures RunPass(b, order, chains, out) == RunPass(b, order, chains[..k], out)
  {
    if k == |chains| {
      assert chains[..k] == chains;
    } else {
      assert chains[..|chains| - 1][..k] == chains[..k];
      PassEnded(b, order, chains[..|chains| - 1], k, out);
    }
  }

  /** The pass, come to chain `k`, gets through it. */
  predicate ThroughAt(b: Books, order: seq<WithdrawalId>, chains: seq<ChainId>, out: ChainId -> Outside, k: nat)
    requires k < |chains|
  {
    ChainPass(RunPass(b, order, chains[..k], out).books, order, chains[k], out(chains[k])).error.None?
  }

  lemma ThroughEach(b: Books, order: seq<WithdrawalId>, chains: seq<ChainId>, out: ChainId -> Outside, k: nat)
    requires k < |chains| && RunPass(b, order, chains, out).error.None?
    ensures ThroughAt(b, order, chains, out, k)
  {
    if RunPass(b, order, chains[..k], out).error.Some? {
      PassEnded(b, order, chains, k, out);
    }
    ChainNext(b, order, chains, k, out);
  }

  /** A pass that ended in an error ended at one of the chains. */
  lemma {:induction false} BlockedAt(
      b: Books, order: seq<WithdrawalId>, chains: seq<ChainId>, out: ChainId -> Outside, n: nat)
    returns (k: nat)
    requires n <= |chains| && RunPass(b, order, chains[..n], out).error.Some?
    ensures k < n && !ThroughAt(b, order, chains, out, k)
  {
    if RunPass(b, order, chains[..n - 1], out).error.Some? {
      k := BlockedAt(b, order, chains, out, n - 1);
    } else {
      k := n - 1;
      ChainNext(b, order, chains, k, out);
    }
  }

  /** The pass, come to chain `k`, finds enough custody and gas. */
  ghost predicate ClearAt(b: Books, order: seq<WithdrawalId>, chains: seq<ChainId>, out: ChainId -> Outside, k: nat)
    requires Inv(b) && Distinct(order) && k < |chains|
  {
    var m := RunPass(b, order, chains[..k], out).books;
    RunKeeps(b, order, chains[..k], out);
    RecoveryClear(m, order, chains[k], out(chains[k])) && SettlementClear(m, order, chains[k], out(chains[k]))
  }

  lemma ClearIsThrough(b: Books, order: seq<WithdrawalId>, chains: seq<ChainId>, out: ChainId -> Outside, k: nat)
    requires Inv(b) && Distinct(order) && k < |chains|
    ensures ThroughAt(b, order, chains, out, k) <==> ClearAt(b, order, chains, out, k)
  {
    RunKeeps(b, order, chains[..k], out);
    ChainClearIff(RunPass(b, order, chains[..k], out).books, order, chains[k], out(chains[k]));
  }

  /** A whole pass goes through exactly when it finds enough custody and gas at every chain. */
  lemma PassClearIff(b: Books, order: seq<WithdrawalId>, chains: seq<ChainId>, out: ChainId -> Outside)
    requires Inv(b) && Distinct(order)
    ensures RunPass(b, order, chains, out).error.None? <==>
      forall k :: 0 <= k < |chains| ==> ClearAt(b, order, chains, out, k)
  {
    if RunPass(b, order, chains, out).error.None? {
      forall k | 0 <= k < |chains| ensures ClearAt(b, order, chains, out, k) {
        ThroughEach(b, order, chains, out, k);
        ClearIsThrough(b, order, chains, out, k);
      }
    } else {
      assert chains[..|chains|] == chains;
      var k := BlockedAt(b, order, chains, out, |chains|);
      ClearIsThrough(b, order, chains, out, k);
    }
  }

  lemma BlockedAtOnce(b: Books, order: seq<WithdrawalId>, chain: ChainId, later: seq<ChainId>, out: ChainId -> Outside)
    requires ChainPass(b, order, chain, out(chain)).error.Some?
    ensures RunPass(b, order, [chain] + later, out) == ChainPass(b, order, chain, out(chain))
  {
    ChainNext(b, order, [chain] + later, 0, out);
  }

  // ---------------------------------------------------------------------- a blocked pass ---

  /** No row changed but rows of the chain that were signing; and none of those came to be so. */
  ghost predicate OnlyStrandedRows(b: Books, chain: ChainId, b': Books) {
    && b'.withdrawals.Keys == b.withdrawals.Keys
    && forall id :: id in b.withdrawals && !(b.withdrawals[id].status.Signing? && b.withdrawals[id].chain == chain) ==>
         b'.withdrawals[id] == b.withdrawals[id]
  }

  /** Signed, claimed by the next pass, and more than custody holds. */
  ghost predicate Stuck(b: Books, order: seq<WithdrawalId>, chain: ChainId, id: WithdrawalId)
    requires Distinct(order)
  {
    id in Stranded(b, order, chain) && CustodyOf(b, b.withdrawals[id].asset) < b.withdrawals[id].amount
  }

  lemma ShortBlocks(b: Books, ids: seq<WithdrawalId>, out: Outside, id: WithdrawalId)
    requires Inv(b) && AllIn(b, ids, Signing) && id in ids && Known(b.withdrawals[id], out)
    requires CustodyOf(b, b.withdrawals[id].asset) < b.withdrawals[id].amount
    ensures !Recoverable(b, ids, out)
  {
    var i :| 0 <= i < |ids| && ids[i] == id;
    BatchFacts(b, ids);
    LeftBounds(b, ids[..i], out, b.withdrawals[id].asset);
    assert !Covered(b, ids, out, i);
  }

  /** What recovery did before it stopped: other rows are as they were, and no custody came back. */
  lemma RecoveryLeaves(b: Books, order: seq<WithdrawalId>, chain: ChainId, out: Outside)
    requires Inv(b) && Distinct(order)
    ensures var b' := Over(b, Stranded(b, order, chain), Recovering(out.node, out.resending)).books;
      && OnlyStrandedRows(b, chain, b') && (forall a :: CustodyOf(b', a) <= CustodyOf(b, a))
      && forall id :: id in b.withdrawals ==>
           b'.withdrawals[id] == b.withdrawals[id] || b'.withdrawals[id].status.Broadcast?
  {
    var ids := Stranded(b, order, chain);
    var k := StoppedAt(b, ids, Recovering(out.node, out.resending));
    RecoversIff(b, ids[..k], out);
    BatchFacts(b, ids[..k]);
    forall a { LeftBounds(b, ids[..k], out, a); }
  }

  lemma StuckRecovery(b: Books, order: seq<WithdrawalId>, chain: ChainId, id: WithdrawalId, out: Outside)
    requires Inv(b) && Distinct(order) && Stuck(b, order, chain, id) && Known(b.withdrawals[id], out)
    ensures var p := Over(b, Stranded(b, order, chain), Recovering(out.node, out.resending));
      && p.error.Some? && OnlyStrandedRows(b, chain, p.books) && p.books.withdrawals[id] == b.withdrawals[id]
      && Stuck(p.books, order, chain, id)
  {
    ShortBlocks(b, Stranded(b, order, chain), out, id);
    RecoversIff(b, Stranded(b, order, chain), out);
    RecoveryLeaves(b, order, chain, out);
    StaysSigning(b, order, chain, id, out);
    var b' := Over(b, Stranded(b, order, chain), Recovering(out.node, out.resending)).books;
    StaysClaimed(b.withdrawals, b'.withdrawals, order, chain, Signing, BATCH, BATCH, id);
  }

  /**
   * A withdrawal that was sent and that custody cannot cover blocks every pass that claims it: the
   * pass ends there, no other row of any chain is touched, and the withdrawal is as stuck as before.
   */
  lemma StuckPass(
      b: Books, order: seq<WithdrawalId>, chain: ChainId, later: seq<ChainId>, id: WithdrawalId,
      out: ChainId -> Outside)
    requires Inv(b) && Distinct(order) && Stuck(b, order, chain, id) && Known(b.withdrawals[id], out(chain))
    ensures var p := RunPass(b, order, [chain] + later, out);
      && p.error.Some? && OnlyStrandedRows(b, chain, p.books) && p.books.withdrawals[id] == b.withdrawals[id]
      && Inv(p.books) && Stuck(p.books, order, chain, id)
  {
    RunKeeps(b, order, [chain] + later, out);
    StuckRecovery(b, order, chain, id, out(chain));
    BlockedAtOnce(b, order, chain, later, out);
  }

  lemma StaysSigning(b: Books, order: seq<WithdrawalId>, chain: ChainId, id: WithdrawalId, out: Outside)
    requires Inv(b) && Distinct(order) && Stuck(b, order, chain, id) && Known(b.withdrawals[id], out)
    ensures var b' := Over(b, Stranded(b, order, chain), Recovering(out.node, out.resending)).books;
      id in b'.withdrawals && b'.withdrawals[id] == b.withdrawals[id]
  {
    var ids := Stranded(b, order, chain);
    var k := StoppedAt(b, ids, Recovering(out.node, out.resending));
    RecoversIff(b, ids[..k], out);
    if id in ids[..k] {
      ShortBlocks(b, ids[..k], out, id);
    }
  }

  /** The tables after pass upon pass with nothing between them. */
  function PassAfterPass(
      b: Books, order: seq<WithdrawalId>, chains: seq<ChainId>, outs: seq<ChainId -> Outside>): Books {
    if outs == [] then b
    else RunPass(PassAfterPass(b, order, chains, outs[..|outs| - 1]), order, chains, outs[|outs| - 1]).books
  }

  /**
   * However many passes are tried, each one ends in an error while the node knows the transaction:
   * nothing approved is ever signed and nothing in flight is ever settled, on that chain or a later one.
   */
  lemma {:induction false} StuckForGood(
      b: Books, order: seq<WithdrawalId>, chain: ChainId, later: seq<ChainId>, id: WithdrawalId,
      outs: seq<ChainId -> Outside>)
    requires Inv(b) && Distinct(order) && Stuck(b, order, chain, id)
    requires forall j :: 0 <= j < |outs| ==> Known(b.withdrawals[id], outs[j](chain))
    ensures var b' := PassAfterPass(b, order, [chain] + later, outs);
      && Inv(b') && OnlyStrandedRows(b, chain, b') && b'.withdrawals[id] == b.withdrawals[id]
      && Stuck(b', order, chain, id)
      && forall out: ChainId -> Outside ::
           Known(b.withdrawals[id], out(chain)) ==> RunPass(b', order, [chain] + later, out).error.Some?
  {
    if outs != [] {
      var front, out := outs[..|outs| - 1], outs[|outs| - 1];
      StuckForGood(b, order, chain, later, id, front);
      StuckPass(PassAfterPass(b, order, [chain] + later, front), order, chain, later, id, out);
    }
    var b' := PassAfterPass(b, order, [chain] + later, outs);
    forall out: ChainId -> Outside | Known(b.withdrawals[id], out(chain))
      ensures RunPass(b', order, [chain] + later, out).error.Some?
    {
      StuckPass(b', order, chain, later, id, out);
    }
  }
}
