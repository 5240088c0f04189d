/**
 * When a pass of the withdrawal pipeline goes through, on custody and gas alone, and what a blocked one
 * leaves undone.
 */
module PassLaws {
  import opened Prelude
  import opened Ledger
  import opened LedgerLaws
  import opened Books
  import opened BooksLaws
  import opened RefusalLaws
  import opened Pipeline
  import opened Passes

  function CustodyOf(b: Books, a: AssetId): int { Balance(b.ledger, System(Custody, a)) }

  ghost predicate Distinct(ids: seq<WithdrawalId>) {
    forall i, j :: 0 <= i < j < |ids| ==> ids[i] != ids[j]
  }

  ghost predicate AllIn(b: Books, ids: seq<WithdrawalId>, status: WithdrawalStatus) {
    forall i :: 0 <= i < |ids| ==> ids[i] in b.withdrawals && b.withdrawals[ids[i]].status == status
  }

  // ------------------------------------------------------------------------ walking a batch ---

  /** The pass over one candidate more, and what stays of it when it ends there. */
  lemma OverNext(b: Books, ids: seq<WithdrawalId>, i: nat, step: (Books, WithdrawalId) -> Result<Books>)
    requires i < |ids| && Over(b, ids[..i], step).error.None?
    ensures var before := Over(b, ids[..i], step).books;
      match step(before, ids[i])
      case Ok(b') => Over(b, ids[..i + 1], step) == Pass(b', None)
      case Err(e) => Over(b, ids, step) == Pass(before, Some(e))
  {
    assert ids[..i + 1][..i] == ids[..i];
    if step(Over(b, ids[..i], step).books, ids[i]).Err? {
      StaysEnded(b, ids, i + 1, step);
    }
  }

  lemma {:induction false} StaysEnded(
      b: Books, ids: seq<WithdrawalId>, k: nat, step: (Books, WithdrawalId) -> Result<Books>)
    requires k <= |ids| && Over(b, ids[..k], step).error.Some?
    ensures Over(b, ids, step) == Over(b, ids[..k], step)
  {
    if k == |ids| {
      assert ids[..k] == ids;
    } else {
      assert ids[..|ids| - 1][..k] == ids[..k];
      StaysEnded(b, ids[..|ids| - 1], k, step);
    }
  }

  /** A pass that ended early is a clean pass over what came before the candidate it stopped at. */
  lemma {:induction false} StoppedAt(b: Books, ids: seq<WithdrawalId>, step: (Books, WithdrawalId) -> Result<Books>)
    returns (k: nat)
    ensures k <= |ids|
    ensures var p := Over(b, ids, step);
      && Over(b, ids[..k], step) == Pass(p.books, None)
      && (p.error.None? <==> k == |ids|)
      && (k < |ids| ==> step(p.books, ids[k]).Err?)
  {
    if ids == [] {
      k := 0;
    } else {
      var front := ids[..|ids| - 1];
      k := StoppedAt(b, front, step);
      assert front[..k] == ids[..k];
      if k == |front| && step(Over(b, front, step).books, ids[|front|]).Ok? {
        k := |ids|;
      }
    }
    assert ids[..|ids|] == ids;
  }

  // ---------------------------------------------------------------------- one withdrawal moved ---

  /** Custody of every asset, `amount` of one having been taken. */
  ghost predicate TakenFrom(l: Ledger, l': Ledger, asset: AssetId, amount: int) {
    forall a {:trigger System(Custody, a)} ::
      Balance(l', System(Custody, a)) == Balance(l, System(Custody, a)) - if a == asset then amount else 0
  }

  lemma PostingTakes(l: Ledger, id: WithdrawalId, a: AssetId, amount: int)
    requires BroadcastKey(id) !in l.posted.Keys && RecordBroadcast(l, id, a, amount).Ok?
    ensures TakenFrom(l, RecordBroadcast(l, id, a, amount).value, a, amount)
  {
    PairEffect(l, BroadcastKey(id), System(Clearing, a), System(Custody, a), amount);
  }

  lemma BroadcastTakes(b: Books, id: WithdrawalId)
    requires Inv(b) && id in b.withdrawals && b.withdrawals[id].status.Signing? && MarkBroadcast(b, id).Ok?
    ensures TakenFrom(b.ledger, MarkBroadcast(b, id).value.ledger, b.withdrawals[id].asset, b.withdrawals[id].amount)
  {
    RowFact(b, id);
    BroadcastRow(b.ledger.posted.Keys, id, b.withdrawals[id]);
    PostingTakes(b.ledger, id, b.withdrawals[id].asset, b.withdrawals[id].amount);
  }

  // --------------------------------------------------------------------------- recovery ---

  /** The node has seen the recorded transaction, so its broadcast has to be recorded. */
  predicate Known(w: Withdrawal, out: Outside) { w.txHash.Some? && !out.node(w.txHash.value).Unknown? }

  /** Recovery would record a broadcast of it. */
  predicate Draws(id: WithdrawalId, w: Withdrawal, out: Outside) {
    w.txHash.Some? && (Known(w, out) || (w.nonce.Some? && out.resending(id).accepted))
  }

  /** Custody of an asset left by recovery of `ids`, each taking its amount if that is still there. */
  ghost function Left(b: Books, ids: seq<WithdrawalId>, out: Outside, a: AssetId): int
    requires AllIn(b, ids, Signing)
  {
    if ids == [] then CustodyOf(b, a)
    else
      var before, id := Left(b, ids[..|ids| - 1], out, a), ids[|ids| - 1];
      var w := b.withdrawals[id];
      if w.asset == a && Draws(id, w, out) && before >= w.amount then before - w.amount else before
  }

  /** What the candidates before it leave covers candidate `i`. */
  ghost predicate Covered(b: Books, ids: seq<WithdrawalId>, out: Outside, i: nat)
    requires AllIn(b, ids, Signing) && i < |ids|
  {
    Left(b, ids[..i], out, b.withdrawals[ids[i]].asset) >= b.withdrawals[ids[i]].amount
  }

  /** Recovery records the broadcast of candidate `i`. */
  ghost predicate Recorded(b: Books, ids: seq<WithdrawalId>, out: Outside, i: nat)
    requires AllIn(b, ids, Signing) && i < |ids|
  {
    Draws(ids[i], b.withdrawals[ids[i]], out) && Covered(b, ids, out, i)
  }

  /** Custody lasts for every transaction the node has seen. */
  ghost predicate Recoverable(b: Books, ids: seq<WithdrawalId>, out: Outside)
    requires AllIn(b, ids, Signing)
  {
    forall i :: 0 <= i < |ids| && Known(b.withdrawals[ids[i]], out) ==> Covered(b, ids, out, i)
  }

  /** The row of a candidate, according to whether its broadcast was recorded. */
  function RowAfter(w: Withdrawal, taken: bool): Withdrawal {
    if taken then w.(status := WithdrawalStatus.Broadcast) else w
  }

  /** Every covered candidate that recovery draws for is in flight, and no other row changed. */
  ghost predicate RecoveredRows(b: Books, ids: seq<WithdrawalId>, out: Outside, b': Books)
    requires AllIn(b, ids, Signing)
  {
    && b'.withdrawals.Keys == b.withdrawals.Keys
    && (forall i :: 0 <= i < |ids| ==>
          b'.withdrawals[ids[i]] == RowAfter(b.withdrawals[ids[i]], Recorded(b, ids, out, i)))
    && (forall id :: id in b.withdrawals && id !in ids ==> b'.withdrawals[id] == b.withdrawals[id])
  }

  ghost predicate Recovered(b: Books, ids: seq<WithdrawalId>, out: Outside, b': Books)
    requires AllIn(b, ids, Signing)
  {
    RecoveredRows(b, ids, out, b') && forall a :: CustodyOf(b', a) == Left(b, ids, out, a)
  }

  /** One candidate, given what recording its broadcast does. */
  lemma RecoverOne(b: Books, id: WithdrawalId, out: Outside)
    requires id in b.withdrawals && b.withdrawals[id].status.Signing? && b.withdrawals[id].txHash.Some?
    requires MarkBroadcast(b, id).Ok? <==> CustodyOf(b, b.withdrawals[id].asset) >= b.withdrawals[id].amount
    requires MarkBroadcast(b, id).Ok? ==>
      TakenFrom(b.ledger, MarkBroadcast(b, id).value.ledger, b.withdrawals[id].asset, b.withdrawals[id].amount)
    ensures var w, r := b.withdrawals[id], RecoverStep(b, id, out.node, out.resending(id));
      var covers := CustodyOf(b, w.asset) >= w.amount;
      && (r.Err? <==> Known(w, out) && !covers)
      && (r.Ok? ==>
            && r.value.withdrawals == b.withdrawals[id := RowAfter(w, Draws(id, w, out) && covers)]
            && TakenFrom(b.ledger, r.value.ledger, w.asset, if Draws(id, w, out) && covers then w.amount else 0))
  {}

  lemma BroadcastFacts(b: Books, id: WithdrawalId)
    requires Inv(b) && id in b.withdrawals && b.withdrawals[id].status.Signing?
    ensures b.withdrawals[id].txHash.Some? && b.withdrawals[id].amount > 0
    ensures MarkBroadcast(b, id).Ok? <==> CustodyOf(b, b.withdrawals[id].asset) >= b.withdrawals[id].amount
    ensures MarkBroadcast(b, id).Ok? ==>
      TakenFrom(b.ledger, MarkBroadcast(b, id).value.ledger, b.withdrawals[id].asset, b.withdrawals[id].amount)
  {
    RowFact(b, id);
    SignedHasHash(b.ledger.posted.Keys, id, b.withdrawals[id]);
    BroadcastRefusedOnlyForCustody(b, id);
    if MarkBroadcast(b, id).Ok? {
      BroadcastTakes(b, id);
    }
  }

  lemma SignedHasHash(posted: set<Key>, id: WithdrawalId, w: Withdrawal)
    requires RowOk(posted, id, w) && w.status.Signing?
    ensures w.txHash.Some? && w.amount > 0
  {}

  lemma RecoverKeeps(b: Books, id: WithdrawalId, out: Outside)
    requires Inv(b) && RecoverStep(b, id, out.node, out.resending(id)).Ok?
    ensures Inv(RecoverStep(b, id, out.node, out.resending(id)).value)
  {
    if FailAndRelease(b, id).Ok? {
      FailAndReleaseKeeps(b, id);
    }
    if MarkBroadcast(b, id).Ok? {
      MarkBroadcastKeeps(b, id);
    }
  }

  lemma ShorterBatch(b: Books, ids: seq<WithdrawalId>, out: Outside)
    requires ids != [] && AllIn(b, ids, Signing)
    ensures var front := ids[..|ids| - 1];
      && (forall i :: 0 <= i < |front| ==> (Covered(b, ids, out, i) <==> Covered(b, front, out, i)))
      && (Recoverable(b, ids, out) <==>
            Recoverable(b, front, out) && (Known(b.withdrawals[ids[|front|]], out) ==> Covered(b, ids, out, |front|)))
  {
    var front := ids[..|ids| - 1];
    forall i | 0 <= i < |front| ensures Covered(b, ids, out, i) <==> Covered(b, front, out, i) {
      assert front[..i] == ids[..i];
    }
  }

  lemma {:induction false} RecoveryKeeps(b: Books, ids: seq<WithdrawalId>, out: Outside)
    requires Inv(b)
    ensures Inv(Over(b, ids, Recovering(out.node, out.resending)).books)
  {
    if ids != [] {
      var m := Over(b, ids[..|ids| - 1], Recovering(out.node, out.resending)).books;
      RecoveryKeeps(b, ids[..|ids| - 1], out);
      if RecoverStep(m, ids[|ids| - 1], out.node, out.resending(ids[|ids| - 1])).Ok? {
        RecoverKeeps(m, ids[|ids| - 1], out);
      }
    }
  }

  /**
   * Recovery goes through exactly when custody lasts for every transaction the node has seen, and
   * then every covered candidate is in flight.
   */
  lemma {:induction false} RecoversIff(b: Books, ids: seq<WithdrawalId>, out: Outside)
    requires Inv(b) && Distinct(ids) && AllIn(b, ids, Signing)
    ensures var p := Over(b, ids, Recovering(out.node, out.resending));
      && (p.error.None? <==> Recoverable(b, ids, out))
      && (p.error.None? ==> Recovered(b, ids, out, p.books))
  {
    if ids != [] {
      var front := ids[..|ids| - 1];
      RecoversIff(b, front, out);
      ShorterBatch(b, ids, out);
      var m := Over(b, front, Recovering(out.node, out.resending));
      if m.error.None? {
        RecoveryKeeps(b, front, out);
        NextRecovered(b, ids, out, m.books);
      }
    }
  }

  lemma NextRecovered(b: Books, ids: seq<WithdrawalId>, out: Outside, m: Books)
    requires ids != [] && Distinct(ids) && AllIn(b, ids, Signing) && Recovered(b, ids[..|ids| - 1], out, m) && Inv(m)
    ensures var r, i := RecoverStep(m, ids[|ids| - 1], out.node, out.resending(ids[|ids| - 1])), |ids| - 1;
      && (r.Ok? <==> (Known(b.withdrawals[ids[i]], out) ==> Covered(b, ids, out, i)))
      && (r.Ok? ==> Recovered(b, ids, out, r.value))
  {
    var front, id := ids[..|ids| - 1], ids[|ids| - 1];
    assert id !in front && m.withdrawals[id] == b.withdrawals[id];
    BroadcastFacts(m, id);
    RecoverOne(m, id, out);
    var r := RecoverStep(m, id, out.node, out.resending(id));
    if r.Ok? {
      OneMoreRecovered(b, ids, out, m, r.value);
    }
  }

  lemma OneMoreRecovered(b: Books, ids: seq<WithdrawalId>, out: Outside, m: Books, b': Books)
    requires ids != [] && Distinct(ids) && AllIn(b, ids, Signing) && Recovered(b, ids[..|ids| - 1], out, m)
    requires var id := ids[|ids| - 1];
      var w := b.withdrawals[id];
      var taken := Draws(id, w, out) && CustodyOf(m, w.asset) >= w.amount;
      b'.withdrawals == m.withdrawals[id := RowAfter(w, taken)]
        && TakenFrom(m.ledger, b'.ledger, w.asset, if taken then w.amount else 0)
    ensures Recovered(b, ids, out, b')
  {
    var front, id := ids[..|ids| - 1], ids[|ids| - 1];
    var w := b.withdrawals[id];
    assert CustodyOf(m, w.asset) == Left(b, front, out, w.asset);
    OneMoreRow(b, ids, out, m, b');
    forall a ensures CustodyOf(b', a) == Left(b, ids, out, a) {
      assert CustodyOf(m, a) == Left(b, front, out, a);
    }
  }

  lemma OneMoreRow(b: Books, ids: seq<WithdrawalId>, out: Outside, m: Books, b': Books)
    requires ids != [] && Distinct(ids) && AllIn(b, ids, Signing) && RecoveredRows(b, ids[..|ids| - 1], out, m)
    requires b'.withdrawals
      == m.withdrawals[ids[|ids| - 1] := RowAfter(b.withdrawals[ids[|ids| - 1]], Recorded(b, ids, out, |ids| - 1))]
    ensures RecoveredRows(b, ids, out, b')
  {
    var front := ids[..|ids| - 1];
    forall i | 0 <= i < |ids|
      ensures b'.withdrawals[ids[i]] == RowAfter(b.withdrawals[ids[i]], Recorded(b, ids, out, i))
    {
      if i < |front| {
        assert front[i] == ids[i] && front[..i] == ids[..i];
      }
    }
  }

  // --------------------------------------------------------------- what custody has to hold ---

  /** What recovery would take of an asset for all of `ids`. */
  ghost function Demand(b: Books, ids: seq<WithdrawalId>, out: Outside, a: AssetId): int
    requires AllIn(b, ids, Signing)
  {
    if ids == [] then 0
    else
      var id := ids[|ids| - 1];
      var w := b.withdrawals[id];
      Demand(b, ids[..|ids| - 1], out, a) + if w.asset == a && Draws(id, w, out) then w.amount else 0
  }

  ghost predicate AllCovered(b: Books, ids: seq<WithdrawalId>, out: Outside)
    requires AllIn(b, ids, Signing)
  {
    forall i :: 0 <= i < |ids| && Draws(ids[i], b.withdrawals[ids[i]], out) ==> Covered(b, ids, out, i)
  }

  lemma {:induction false} LeftBounds(b: Books, ids: seq<WithdrawalId>, out: Outside, a: AssetId)
    requires CustodyOf(b, a) >= 0 && AllIn(b, ids, Signing) && Positive(b, ids)
    ensures 0 <= Left(b, ids, out, a) <= CustodyOf(b, a)
    ensures CustodyOf(b, a) - Demand(b, ids, out, a) <= Left(b, ids, out, a)
    ensures AllCovered(b, ids, out) ==> Left(b, ids, out, a) == CustodyOf(b, a) - Demand(b, ids, out, a)
  {
    if ids != [] {
      var front := ids[..|ids| - 1];
      LeftBounds(b, front, out, a);
      ShorterBatch(b, ids, out);
      assert AllCovered(b, ids, out) ==> AllCovered(b, front, out);
    }
  }

  ghost predicate Positive(b: Books, ids: seq<WithdrawalId>)
    requires AllIn(b, ids, Signing)
  {
    forall i :: 0 <= i < |ids| ==> b.withdrawals[ids[i]].amount > 0
  }

  lemma BatchFacts(b: Books, ids: seq<WithdrawalId>)
    requires Inv(b) && AllIn(b, ids, Signing)
    ensures Positive(b, ids) && forall a :: CustodyOf(b, a) >= 0
  {
    forall i | 0 <= i < |ids| ensures b.withdrawals[ids[i]].amount > 0 {
      BroadcastFacts(b, ids[i]);
    }
    forall a ensures CustodyOf(b, a) >= 0 {
      assert Balance(b.ledger, System(Custody, a)) >= 0;
    }
  }

  lemma {:induction false} DemandGrows(b: Books, ids: seq<WithdrawalId>, out: Outside, a: AssetId, k: nat)
    requires AllIn(b, ids, Signing) && Positive(b, ids) && k <= |ids|
    ensures Demand(b, ids[..k], out, a) <= Demand(b, ids, out, a)
  {
    if k == |ids| {
      assert ids[..k] == ids;
    } else {
      var front := ids[..|ids| - 1];
      assert front[..k] == ids[..k];
      DemandGrows(b, front, out, a, k);
    }
  }

  /** Recovery records every broadcast it can, exactly when custody of each asset covers all of them together. */
  lemma AllCoveredIff(b: Books, ids: seq<WithdrawalId>, out: Outside)
    requires Inv(b) && AllIn(b, ids, Signing)
    ensures AllCovered(b, ids, out) <==> forall a :: CustodyOf(b, a) >= Demand(b, ids, out, a)
  {
    BatchFacts(b, ids);
    forall a { LeftBounds(b, ids, out, a); }
    if forall a :: CustodyOf(b, a) >= Demand(b, ids, out, a) {
      forall i | 0 <= i < |ids| && Draws(ids[i], b.withdrawals[ids[i]], out) ensures Covered(b, ids, out, i) {
        CoveredByDemand(b, ids, out, i);
      }
    }
  }

  lemma CoveredByDemand(b: Books, ids: seq<WithdrawalId>, out: Outside, i: nat)
    requires AllIn(b, ids, Signing) && Positive(b, ids) && i < |ids| && Draws(ids[i], b.withdrawals[ids[i]], out)
    requires var a := b.withdrawals[ids[i]].asset; CustodyOf(b, a) >= Demand(b, ids, out, a) && CustodyOf(b, a) >= 0
    ensures Covered(b, ids, out, i)
  {
    var a := b.withdrawals[ids[i]].asset;
    assert ids[..i + 1][..i] == ids[..i];
    LeftBounds(b, ids[..i], out, a);
    DemandGrows(b, ids, out, a, i + 1);
  }
}
