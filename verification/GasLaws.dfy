/** When signing and settling go through in a pass of the withdrawal pipeline. */
module GasLaws {
  import opened Prelude
  import opened Ledger
  import opened LedgerLaws
  import opened Books
  import opened BooksLaws
  import opened RefusalLaws
  import opened Pipeline
  import opened Passes
  import opened PassLaws

  // ----------------------------------------------------------------------------- signing ---

  /** A candidate that was processed: failed unless it was signed, in flight only if the node took it. */
  ghost predicate Processed(w: Withdrawal, answers: Answers, w': Withdrawal) {
    && (w'.status.Failed? <==> !answers.signs)
    && (answers.signs ==> w'.txHash.Some? && (w'.status.Signing? || (w'.status.Broadcast? && answers.accepted)))
    && w'.asset == w.asset && w'.amount == w.amount && w'.chain == w.chain
  }

  lemma SendOne(b: Books, id: WithdrawalId, answers: Answers)
    requires id in b.withdrawals && b.withdrawals[id].status.Approved? && FailAndRelease(b, id).Ok?
    ensures var r := SendStep(b, id, answers);
      && r.Ok? && id in r.value.withdrawals && Processed(b.withdrawals[id], answers, r.value.withdrawals[id])
      && r.value.withdrawals == b.withdrawals[id := r.value.withdrawals[id]]
  {}

  lemma SendKeeps(b: Books, id: WithdrawalId, answers: Answers)
    requires Inv(b) && SendStep(b, id, answers).Ok?
    ensures Inv(SendStep(b, id, answers).value)
  {
    if b.withdrawals[id].status.Approved? {
      if answers.signs {
        var signed := Sign(b, id, answers.hint, answers.fee).value;
        SignKeeps(b, id, answers.hint, answers.fee);
        if MarkBroadcast(signed, id).Ok? {
          MarkBroadcastKeeps(signed, id);
        }
      } else {
        FailAndReleaseKeeps(b, id);
      }
    }
  }

  ghost predicate AllProcessed(b: Books, ids: seq<WithdrawalId>, answers: WithdrawalId -> Answers, b': Books)
    requires AllIn(b, ids, Approved)
  {
    && b'.withdrawals.Keys == b.withdrawals.Keys
    && (forall i :: 0 <= i < |ids| ==> Processed(b.withdrawals[ids[i]], answers(ids[i]), b'.withdrawals[ids[i]]))
    && (forall id :: id in b.withdrawals && id !in ids ==> b'.withdrawals[id] == b.withdrawals[id])
  }

  lemma {:induction false} SendingKeeps(b: Books, ids: seq<WithdrawalId>, answers: WithdrawalId -> Answers)
    requires Inv(b)
    ensures Inv(Over(b, ids, Sending(answers)).books)
  {
    if ids != [] {
      var m := Over(b, ids[..|ids| - 1], Sending(answers)).books;
      SendingKeeps(b, ids[..|ids| - 1], answers);
      if SendStep(m, ids[|ids| - 1], answers(ids[|ids| - 1])).Ok? {
        SendKeeps(m, ids[|ids| - 1], answers(ids[|ids| - 1]));
      }
    }
  }

  /** Processing what is approved is never blocked, and every candidate is moved. */
  lemma {:induction false} SendsAll(b: Books, ids: seq<WithdrawalId>, answers: WithdrawalId -> Answers)
    requires Inv(b) && Distinct(ids) && AllIn(b, ids, Approved)
    ensures var p := Over(b, ids, Sending(answers)); p.error.None? && AllProcessed(b, ids, answers, p.books)
  {
    if ids != [] {
      var front := ids[..|ids| - 1];
      SendsAll(b, front, answers);
      var m := Over(b, front, Sending(answers)).books;
      SendingKeeps(b, front, answers);
      FailNeverRefused(m, ids[|ids| - 1]);
      NextProcessed(b, ids, answers, m);
    }
  }

  lemma NextProcessed(b: Books, ids: seq<WithdrawalId>, answers: WithdrawalId -> Answers, m: Books)
    requires ids != [] && Distinct(ids) && AllIn(b, ids, Approved) && AllProcessed(b, ids[..|ids| - 1], answers, m)
    requires FailAndRelease(m, ids[|ids| - 1]).Ok?
    ensures var r := SendStep(m, ids[|ids| - 1], answers(ids[|ids| - 1]));
      r.Ok? && AllProcessed(b, ids, answers, r.value)
  {
    var front, id := ids[..|ids| - 1], ids[|ids| - 1];
    assert id !in front && m.withdrawals[id] == b.withdrawals[id];
    SendOne(m, id, answers(id));
    var b' := SendStep(m, id, answers(id)).value;
    forall i | 0 <= i < |ids| ensures Processed(b.withdrawals[ids[i]], answers(ids[i]), b'.withdrawals[ids[i]]) {
      if i < |front| {
        assert front[i] == ids[i];
      }
    }
  }

  // ----------------------------------------------------------------------------- settling ---

  ghost predicate AllInFlight(b: Books, ids: seq<WithdrawalId>) {
    forall i :: 0 <= i < |ids| ==>
      ids[i] in b.withdrawals && b.withdrawals[ids[i]].status.InFlight() && b.withdrawals[ids[i]].txHash.Some?
  }

  predicate Reverts(w: Withdrawal, out: Outside)
    requires w.txHash.Some?
  {
    var status := out.node(w.txHash.value); status.Mined? && !status.success
  }

  /** Its transaction reverted, or has all its confirmations. */
  predicate Settles(w: Withdrawal, out: Outside)
    requires w.txHash.Some?
  {
    var status := out.node(w.txHash.value); status.Mined? && (status.success ==> status.final)
  }

  function FeeOf(w: Withdrawal, out: Outside): nat
    requires w.txHash.Some?
  {
    out.fees(w.txHash.value)
  }

  /** What settling it returns to custody of the native asset before its gas is booked. */
  function Returned(w: Withdrawal, out: Outside): int
    requires w.txHash.Some?
  {
    if Reverts(w, out) && out.native == Some(w.asset) then w.amount else 0
  }

  /** Native custody once `ids` are settled. */
  ghost function GasLeft(b: Books, ids: seq<WithdrawalId>, out: Outside): int
    requires AllInFlight(b, ids) && out.native.Some?
  {
    if ids == [] then CustodyOf(b, out.native.value)
    else
      var before, w := GasLeft(b, ids[..|ids| - 1], out), b.withdrawals[ids[|ids| - 1]];
      if Settles(w, out) then before + Returned(w, out) - FeeOf(w, out) else before
  }

  /** What the candidates before it leave of native custody covers the gas of `w`. */
  ghost predicate GasFor(left: int, w: Withdrawal, out: Outside)
    requires w.txHash.Some?
  {
    FeeOf(w, out) == 0 || (FeeOf(w, out) <= MAX_AMOUNT && left + Returned(w, out) >= FeeOf(w, out))
  }

  ghost predicate Settleable(b: Books, ids: seq<WithdrawalId>, out: Outside)
    requires AllInFlight(b, ids)
  {
    out.native.Some? ==>
      forall i :: 0 <= i < |ids| && Settles(b.withdrawals[ids[i]], out) ==>
        GasFor(GasLeft(b, ids[..i], out), b.withdrawals[ids[i]], out)
  }

  function StatusAfter(w: Withdrawal, out: Outside): WithdrawalStatus
    requires w.txHash.Some?
  {
    if Reverts(w, out) then WithdrawalStatus.Failed
    else if Settles(w, out) then Completed
    else if out.node(w.txHash.value).Mined? then WithdrawalStatus.Confirming
    else w.status
  }

  ghost predicate SettledRows(b: Books, ids: seq<WithdrawalId>, out: Outside, b': Books)
    requires AllInFlight(b, ids)
  {
    && b'.withdrawals.Keys == b.withdrawals.Keys
    && (forall i :: 0 <= i < |ids| ==>
          b'.withdrawals[ids[i]] == b.withdrawals[ids[i]].(status := StatusAfter(b.withdrawals[ids[i]], out)))
    && (forall id :: id in b.withdrawals && id !in ids ==> b'.withdrawals[id] == b.withdrawals[id])
  }

  ghost predicate Settled(b: Books, ids: seq<WithdrawalId>, out: Outside, b': Books)
    requires AllInFlight(b, ids)
  {
    SettledRows(b, ids, out, b') && (out.native.Some? ==> CustodyOf(b', out.native.value) == GasLeft(b, ids, out))
  }

  // ------------------------------------------------------------------------- one settlement ---

  /** Native custody after the fee is booked. */
  lemma FeeTakes(l: Ledger, id: WithdrawalId, native: Option<AssetId>, fee: nat)
    requires FeeKey(id) !in l.posted.Keys && BookFee(l, id, native, fee).Ok? && native.Some?
    ensures Balance(BookFee(l, id, native, fee).value, System(Custody, native.value))
      == Balance(l, System(Custody, native.value)) - fee
  {
    FeeBooked(l, id, native.value, fee, BookFee(l, id, native, fee).value, System(Custody, native.value));
  }

  lemma CompletionTakes(l: Ledger, id: WithdrawalId, w: Withdrawal, native: Option<AssetId>, fee: nat)
    requires Sound(l) && RowOk(l.posted.Keys, id, w) && w.status.InFlight() && native.Some?
    requires Balance(l, User(Reserved, w.user, w.asset)) >= w.amount
    requires var r := SettleWithdrawal(l, id, w.user, w.asset, w.amount); r.Ok? && BookFee(r.value, id, native, fee).Ok?
    ensures var l1 := SettleWithdrawal(l, id, w.user, w.asset, w.amount).value;
      Balance(BookFee(l1, id, native, fee).value, System(Custody, native.value))
        == Balance(l, System(Custody, native.value)) - fee
  {
    FreshSettleKeys(l.posted.Keys, id, w);
    SettleLeg(l, id, w);
    var l1 := SettleWithdrawal(l, id, w.user, w.asset, w.amount).value;
    FeeStillFresh(l.posted.Keys, l1.posted.Keys, id);
    FeeTakes(l1, id, native, fee);
  }

  lemma UnwindingTakes(l: Ledger, id: WithdrawalId, w: Withdrawal, native: Option<AssetId>, fee: nat)
    requires Sound(l) && RowOk(l.posted.Keys, id, w) && w.status.InFlight() && native.Some?
    requires Balance(l, User(Reserved, w.user, w.asset)) >= w.amount
    requires Unwound(l, id, w).Ok? && BookFee(Unwound(l, id, w).value, id, native, fee).Ok?
    ensures Balance(BookFee(Unwound(l, id, w).value, id, native, fee).value, System(Custody, native.value))
         == Balance(l, System(Custody, native.value)) - fee + if native.value == w.asset then w.amount else 0
  {
    FreshSettleKeys(l.posted.Keys, id, w);
    var l1 := Unwind(l, id, w);
    FeeStillFresh(l.posted.Keys, l1.posted.Keys, id);
    FeeTakes(l1, id, native, fee);
  }

  lemma WatchKeeps(b: Books, id: WithdrawalId, out: Outside)
    requires Inv(b) && WatchStep(b, id, out.node, out.fees, out.native).Ok?
    ensures Inv(WatchStep(b, id, out.node, out.fees, out.native).value)
  {
    if id in b.withdrawals && b.withdrawals[id].status.InFlight() && b.withdrawals[id].txHash.Some? {
      var tx := b.withdrawals[id].txHash.value;
      match out.node(tx) {
        case Mined(true, true) => SettleSuccessKeeps(b, id, out.native, out.fees(tx));
        case Mined(true, false) => NoteConfirmationsKeeps(b, id);
        case Mined(false, _) => SettleFailureKeeps(b, id, out.native, out.fees(tx));
        case _ =>
      }
    }
  }

  lemma CustodySettled(b: Books, id: WithdrawalId, out: Outside)
    requires Inv(b) && id in b.withdrawals && b.withdrawals[id].status.InFlight() && b.withdrawals[id].txHash.Some?
    requires out.native.Some?
    requires WatchStep(b, id, out.node, out.fees, out.native).Ok?
    ensures var w := b.withdrawals[id];
      CustodyOf(WatchStep(b, id, out.node, out.fees, out.native).value, out.native.value)
      == CustodyOf(b, out.native.value) + if Settles(w, out) then Returned(w, out) - FeeOf(w, out) else 0
  {
    var w := b.withdrawals[id];
    RowFact(b, id);
    ReservationIsThere(b, id);
    if Reverts(w, out) {
      UnwindingTakes(b.ledger, id, w, out.native, FeeOf(w, out));
    } else if Settles(w, out) {
      CompletionTakes(b.ledger, id, w, out.native, FeeOf(w, out));
    }
  }

  lemma WatchOne(b: Books, id: WithdrawalId, out: Outside)
    requires id in b.withdrawals && b.withdrawals[id].status.InFlight() && b.withdrawals[id].txHash.Some?
    requires var w := b.withdrawals[id];
      && (SettleSuccess(b, id, out.native, FeeOf(w, out)).Ok? <==>
            GasCovered(b.ledger, out.native, FeeOf(w, out), w.asset, 0))
      && (SettleFailure(b, id, out.native, FeeOf(w, out)).Ok? <==>
            GasCovered(b.ledger, out.native, FeeOf(w, out), w.asset, w.amount))
    ensures var w, r := b.withdrawals[id], WatchStep(b, id, out.node, out.fees, out.native);
      && (r.Ok? <==> (out.native.Some? && Settles(w, out) ==> GasFor(CustodyOf(b, out.native.value), w, out)))
      && (r.Ok? ==> r.value.withdrawals == b.withdrawals[id := w.(status := StatusAfter(w, out))])
  {}

  // --------------------------------------------------------------------------- all settlements ---

  lemma {:induction false} WatchingKeeps(b: Books, ids: seq<WithdrawalId>, out: Outside)
    requires Inv(b)
    ensures Inv(Over(b, ids, Watching(out.node, out.fees, out.native)).books)
  {
    if ids != [] {
      var m := Over(b, ids[..|ids| - 1], Watching(out.node, out.fees, out.native)).books;
      WatchingKeeps(b, ids[..|ids| - 1], out);
      if WatchStep(m, ids[|ids| - 1], out.node, out.fees, out.native).Ok? {
        WatchKeeps(m, ids[|ids| - 1], out);
      }
    }
  }

  lemma ShorterSettleable(b: Books, ids: seq<WithdrawalId>, out: Outside)
    requires ids != [] && AllInFlight(b, ids) && out.native.Some?
    ensures var front, w := ids[..|ids| - 1], b.withdrawals[ids[|ids| - 1]];
      Settleable(b, ids, out) <==>
        Settleable(b, front, out) && (Settles(w, out) ==> GasFor(GasLeft(b, front, out), w, out))
  {
    var front := ids[..|ids| - 1];
    assert forall i :: 0 <= i < |front| ==> front[i] == ids[i] && front[..i] == ids[..i];
  }

  /**
   * Watching what is in flight goes through exactly when native custody lasts for the gas of every
   * settlement in turn, reverted transfers of the native asset returning theirs first; and then
   * every candidate has the status its transaction gives it.
   */
  lemma {:induction false} SettlesIff(b: Books, ids: seq<WithdrawalId>, out: Outside)
    requires Inv(b) && Distinct(ids) && AllInFlight(b, ids)
    ensures var p := Over(b, ids, Watching(out.node, out.fees, out.native));
      && (p.error.None? <==> Settleable(b, ids, out))
      && (p.error.None? ==> Settled(b, ids, out, p.books))
  {
    if ids != [] {
      var front := ids[..|ids| - 1];
      SettlesIff(b, front, out);
      if out.native.Some? {
        ShorterSettleable(b, ids, out);
      }
      var m := Over(b, front, Watching(out.node, out.fees, out.native));
      if m.error.None? {
        WatchingKeeps(b, front, out);
        NextSettled(b, ids, out, m.books);
      }
    }
  }

  lemma NextSettled(b: Books, ids: seq<WithdrawalId>, out: Outside, m: Books)
    requires ids != [] && Distinct(ids) && AllInFlight(b, ids) && Settled(b, ids[..|ids| - 1], out, m) && Inv(m)
    ensures var r, w := WatchStep(m, ids[|ids| - 1], out.node, out.fees, out.native), b.withdrawals[ids[|ids| - 1]];
      && (r.Ok? <==> (out.native.Some? && Settles(w, out) ==> GasFor(GasLeft(b, ids[..|ids| - 1], out), w, out)))
      && (r.Ok? ==> Settled(b, ids, out, r.value))
  {
    var front, id := ids[..|ids| - 1], ids[|ids| - 1];
    assert id !in front && m.withdrawals[id] == b.withdrawals[id];
    WatchFacts(m, id, out);
    var r := WatchStep(m, id, out.node, out.fees, out.native);
    if r.Ok? {
      OneMoreSettled(b, ids, out, m, r.value);
    }
  }

  /** One candidate in any state the system can reach. */
  lemma WatchFacts(b: Books, id: WithdrawalId, out: Outside)
    requires Inv(b) && id in b.withdrawals && b.withdrawals[id].status.InFlight() && b.withdrawals[id].txHash.Some?
    ensures var w, r := b.withdrawals[id], WatchStep(b, id, out.node, out.fees, out.native);
      && (r.Ok? <==> (out.native.Some? && Settles(w, out) ==> GasFor(CustodyOf(b, out.native.value), w, out)))
      && (r.Ok? ==> r.value.withdrawals == b.withdrawals[id := w.(status := StatusAfter(w, out))])
      && (r.Ok? && out.native.Some? ==>
            CustodyOf(r.value, out.native.value)
            == CustodyOf(b, out.native.value) + if Settles(w, out) then Returned(w, out) - FeeOf(w, out) else 0)
  {
    SettleFacts(b, id, out);
    WatchOne(b, id, out);
    if WatchStep(b, id, out.node, out.fees, out.native).Ok? && out.native.Some? {
      CustodySettled(b, id, out);
    }
  }

  lemma SettleFacts(b: Books, id: WithdrawalId, out: Outside)
    requires Inv(b) && id in b.withdrawals && b.withdrawals[id].status.InFlight() && b.withdrawals[id].txHash.Some?
    ensures var w := b.withdrawals[id];
      && (SettleSuccess(b, id, out.native, FeeOf(w, out)).Ok? <==>
            GasCovered(b.ledger, out.native, FeeOf(w, out), w.asset, 0))
      && (SettleFailure(b, id, out.native, FeeOf(w, out)).Ok? <==>
            GasCovered(b.ledger, out.native, FeeOf(w, out), w.asset, w.amount))
  {
    SettleRefusedOnlyForGas(b, id, out.native, FeeOf(b.withdrawals[id], out));
    UnwindRefusedOnlyForGas(b, id, out.native, FeeOf(b.withdrawals[id], out));
  }

  lemma OneMoreSettled(b: Books, ids: seq<WithdrawalId>, out: Outside, m: Books, b': Books)
    requires ids != [] && Distinct(ids) && AllInFlight(b, ids) && SettledRows(b, ids[..|ids| - 1], out, m)
    requires var id := ids[|ids| - 1];
      b'.withdrawals == m.withdrawals[id := b.withdrawals[id].(status := StatusAfter(b.withdrawals[id], out))]
    ensures SettledRows(b, ids, out, b')
  {
    var front := ids[..|ids| - 1];
    forall i | 0 <= i < |ids|
      ensures b'.withdrawals[ids[i]] == b.withdrawals[ids[i]].(status := StatusAfter(b.withdrawals[ids[i]], out))
    {
      if i < |front| {
        assert front[i] == ids[i];
      }
    }
  }
}
