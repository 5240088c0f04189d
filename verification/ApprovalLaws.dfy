/** Who moves a withdrawal towards the wire: approval, signing, and the nonces signing hands out. */
module ApprovalLaws {
  import opened Prelude
  import opened Ledger
  import opened Books
  import opened BooksLaws
  import opened Pipeline
  import opened PipelineLaws
  import opened RunLaws

  // ----------------------------------------------------------- steps that sign nothing ---

  /** No row came to be approved or signed, and no counter moved. */
  ghost predicate Quiet(b: Books, b': Books) {
    && b'.nonces == b.nonces
    && forall id :: id in b.withdrawals ==> id in b'.withdrawals && QuietRow(b.withdrawals[id], b'.withdrawals[id])
  }

  predicate QuietRow(w: Withdrawal, w': Withdrawal) {
    w'.chain == w.chain && w'.nonce == w.nonce && (w'.status.Approved? ==> w.status.Approved?)
  }

  lemma CreateIsQuiet(b: Books, id: WithdrawalId, r: Request, decision: Decision)
    ensures var made := Create(b, id, r, decision); made.Ok? ==> Quiet(b, made.value.0)
  {}

  lemma CancelIsQuiet(b: Books, id: WithdrawalId)
    ensures Cancel(b, id).Ok? ==> Quiet(b, Cancel(b, id).value)
  {}

  lemma FailIsQuiet(b: Books, id: WithdrawalId)
    ensures FailAndRelease(b, id).Ok? ==> Quiet(b, FailAndRelease(b, id).value)
  {}

  lemma BroadcastIsQuiet(b: Books, id: WithdrawalId)
    ensures MarkBroadcast(b, id).Ok? ==> Quiet(b, MarkBroadcast(b, id).value)
  {}

  lemma SettleIsQuiet(b: Books, id: WithdrawalId, native: Option<AssetId>, fee: nat)
    ensures SettleSuccess(b, id, native, fee).Ok? ==> Quiet(b, SettleSuccess(b, id, native, fee).value)
  {}

  lemma UnwindIsQuiet(b: Books, id: WithdrawalId, native: Option<AssetId>, fee: nat)
    ensures SettleFailure(b, id, native, fee).Ok? ==> Quiet(b, SettleFailure(b, id, native, fee).value)
  {}

  lemma CreditIsQuiet(b: Books, d: DepositId)
    ensures CreditConfirmed(b, d).Ok? ==> Quiet(b, CreditConfirmed(b, d).value)
  {}

  lemma {:induction false} ReorgIsQuiet(b: Books, ds: seq<DepositId>)
    ensures ReorgDeposits(b, ds).Ok? ==> Quiet(b, ReorgDeposits(b, ds).value)
  {
    if ds != [] {
      ReorgIsQuiet(b, ds[..|ds| - 1]);
    }
  }

  lemma InFlightIsQuiet(s: World, id: WithdrawalId, status: TxStatus, native: Option<AssetId>, fee: nat)
    ensures Quiet(s.books, Next(s, DoInFlight(id, status, native, fee)).books)
  {
    SettleIsQuiet(s.books, id, native, fee);
    UnwindIsQuiet(s.books, id, native, fee);
  }

  /** Only approving and signing are not. */
  lemma NextIsQuiet(s: World, action: Action)
    requires !action.DoSign? && !action.DoApprove?
    ensures Quiet(s.books, Next(s, action).books)
  {
    match action
    case DoCreate(id, r, decision) => CreateIsQuiet(s.books, id, r, decision);
    case DoCancel(id) => CancelIsQuiet(s.books, id);
    case DoCredit(d) => CreditIsQuiet(s.books, d);
    case DoReorg(ds) => ReorgIsQuiet(s.books, ds);
    case DoRecord => if s.worker.Sent? { BroadcastIsQuiet(s.books, s.worker.id); }
    case DoRelease => if s.worker.Releasing? { FailIsQuiet(s.books, s.worker.id); }
    case DoRecover(id, status, fee) => BroadcastIsQuiet(s.books, id);
    case DoInFlight(id, status, native, fee) => InFlightIsQuiet(s, id, status, native, fee);
    case _ =>
  }

  // ------------------------------------------------------------------- manual approval ---

  /** Not approved and never signed. */
  predicate Unapproved(w: Withdrawal) {
    w.nonce.None? && (w.status.Validated? || w.status.Failed? || w.status.Cancelled?)
  }

  lemma StaysUnapproved(s: World, action: Action, id: WithdrawalId)
    requires RowsNet(s.books, s.mined) && id in s.books.withdrawals && Unapproved(s.books.withdrawals[id])
    requires action != DoApprove(id)
    ensures var b := Next(s, action).books; id in b.withdrawals && Unapproved(b.withdrawals[id])
  {
    if action.DoSign? || action.DoApprove? {
      OtherRowKept(s, action, id);
    } else {
      StepEvolves(s, action, id);
      NextIsQuiet(s, action);
    }
  }

  lemma OtherRowKept(s: World, action: Action, id: WithdrawalId)
    requires action.DoSign? || action.DoApprove?
    requires id in s.books.withdrawals && !s.books.withdrawals[id].status.Approved? && action != DoApprove(id)
    ensures var b := Next(s, action).books; id in b.withdrawals && b.withdrawals[id] == s.books.withdrawals[id]
  {}

  lemma {:induction false} UnapprovedFrom(s: World, more: seq<Action>, id: WithdrawalId)
    requires Safe(s) && id in s.books.withdrawals && Unapproved(s.books.withdrawals[id]) && DoApprove(id) !in more
    ensures var b := Run(s, more).books; id in b.withdrawals && Unapproved(b.withdrawals[id])
  {
    if more != [] {
      UnapprovedFrom(s, more[..|more| - 1], id);
      SafeFrom(s, more[..|more| - 1]);
      StaysUnapproved(Run(s, more[..|more| - 1]), more[|more| - 1], id);
    }
  }

  /** A withdrawal held for approval is never sent, however the run goes on, unless it is approved. */
  lemma HeldIsNeverSent(actions: seq<Action>, id: WithdrawalId, r: Request, more: seq<Action>, tx: Tx)
    requires Create(At(actions).books, id, r, ManualApproval).Ok?
    requires Create(At(actions).books, id, r, ManualApproval).value.1.New? && DoApprove(id) !in more
    ensures (id, tx) !in At(actions + [DoCreate(id, r, ManualApproval)] + more).sent
  {
    var held := actions + [DoCreate(id, r, ManualApproval)];
    assert held[..|held| - 1] == actions;
    AlwaysSafe(held);
    UnapprovedFrom(At(held), more, id);
    RunSplit(START, held, more);
    AlwaysSafe(held + more);
    var s := At(held + more);
    assert (id, tx) in s.sent ==> SentOk(s.books, s.mined, id, tx);
  }

  /** Once approved, the idle worker signs it for the destination and amount of its request; before, it does not. */
  lemma ApprovedIsSigned(actions: seq<Action>, id: WithdrawalId, r: Request, hint: nat, fee: nat)
    requires At(actions).worker.Idle? && Create(At(actions).books, id, r, ManualApproval).Ok?
    requires Create(At(actions).books, id, r, ManualApproval).value.1.New?
    ensures var held := actions + [DoCreate(id, r, ManualApproval)];
      && At(held + [DoSign(id, hint, fee)]) == At(held)
      && var s := At(held + [DoApprove(id)] + [DoSign(id, hint, fee)]);
         && id in s.books.withdrawals && s.books.withdrawals[id].status.Signing?
         && s.worker.Signed? && s.worker.id == id && s.books.withdrawals[id].txHash == Some(s.worker.tx)
         && s.worker.tx == Tx(r.chain, s.worker.tx.nonce, r.destination, r.asset, r.amount, fee)
  {
    var held := actions + [DoCreate(id, r, ManualApproval)];
    var approved := held + [DoApprove(id)];
    OneMore(actions, DoCreate(id, r, ManualApproval));
    OneMore(held, DoSign(id, hint, fee));
    OneMore(held, DoApprove(id));
    OneMore(approved, DoSign(id, hint, fee));
  }

  lemma OneMore(actions: seq<Action>, action: Action)
    ensures At(actions + [action]) == Next(At(actions), action)
  {
    assert (actions + [action])[..|actions + [action]| - 1] == actions;
  }

  // ---------------------------------------------------------------------------- nonces ---

  function Counter(b: Books, chain: ChainId): nat { if chain in b.nonces then b.nonces[chain] else 0 }

  ghost predicate Used(b: Books, chain: ChainId, nonce: nat) {
    exists id :: id in b.withdrawals && b.withdrawals[id].chain == chain && b.withdrawals[id].nonce == Some(nonce)
  }

  /** Every nonce below the counter belongs to some withdrawal. */
  ghost predicate Dense(b: Books) {
    forall chain, nonce: nat :: nonce < Counter(b, chain) ==> Used(b, chain, nonce)
  }

  /** Each time it signs, the node's hint is not ahead of the counter. */
  ghost predicate HintsBehind(actions: seq<Action>) {
    forall i :: 0 <= i < |actions| && actions[i].DoSign? ==> HintBehind(At(actions[..i]), actions[i])
  }

  ghost predicate HintBehind(s: World, action: Action)
    requires action.DoSign?
  {
    action.id in s.books.withdrawals ==> action.hint <= Counter(s.books, s.books.withdrawals[action.id].chain)
  }

  lemma UsedStays(b: Books, b': Books, chain: ChainId, nonce: nat)
    requires Used(b, chain, nonce)
    requires forall id :: id in b.withdrawals ==>
      id in b'.withdrawals && b'.withdrawals[id].chain == b.withdrawals[id].chain
    requires forall id :: id in b.withdrawals && b.withdrawals[id].nonce.Some? ==>
      b'.withdrawals[id].nonce == b.withdrawals[id].nonce
    ensures Used(b', chain, nonce)
  {
    var id :| id in b.withdrawals && b.withdrawals[id].chain == chain && b.withdrawals[id].nonce == Some(nonce);
    assert id in b'.withdrawals && b'.withdrawals[id].chain == chain && b'.withdrawals[id].nonce == Some(nonce);
  }

  lemma QuietStaysDense(b: Books, b': Books)
    requires Dense(b) && Quiet(b, b')
    ensures Dense(b')
  {
    forall chain, nonce: nat | nonce < Counter(b', chain) ensures Used(b', chain, nonce) {
      UsedStays(b, b', chain, nonce);
    }
  }

  lemma SignStaysDense(b: Books, id: WithdrawalId, hint: nat, fee: nat)
    requires Dense(b) && id in b.withdrawals && b.withdrawals[id].status.Approved? && b.withdrawals[id].nonce.None?
    requires hint <= Counter(b, b.withdrawals[id].chain)
    ensures Dense(Sign(b, id, hint, fee).value)
  {
    var b', w := Sign(b, id, hint, fee).value, b.withdrawals[id];
    forall chain, nonce: nat | nonce < Counter(b', chain) ensures Used(b', chain, nonce) {
      if chain == w.chain && nonce == Counter(b, chain) {
        assert b'.withdrawals[id].chain == chain && b'.withdrawals[id].nonce == Some(nonce);
      } else {
        UsedStays(b, b', chain, nonce);
      }
    }
  }

  lemma ApproveStaysDense(s: World, id: WithdrawalId)
    requires Dense(s.books)
    ensures Dense(Next(s, DoApprove(id)).books)
  {
    var b, b' := s.books, Next(s, DoApprove(id)).books;
    forall chain, nonce: nat | nonce < Counter(b', chain) ensures Used(b', chain, nonce) {
      UsedStays(b, b', chain, nonce);
    }
  }

  lemma StepStaysDense(s: World, action: Action)
    requires RowsNet(s.books, s.mined) && Dense(s.books) && (action.DoSign? ==> HintBehind(s, action))
    ensures Dense(Next(s, action).books)
  {
    match action
    case DoSign(id, hint, fee) =>
      if s.worker.Idle? && id in s.books.withdrawals && s.books.withdrawals[id].status.Approved? {
        assert RowNet(s.books.nonces, s.mined, s.books.withdrawals[id]);
        SignStaysDense(s.books, id, hint, fee);
      }
    case DoApprove(id) => ApproveStaysDense(s, id);
    case _ =>
      NextIsQuiet(s, action);
      QuietStaysDense(s.books, Next(s, action).books);
  }

  /**
   * No nonce gap: over every run whose hints are not ahead of the counter, the nonces of a chain's
   * withdrawals are exactly those below its counter, so each transaction can be mined after the last.
   */
  lemma {:induction false} NoNonceGap(actions: seq<Action>, chain: ChainId, nonce: nat)
    requires HintsBehind(actions)
    ensures nonce < Counter(At(actions).books, chain) <==> Used(At(actions).books, chain, nonce)
  {
    AlwaysDense(actions);
    AlwaysSafe(actions);
    var b := At(actions).books;
    if Used(b, chain, nonce) {
      var id :| id in b.withdrawals && b.withdrawals[id].chain == chain && b.withdrawals[id].nonce == Some(nonce);
      assert RowNet(b.nonces, At(actions).mined, b.withdrawals[id]);
    }
  }

  lemma {:induction false} AlwaysDense(actions: seq<Action>)
    requires HintsBehind(actions)
    ensures Dense(At(actions).books)
  {
    if actions != [] {
      var front, n := actions[..|actions| - 1], |actions| - 1;
      forall i | 0 <= i < |front| && front[i].DoSign? ensures HintBehind(At(front[..i]), front[i]) {
        assert front[..i] == actions[..i];
      }
      AlwaysDense(front);
      AlwaysSafe(front);
      assert actions[..n] == front;
      StepStaysDense(At(front), actions[n]);
    }
  }
}
