/**
 * The pipeline worker's own code. Each phase is one step of the protocol, and each pass over a batch
 * is a run of it, so what holds of every run holds of the worker. The pass counters count what
 * happened in that run.
 */
module PipelineWorker {
  import opened Prelude
  import opened Ledger
  import opened Books
  import opened Database
  import opened WithdrawalOps
  import opened Pipeline
  import opened RunLaws
  import opened Passes
  import opened PassLaws
  import opened BlockedLaws

  datatype PipelinePass = PipelinePass(
    signed: nat, broadcast: nat, completed: nat, failed: nat, recovered: nat, stillPending: nat)

  const NO_WORK: PipelinePass := PipelinePass(0, 0, 0, 0, 0, 0)

  function Added(p: PipelinePass, q: PipelinePass): PipelinePass {
    PipelinePass(
      p.signed + q.signed, p.broadcast + q.broadcast, p.completed + q.completed,
      p.failed + q.failed, p.recovered + q.recovered, p.stillPending + q.stillPending)
  }

  function Total(passes: seq<PipelinePass>): PipelinePass {
    if passes == [] then NO_WORK else Added(Total(passes[..|passes| - 1]), passes[|passes| - 1])
  }

  /** A candidate ended as its step says; a refused one left the tables alone. */
  ghost predicate Ends<T>(r: Result<T>, step: Result<Books>, before: Books, after: Books) {
    && (r.Ok? <==> step.Ok?)
    && after == (if step.Ok? then step.value else before)
    && (r.Err? ==> step.Err? && r.error == step.error)
  }

  /** A stage ended as the pass over the tables says. */
  ghost predicate Leaves<T>(r: Result<T>, pass: Pass, after: Books) {
    && after == pass.books
    && (r.Ok? <==> pass.error.None?)
    && (r.Err? ==> pass.error == Some(r.error))
  }

  /** A node's answers about transaction hashes while a pass runs. */
  ghost predicate HonestNode(mined: map<(ChainId, nat), Receipt>, node: Tx -> TxStatus) {
    forall tx :: node(tx).Mined? ==>
      (tx.chain, tx.nonce) in mined && mined[(tx.chain, tx.nonce)] == Receipt(tx, node(tx).success)
  }

  // --------------------------------------------------------------------- what a run did ---

  /** Some withdrawal came into the status. */
  ghost predicate Enters(b: Books, b': Books, status: WithdrawalStatus) {
    exists id :: id in b'.withdrawals && b'.withdrawals[id].status == status
                 && (id !in b.withdrawals || b.withdrawals[id].status != status)
  }

  /** How many steps of a run brought a withdrawal into the status. */
  ghost function Entering(s: World, actions: seq<Action>, status: WithdrawalStatus): nat {
    if actions == [] then 0
    else
      var front := actions[..|actions| - 1];
      Entering(s, front, status) + if Enters(Run(s, front).books, Run(s, actions).books, status) then 1 else 0
  }

  /** The steps of the three stages at one chain. */
  datatype Stages = Stages(recovery: seq<Action>, sending: seq<Action>, watching: seq<Action>) {
    function Steps(): seq<Action> { recovery + sending + watching }
  }

  function AllSteps(parts: seq<Stages>): seq<Action> {
    if parts == [] then [] else AllSteps(parts[..|parts| - 1]) + parts[|parts| - 1].Steps()
  }

  /** The counters of one chain count what its three stages did. */
  ghost predicate Counts(s: World, part: Stages, pass: PipelinePass) {
    var s1 := Run(s, part.recovery);
    var s2 := Run(s1, part.sending);
    && pass.recovered
       == Entering(s, part.recovery, WithdrawalStatus.Broadcast) + Entering(s, part.recovery, WithdrawalStatus.Failed)
    && pass.signed == pass.broadcast == Entering(s1, part.sending, WithdrawalStatus.Broadcast)
    && pass.completed == Entering(s2, part.watching, Completed)
    && pass.failed
       == Entering(s1, part.sending, WithdrawalStatus.Failed) + Entering(s2, part.watching, WithdrawalStatus.Failed)
    && pass.completed + Entering(s2, part.watching, WithdrawalStatus.Failed) + pass.stillPending == |part.watching|
  }

  /** Chain after chain, the counters count what was done there. */
  ghost predicate AllCount(s: World, parts: seq<Stages>, passes: seq<PipelinePass>) {
    && |parts| == |passes|
    && (parts == [] ||
        (&& AllCount(s, parts[..|parts| - 1], passes[..|passes| - 1])
         && Counts(Run(s, AllSteps(parts[..|parts| - 1])), parts[|parts| - 1], passes[|passes| - 1])))
  }

  lemma OneChainCounted(s: World, parts: seq<Stages>, passes: seq<PipelinePass>, part: Stages, pass: PipelinePass)
    requires AllCount(s, parts, passes) && Counts(Run(s, AllSteps(parts)), part, pass)
    ensures AllCount(s, parts + [part], passes + [pass]) && Total(passes + [pass]) == Added(Total(passes), pass)
  {
    assert (parts + [part])[..|parts|] == parts && (passes + [pass])[..|passes|] == passes;
  }

  lemma OneChainRun(s: World, parts: seq<Stages>, part: Stages)
    ensures Run(s, AllSteps(parts + [part])) == Run(Run(s, AllSteps(parts)), part.Steps())
  {
    assert (parts + [part])[..|parts|] == parts;
    RunSplit(s, AllSteps(parts), part.Steps());
  }

  lemma ThenOne(s: World, actions: seq<Action>, m: World, action: Action, status: WithdrawalStatus)
    requires Run(s, actions) == m
    ensures Run(s, actions + [action]) == Next(m, action)
    ensures Entering(s, actions + [action], status)
         == Entering(s, actions, status) + if Enters(m.books, Next(m, action).books, status) then 1 else 0
  {
    assert (actions + [action])[..|actions + [action]| - 1] == actions;
  }

  lemma {:induction false} ThenMore(s: World, actions: seq<Action>, more: seq<Action>, status: WithdrawalStatus)
    ensures Run(s, actions + more) == Run(Run(s, actions), more)
    ensures Entering(s, actions + more, status)
      == Entering(s, actions, status) + Entering(Run(s, actions), more, status)
  {
    if more == [] {
      assert actions + more == actions;
    } else {
      var all, front := actions + more, more[..|more| - 1];
      assert all[..|all| - 1] == actions + front;
      ThenMore(s, actions, front, status);
      RunSplit(s, actions, more);
    }
  }

  lemma OneRowEnters(b: Books, b': Books, id: WithdrawalId, w: Withdrawal, status: WithdrawalStatus)
    requires id in b.withdrawals && b'.withdrawals == b.withdrawals[id := w]
    ensures Enters(b, b', status) <==> w.status == status && b.withdrawals[id].status != status
  {
    if w.status == status && b.withdrawals[id].status != status {
      assert b'.withdrawals[id].status == status;
    }
  }

  lemma NoRowEnters(b: Books, b': Books, status: WithdrawalStatus)
    requires b'.withdrawals == b.withdrawals
    ensures !Enters(b, b', status)
  {}

  lemma BroadcastEnters(b: Books, id: WithdrawalId, status: WithdrawalStatus)
    requires id in b.withdrawals && MarkBroadcast(b, id).Ok?
    ensures Enters(b, MarkBroadcast(b, id).value, status) <==> b.withdrawals[id].status.Signing? && status.Broadcast?
  {
    var b', w := MarkBroadcast(b, id).value, b.withdrawals[id];
    if w.status.Signing? {
      OneRowEnters(b, b', id, w.(status := WithdrawalStatus.Broadcast), status);
    } else {
      NoRowEnters(b, b', status);
    }
  }

  lemma RecordEnters(s: World, id: WithdrawalId)
    requires s.worker.Sent? && s.worker.id == id && id in s.books.withdrawals && s.books.withdrawals[id].status.Signing?
    ensures Enters(s.books, Next(s, DoRecord).books, WithdrawalStatus.Broadcast) <==> MarkBroadcast(s.books, id).Ok?
    ensures !Enters(s.books, Next(s, DoRecord).books, WithdrawalStatus.Failed)
  {
    if MarkBroadcast(s.books, id).Ok? {
      BroadcastEnters(s.books, id, WithdrawalStatus.Broadcast);
      BroadcastEnters(s.books, id, WithdrawalStatus.Failed);
    }
  }

  lemma SignEnters(s: World, id: WithdrawalId, hint: nat, fee: nat, status: WithdrawalStatus)
    requires status.Broadcast? || status.Failed?
    ensures !Enters(s.books, Next(s, DoSign(id, hint, fee)).books, status)
  {
    if s.worker.Idle? && id in s.books.withdrawals && s.books.withdrawals[id].status.Approved? {
      var b := Sign(s.books, id, hint, fee).value;
      OneRowEnters(s.books, b, id, b.withdrawals[id], status);
    }
  }

  lemma FailureEnters(b: Books, id: WithdrawalId, status: WithdrawalStatus)
    requires id in b.withdrawals && FailAndRelease(b, id).Ok?
    ensures Enters(b, FailAndRelease(b, id).value, status) <==>
      status.Failed? && !b.withdrawals[id].status.Terminal() && !b.withdrawals[id].status.FundsMayHaveLeft()
  {
    var b', w := FailAndRelease(b, id).value, b.withdrawals[id];
    if w.status.Terminal() || w.status.FundsMayHaveLeft() {
      NoRowEnters(b, b', status);
    } else {
      OneRowEnters(b, b', id, w.(status := WithdrawalStatus.Failed), status);
    }
  }

  lemma SettledEnters(b: Books, id: WithdrawalId, native: Option<AssetId>, fee: nat, status: WithdrawalStatus)
    requires id in b.withdrawals && b.withdrawals[id].status.InFlight() && SettleSuccess(b, id, native, fee).Ok?
    ensures Enters(b, SettleSuccess(b, id, native, fee).value, status) <==> status.Completed?
  {
    OneRowEnters(b, SettleSuccess(b, id, native, fee).value, id, b.withdrawals[id].(status := Completed), status);
  }

  lemma RevertedEnters(b: Books, id: WithdrawalId, native: Option<AssetId>, fee: nat, status: WithdrawalStatus)
    requires id in b.withdrawals && b.withdrawals[id].status.InFlight() && SettleFailure(b, id, native, fee).Ok?
    ensures Enters(b, SettleFailure(b, id, native, fee).value, status) <==> status.Failed?
  {
    OneRowEnters(b, SettleFailure(b, id, native, fee).value, id, b.withdrawals[id].(status := WithdrawalStatus.Failed),
        status);
  }

  lemma NotedEnters(b: Books, id: WithdrawalId, status: WithdrawalStatus)
    requires id in b.withdrawals && b.withdrawals[id].status.InFlight() && (status.Completed? || status.Failed?)
    ensures !Enters(b, NoteConfirmations(b, id), status)
  {
    if b.withdrawals[id].status.Broadcast? {
      OneRowEnters(b, NoteConfirmations(b, id), id, b.withdrawals[id].(status := WithdrawalStatus.Confirming), status);
    }
  }

  /** Not signed at all, or signed with the hash on record. */
  ghost predicate NotSent(b: Books, id: WithdrawalId, answers: Answers, b': Books) {
    if id !in b.withdrawals || !answers.signs then
      b' == b && (id in b.withdrawals ==> b.withdrawals[id].status.Approved?)
    else
      && SendStep(b, id, answers) == Ok(b')
      && id in b'.withdrawals && b'.withdrawals[id].status.Signing? && b'.withdrawals[id].txHash.Some?
  }

  /** The broadcast is recorded if the node took it and custody covers it. */
  ghost predicate Resends(b: Books, id: WithdrawalId, answers: Answers, b': Books) {
    b' == if answers.accepted && MarkBroadcast(b, id).Ok? then MarkBroadcast(b, id).value else b
  }

  lemma SignedThenSent(b: Books, id: WithdrawalId, answers: Answers, signed: Books, b': Books)
    requires id in b.withdrawals && b.withdrawals[id].status.Approved? && answers.signs
    requires Sign(b, id, answers.hint, answers.fee) == Ok(signed) && Resends(signed, id, answers, b')
    ensures SendStep(b, id, answers) == Ok(b')
    ensures !(answers.accepted && MarkBroadcast(signed, id).Ok?) ==> NotSent(b, id, answers, b')
  {}

  class PipelineRunner {
    const db: Db
    var sent: set<(WithdrawalId, Tx)>
    ghost var mined: map<(ChainId, nat), Receipt>
    ghost var at: Worker

    ghost function View(): World
      reads this, db
    {
      World(db.BooksNow(), at, sent, mined)
    }

    constructor (db: Db)
      ensures this.db == db && at == Idle && sent == {} && mined == map[]
    {
      this.db := db;
      sent, mined, at := {}, map[], Idle;
    }

    /**
     * Phase 1 of `sign_and_broadcast`: nonce, signature and hash, committed before anything is sent.
     * `Ok(None)` is a withdrawal someone else took.
     */
    method SignPhase(id: WithdrawalId, hint: nat, fee: nat) returns (r: Result<Option<Tx>>)
      requires at.Idle?
      modifies this, db
      ensures View() == Next(old(View()), DoSign(id, hint, fee)) && mined == old(mined)
      ensures r.Err? <==> id !in old(db.withdrawals)
      ensures r.Err? ==> r.error == NotFound
      ensures r.Ok? ==> (r.value.Some? <==> old(db.withdrawals[id].status.Approved?))
      ensures if r.Ok? && r.value.Some? then at == Signed(id, r.value.value) else at == Idle
      ensures r.Ok? && r.value.Some? ==> id in db.withdrawals && db.withdrawals[id].status.Signing?
      ensures r.Ok? ==> Sign(old(db.BooksNow()), id, hint, fee) == Ok(db.BooksNow())
      ensures r.Ok? && r.value.Some? ==>
        var w, tx := old(db.withdrawals[id]), r.value.value;
        && db.withdrawals[id] == w.(status := Signing, nonce := Some(tx.nonce), txHash := Some(tx))
        && tx == Tx(w.chain, tx.nonce, w.destination, w.asset, w.amount, fee) && tx.nonce >= hint
        && db.nonces == old(db.nonces)[w.chain := tx.nonce + 1]
    {
      if id !in db.withdrawals {
        return Err(NotFound);
      }
      var w := db.withdrawals[id];
      if !w.status.Approved? {
        return Ok(None);
      }
      var nonce := if w.chain in db.nonces && db.nonces[w.chain] > hint then db.nonces[w.chain] else hint;
      db.nonces := db.nonces[w.chain := nonce + 1];
      var signed := SignedTx(w, nonce, fee);
      var row := w.(status := Signing, txHash := Some(signed), nonce := Some(nonce));
      db.withdrawals := db.withdrawals[id := row];
      at := Signed(id, signed);
      return Ok(Some(signed));
    }

    /** Phase 2: the broadcast call. */
    method BroadcastPhase(id: WithdrawalId, tx: Tx, delivered: bool, accepted: bool)
      requires at == Signed(id, tx) || at == Resigned(id, tx)
      modifies this
      ensures View() == Next(old(View()), DoSubmit(delivered, accepted))
      ensures mined == old(mined)
      ensures sent == if delivered || accepted then old(sent) + {(id, tx)} else old(sent)
    {
      if delivered || accepted {
        sent := sent + {(id, tx)};
      }
      at := if accepted then Sent(id, at.Resigned?) else if at.Resigned? then Idle else Failing(id);
    }

    /** Phase 3: `mark_broadcast`. */
    method RecordPhase(id: WithdrawalId) returns (r: Result<()>)
      requires at.Sent? && at.id == id && id in db.withdrawals && db.withdrawals[id].status.Signing?
      modifies this, db
      ensures View() == Next(old(View()), DoRecord)
      ensures mined == old(mined)
      ensures r.Ok? ==> at == Idle
      ensures r.Err? ==> at == if old(at).recovering then Idle else Failing(id)
      ensures Ends(r, MarkBroadcast(old(db.BooksNow()), id), old(db.BooksNow()), db.BooksNow())
    {
      r := RecordBroadcastOf(db, id);
      at := if r.Ok? || at.recovering then Idle else Failing(id);
    }

    /** The transaction of `fail_and_release`, from the point where releasing was decided. */
    method ReleasePhase(id: WithdrawalId) returns (r: Result<bool>)
      requires at == Releasing(id) && id in db.withdrawals
      modifies this, db
      ensures View() == Next(old(View()), DoRelease) && at == Idle && mined == old(mined)
      ensures Ends(r, FailAndRelease(old(db.BooksNow()), id), old(db.BooksNow()), db.BooksNow())
      ensures Enters(old(db.BooksNow()), db.BooksNow(), WithdrawalStatus.Failed) <==> r == Ok(true)
      ensures !Enters(old(db.BooksNow()), db.BooksNow(), WithdrawalStatus.Broadcast)
      ensures var status := old(db.withdrawals[id].status);
        r.Ok? && !status.Terminal() && !status.FundsMayHaveLeft() ==> r.value
    {
      ghost var before := db.BooksNow();
      var w := db.withdrawals[id];
      var failed := FailWithdrawal(db, id);
      at := Idle;
      if failed.Err? {
        return Err(failed.error);
      }
      FailureEnters(before, id, WithdrawalStatus.Failed);
      FailureEnters(before, id, WithdrawalStatus.Broadcast);
      return Ok(!w.status.Terminal() && !w.status.FundsMayHaveLeft());
    }

    /** `fail_before_broadcast`: an ambiguous broadcast is left for recovery. `Ok(true)` is a withdrawal failed here. */
    method FailBeforeBroadcast(id: WithdrawalId) returns (r: Result<bool>, ghost actions: seq<Action>)
      requires at == Failing(id)
      modifies this, db
      ensures at == Idle && mined == old(mined) && View() == Run(old(View()), actions)
      ensures Entering(old(View()), actions, WithdrawalStatus.Failed) == if r == Ok(true) then 1 else 0
      ensures Entering(old(View()), actions, WithdrawalStatus.Broadcast) == 0
      ensures var b := old(db.BooksNow());
        if id in b.withdrawals && b.withdrawals[id].status.Signing? && b.withdrawals[id].txHash.Some?
        then r.Ok? && db.BooksNow() == b
        else Ends(r, FailAndRelease(b, id), b, db.BooksNow())
    {
      ghost var was := View();
      actions := [] + [DoFailRead];
      ThenOne(was, [], was, DoFailRead, WithdrawalStatus.Failed);
      ThenOne(was, [], was, DoFailRead, WithdrawalStatus.Broadcast);
      if id !in db.withdrawals {
        at := Idle;
        return Err(NotFound), actions;
      }
      var w := db.withdrawals[id];
      if w.status.Signing? && w.txHash.Some? {
        at := Idle;
        return Ok(false), actions;
      }
      at := Releasing(id);
      ghost var read := View();
      r := ReleasePhase(id);
      ThenOne(was, actions, read, DoRelease, WithdrawalStatus.Failed);
      ThenOne(was, actions, read, DoRelease, WithdrawalStatus.Broadcast);
      actions := actions + [DoRelease];
    }

    /** The broadcast and the record, once a transaction is signed. */
    method SendAndRecord(id: WithdrawalId, tx: Tx, answers: Answers) returns (r: Result<()>, ghost actions: seq<Action>)
      requires (at == Signed(id, tx) || at == Resigned(id, tx)) && id in db.withdrawals
      requires db.withdrawals[id].status.Signing?
      modifies this, db
      ensures mined == old(mined) && View() == Run(old(View()), actions)
      ensures at == if r.Ok? || old(at).Resigned? then Idle else Failing(id)
      ensures Entering(old(View()), actions, WithdrawalStatus.Broadcast) == if r.Ok? then 1 else 0
      ensures Entering(old(View()), actions, WithdrawalStatus.Failed) == 0
      ensures r.Ok? <==> answers.accepted && MarkBroadcast(old(db.BooksNow()), id).Ok?
      ensures Resends(old(db.BooksNow()), id, answers, db.BooksNow())
    {
      ghost var was := View();
      ghost var submit := DoSubmit(answers.delivered, answers.accepted);
      BroadcastPhase(id, tx, answers.delivered, answers.accepted);
      NoRowEnters(was.books, db.BooksNow(), WithdrawalStatus.Broadcast);
      NoRowEnters(was.books, db.BooksNow(), WithdrawalStatus.Failed);
      ThenOne(was, [], was, submit, WithdrawalStatus.Broadcast);
      ThenOne(was, [], was, submit, WithdrawalStatus.Failed);
      actions := [] + [submit];
      if !answers.accepted {
        return Err(Rpc), actions;
      }
      ghost var submitted := View();
      RecordEnters(submitted, id);
      r := RecordPhase(id);
      ThenOne(was, actions, submitted, DoRecord, WithdrawalStatus.Broadcast);
      ThenOne(was, actions, submitted, DoRecord, WithdrawalStatus.Failed);
      actions := actions + [DoRecord];
    }

    /** `sign_and_broadcast`. `Ok(false)` is nothing to do. */
    method SignAndBroadcast(id: WithdrawalId, answers: Answers) returns (r: Result<bool>, ghost actions: seq<Action>)
      requires at.Idle?
      modifies this, db
      ensures mined == old(mined) && View() == Run(old(View()), actions)
      ensures at == if r.Ok? then Idle else Failing(id)
      ensures Entering(old(View()), actions, WithdrawalStatus.Broadcast) == if r == Ok(true) then 1 else 0
      ensures Entering(old(View()), actions, WithdrawalStatus.Failed) == 0
      ensures r.Ok? ==> SendStep(old(db.BooksNow()), id, answers) == Ok(db.BooksNow())
      ensures r.Err? ==> NotSent(old(db.BooksNow()), id, answers, db.BooksNow())
    {
      ghost var was := View();
      if id !in db.withdrawals || (db.withdrawals[id].status.Approved? && !answers.signs) {
        at := Failing(id);
        actions := [] + [DoSignFails(id)];
        ThenOne(was, [], was, DoSignFails(id), WithdrawalStatus.Broadcast);
        ThenOne(was, [], was, DoSignFails(id), WithdrawalStatus.Failed);
        return Err(if id !in db.withdrawals then NotFound else Internal), actions;
      }
      ghost var sign := DoSign(id, answers.hint, answers.fee);
      SignEnters(was, id, answers.hint, answers.fee, WithdrawalStatus.Broadcast);
      SignEnters(was, id, answers.hint, answers.fee, WithdrawalStatus.Failed);
      var tx := SignPhase(id, answers.hint, answers.fee);
      ThenOne(was, [], was, sign, WithdrawalStatus.Broadcast);
      ThenOne(was, [], was, sign, WithdrawalStatus.Failed);
      actions := [] + [sign];
      if tx.value.None? {
        return Ok(false), actions;
      }
      ghost var signed := db.BooksNow();
      var recorded, rest := SendAndRecord(id, tx.value.value, answers);
      SignedThenSent(was.books, id, answers, signed, db.BooksNow());
      ThenMore(was, actions, rest, WithdrawalStatus.Broadcast);
      ThenMore(was, actions, rest, WithdrawalStatus.Failed);
      actions := actions + rest;
      return if recorded.Ok? then Ok(true) else Err(recorded.error), actions;
    }

    /** One withdrawal of `process_approved`; what goes wrong before anything was sent fails it safely. */
    method ProcessOne(id: WithdrawalId, answers: Answers) returns (r: Result<(bool, bool)>, ghost actions: seq<Action>)
      requires at.Idle?
      modifies this, db
      ensures at == Idle && mined == old(mined) && View() == Run(old(View()), actions)
      ensures r.Ok? ==> Entering(old(View()), actions, WithdrawalStatus.Broadcast) == if r.value.0 then 1 else 0
      ensures r.Ok? ==> Entering(old(View()), actions, WithdrawalStatus.Failed) == if r.value.1 then 1 else 0
      ensures Ends(r, SendStep(old(db.BooksNow()), id, answers), old(db.BooksNow()), db.BooksNow())
    {
      ghost var was := View();
      var sent, done := SignAndBroadcast(id, answers);
      actions := done;
      if sent.Ok? {
        return Ok((sent.value, false)), actions;
      }
      var failed, rest := FailBeforeBroadcast(id);
      ThenMore(was, done, rest, WithdrawalStatus.Broadcast);
      ThenMore(was, done, rest, WithdrawalStatus.Failed);
      actions := done + rest;
      return if failed.Ok? then Ok((false, failed.value)) else Err(failed.error), actions;
    }

    /** `process_approved` over the claimed ids; a failure that cannot be recorded ends the pass. */
    method ProcessApproved(ids: seq<WithdrawalId>, answers: WithdrawalId -> Answers)
      returns (r: Result<PipelinePass>, ghost actions: seq<Action>)
      requires at.Idle?
      modifies this, db
      ensures at == Idle && mined == old(mined) && View() == Run(old(View()), actions)
      ensures Leaves(r, Over(old(db.BooksNow()), ids, Sending(answers)), db.BooksNow())
      ensures r.Ok? ==>
        && r.value.broadcast == r.value.signed == Entering(old(View()), actions, WithdrawalStatus.Broadcast)
        && r.value.failed == Entering(old(View()), actions, WithdrawalStatus.Failed)
    {
      ghost var was := View();
      var pass := NO_WORK;
      actions := [];
      for i := 0 to |ids|
        invariant at == Idle && mined == old(mined) && View() == Run(was, actions)
        invariant Over(was.books, ids[..i], Sending(answers)) == Pass(db.BooksNow(), None)
        invariant pass.broadcast == pass.signed == Entering(was, actions, WithdrawalStatus.Broadcast)
        invariant pass.failed == Entering(was, actions, WithdrawalStatus.Failed)
      {
        OverNext(was.books, ids, i, Sending(answers));
        var one, done := ProcessOne(ids[i], answers(ids[i]));
        ThenMore(was, actions, done, WithdrawalStatus.Broadcast);
        ThenMore(was, actions, done, WithdrawalStatus.Failed);
        actions := actions + done;
        if one.Err? {
          return Err(one.error), actions;
        }
        if one.value.0 {
          pass := pass.(signed := pass.signed + 1, broadcast := pass.broadcast + 1);
        }
        if one.value.1 {
          pass := pass.(failed := pass.failed + 1);
        }
      }
      assert ids[..|ids|] == ids;
      r := Ok(pass);
    }

    /** One candidate of `recover_signing`, with the node's honest answer. `Ok(true)` is a withdrawal recovered. */
    method RecoverOne(id: WithdrawalId, node: Tx -> TxStatus, answers: Answers)
      returns (r: Result<bool>, ghost actions: seq<Action>)
      requires at.Idle? && id in db.withdrawals && db.withdrawals[id].status.Signing? && HonestNode(mined, node)
      modifies this, db
      ensures at == Idle && mined == old(mined) && View() == Run(old(View()), actions)
      ensures r.Ok? ==>
        Entering(old(View()), actions, WithdrawalStatus.Broadcast)
          + Entering(old(View()), actions, WithdrawalStatus.Failed)
        == if r.value then 1 else 0
      ensures Ends(r, RecoverStep(old(db.BooksNow()), id, node, answers), old(db.BooksNow()), db.BooksNow())
    {
      var w := db.withdrawals[id];
      if w.txHash.Some? && !node(w.txHash.value).Unknown? {
        r := RecordSeen(id, node(w.txHash.value), answers.fee);
        actions := [] + [DoRecover(id, node(w.txHash.value), answers.fee)];
        ThenOne(old(View()), [], old(View()), actions[0], WithdrawalStatus.Broadcast);
        ThenOne(old(View()), [], old(View()), actions[0], WithdrawalStatus.Failed);
      } else if w.txHash.Some? && w.nonce.None? {
        r, actions := Ok(false), [];
      } else {
        r, actions := RecoverUnseen(id, w, answers);
      }
    }

    /** The broadcast of a transaction the node has seen. */
    method RecordSeen(id: WithdrawalId, status: TxStatus, ghost fee: nat) returns (r: Result<bool>)
      requires at.Idle? && id in db.withdrawals && db.withdrawals[id].status.Signing?
      requires !status.Unknown? && db.withdrawals[id].txHash.Some?
      requires Honest(View(), db.withdrawals[id].txHash.value, status)
      modifies db
      ensures View() == Next(old(View()), DoRecover(id, status, fee))
      ensures Ends(r, MarkBroadcast(old(db.BooksNow()), id), old(db.BooksNow()), db.BooksNow())
      ensures r.Ok? ==> r.value
      ensures Enters(old(db.BooksNow()), db.BooksNow(), WithdrawalStatus.Broadcast) <==> r.Ok?
      ensures !Enters(old(db.BooksNow()), db.BooksNow(), WithdrawalStatus.Failed)
    {
      ghost var before := db.BooksNow();
      var recorded := RecordBroadcastOf(db, id);
      if recorded.Err? {
        return Err(recorded.error);
      }
      BroadcastEnters(before, id, WithdrawalStatus.Broadcast);
      BroadcastEnters(before, id, WithdrawalStatus.Failed);
      return Ok(true);
    }

    /** One without a hash is released, one the node does not know is signed again under the recorded nonce. */
    method RecoverUnseen(id: WithdrawalId, w: Withdrawal, answers: Answers)
      returns (r: Result<bool>, ghost actions: seq<Action>)
      requires id in db.withdrawals && db.withdrawals[id] == w && w.status.Signing?
      requires w.txHash.Some? ==> w.nonce.Some?
      requires at.Idle?
      modifies this, db
      ensures at == Idle && mined == old(mined) && View() == Run(old(View()), actions)
      ensures r.Ok? ==>
        Entering(old(View()), actions, WithdrawalStatus.Broadcast)
          + Entering(old(View()), actions, WithdrawalStatus.Failed)
        == if r.value then 1 else 0
      ensures w.txHash.None? ==> Ends(r, FailAndRelease(old(db.BooksNow()), id), old(db.BooksNow()), db.BooksNow())
      ensures w.txHash.Some? ==> r.Ok? && Resends(old(db.BooksNow()), id, answers, db.BooksNow())
    {
      ghost var was, recover := View(), DoRecover(id, Unknown, answers.fee);
      at := if w.txHash.None? then Releasing(id) else Resigned(id, SignedTx(w, w.nonce.value, answers.fee));
      ghost var decided := View();
      assert decided == Next(was, recover);
      NoRowEnters(was.books, decided.books, WithdrawalStatus.Broadcast);
      NoRowEnters(was.books, decided.books, WithdrawalStatus.Failed);
      ThenOne(was, [], was, recover, WithdrawalStatus.Broadcast);
      ThenOne(was, [], was, recover, WithdrawalStatus.Failed);
      ghost var rest: seq<Action>;
      r, rest := RecoverRest(id, w, answers);
      ThenMore(was, [] + [recover], rest, WithdrawalStatus.Broadcast);
      ThenMore(was, [] + [recover], rest, WithdrawalStatus.Failed);
      actions := [] + [recover] + rest;
    }

    /** The rest of it once decided. */
    method RecoverRest(id: WithdrawalId, w: Withdrawal, answers: Answers)
      returns (r: Result<bool>, ghost actions: seq<Action>)
      requires id in db.withdrawals && db.withdrawals[id] == w && w.status.Signing?
      requires w.txHash.Some? ==> w.nonce.Some?
      requires at == if w.txHash.None? then Releasing(id) else Resigned(id, SignedTx(w, w.nonce.value, answers.fee))
      modifies this, db
      ensures at == Idle && mined == old(mined) && View() == Run(old(View()), actions)
      ensures r.Ok? ==>
        Entering(old(View()), actions, WithdrawalStatus.Broadcast)
          + Entering(old(View()), actions, WithdrawalStatus.Failed)
        == if r.value then 1 else 0
      ensures w.txHash.None? ==> Ends(r, FailAndRelease(old(db.BooksNow()), id), old(db.BooksNow()), db.BooksNow())
      ensures w.txHash.Some? ==> r.Ok? && Resends(old(db.BooksNow()), id, answers, db.BooksNow())
    {
      if w.txHash.Some? {
        var recorded, done := SendAndRecord(id, SignedTx(w, w.nonce.value, answers.fee), answers);
        return Ok(recorded.Ok?), done;
      }
      ghost var decided := View();
      r := ReleasePhase(id);
      ThenOne(decided, [], decided, DoRelease, WithdrawalStatus.Broadcast);
      ThenOne(decided, [], decided, DoRelease, WithdrawalStatus.Failed);
      actions := [] + [DoRelease];
    }

    /**
     * `recover_signing` over the claimed ids, against a node that reports no receipt it does not
     * have; a broadcast that cannot be recorded ends the pass.
     */
    method RecoverSigning(ids: seq<WithdrawalId>, node: Tx -> TxStatus, answers: WithdrawalId -> Answers)
      returns (r: Result<nat>, ghost actions: seq<Action>)
      requires at.Idle? && HonestNode(mined, node)
      modifies this, db
      ensures at == Idle && mined == old(mined) && View() == Run(old(View()), actions)
      ensures Leaves(r, Over(old(db.BooksNow()), ids, Recovering(node, answers)), db.BooksNow())
      ensures r.Ok? ==>
        Entering(old(View()), actions, WithdrawalStatus.Broadcast)
          + Entering(old(View()), actions, WithdrawalStatus.Failed) == r.value
    {
      ghost var was := View();
      var recovered := 0;
      actions := [];
      for i := 0 to |ids|
        invariant at == Idle && mined == old(mined) && View() == Run(was, actions)
        invariant Over(was.books, ids[..i], Recovering(node, answers)) == Pass(db.BooksNow(), None)
        invariant recovered == Entering(was, actions, WithdrawalStatus.Broadcast)
          + Entering(was, actions, WithdrawalStatus.Failed)
      {
        OverNext(was.books, ids, i, Recovering(node, answers));
        if ids[i] in db.withdrawals && db.withdrawals[ids[i]].status.Signing? {
          var one, done := RecoverOne(ids[i], node, answers(ids[i]));
          ThenMore(was, actions, done, WithdrawalStatus.Broadcast);
          ThenMore(was, actions, done, WithdrawalStatus.Failed);
          actions := actions + done;
          if one.Err? {
            return Err(one.error), actions;
          }
          recovered := recovered + if one.value then 1 else 0;
        }
      }
      assert ids[..|ids|] == ids;
      r := Ok(recovered);
    }

    /** One candidate of `process_in_flight` that has a hash; a refused settlement is an error. */
    method WatchOne(id: WithdrawalId, node: Tx -> TxStatus, fees: Tx -> nat, native: Option<AssetId>)
      returns (r: Result<WithdrawalStatus>)
      requires at.Idle? && id in db.withdrawals && db.withdrawals[id].status.InFlight()
      requires db.withdrawals[id].txHash.Some? && HonestNode(mined, node)
      modifies db
      ensures var tx := old(db.withdrawals[id].txHash.value);
        View() == Next(old(View()), DoInFlight(id, node(tx), native, fees(tx)))
      ensures Ends(r, WatchStep(old(db.BooksNow()), id, node, fees, native), old(db.BooksNow()), db.BooksNow())
      ensures Enters(old(db.BooksNow()), db.BooksNow(), Completed) <==> r == Ok(Completed)
      ensures Enters(old(db.BooksNow()), db.BooksNow(), WithdrawalStatus.Failed) <==> r == Ok(WithdrawalStatus.Failed)
    {
      ghost var before := db.BooksNow();
      var w := db.withdrawals[id];
      var fee := fees(w.txHash.value);
      match node(w.txHash.value) {
        case Unknown =>
        case Pending =>
        case Mined(success, final) =>
          if !success {
            var settled := SettleReverted(db, id, native, fee);
            if settled.Err? {
              return Err(settled.error);
            }
            RevertedEnters(before, id, native, fee, Completed);
            RevertedEnters(before, id, native, fee, WithdrawalStatus.Failed);
            return Ok(WithdrawalStatus.Failed);
          }
          if final {
            var settled := SettleCompleted(db, id, native, fee);
            if settled.Err? {
              return Err(settled.error);
            }
            SettledEnters(before, id, native, fee, Completed);
            SettledEnters(before, id, native, fee, WithdrawalStatus.Failed);
            return Ok(Completed);
          }
          NotedEnters(before, id, Completed);
          NotedEnters(before, id, WithdrawalStatus.Failed);
          if w.status.Broadcast? {
            db.withdrawals := db.withdrawals[id := w.(status := WithdrawalStatus.Confirming)];
          }
      }
      return Ok(WithdrawalStatus.Confirming);
    }

    /**
     * `process_in_flight` over the claimed ids; it stops at the first settlement that is refused.
     * Each candidate looked at counts once: completed, failed or still pending.
     */
    method ProcessInFlight(ids: seq<WithdrawalId>, node: Tx -> TxStatus, fees: Tx -> nat, native: Option<AssetId>)
      returns (r: Result<PipelinePass>, ghost actions: seq<Action>)
      requires at.Idle? && HonestNode(mined, node)
      modifies db
      ensures View() == Run(old(View()), actions)
      ensures Leaves(r, Over(old(db.BooksNow()), ids, Watching(node, fees, native)), db.BooksNow())
      ensures r.Ok? ==>
        && r.value.completed == Entering(old(View()), actions, Completed)
        && r.value.failed == Entering(old(View()), actions, WithdrawalStatus.Failed)
        && r.value.completed + r.value.failed + r.value.stillPending == |actions|
    {
      ghost var was := View();
      actions := [];
      var pass := NO_WORK;
      for i := 0 to |ids|
        invariant View() == Run(was, actions)
        invariant Over(was.books, ids[..i], Watching(node, fees, native)) == Pass(db.BooksNow(), None)
        invariant pass.completed == Entering(was, actions, Completed)
        invariant pass.failed == Entering(was, actions, WithdrawalStatus.Failed)
        invariant pass.completed + pass.failed + pass.stillPending == |actions|
      {
        OverNext(was.books, ids, i, Watching(node, fees, native));
        if ids[i] in db.withdrawals && db.withdrawals[ids[i]].status.InFlight() && db.withdrawals[ids[i]].txHash.Some? {
          ghost var before, hash := View(), db.withdrawals[ids[i]].txHash.value;
          ghost var look := DoInFlight(ids[i], node(hash), native, fees(hash));
          var one := WatchOne(ids[i], node, fees, native);
          ThenOne(was, actions, before, look, Completed);
          ThenOne(was, actions, before, look, WithdrawalStatus.Failed);
          actions := actions + [look];
          if one.Err? {
            return Err(one.error), actions;
          }
          match one.value {
            case Completed => pass := pass.(completed := pass.completed + 1);
            case Failed => pass := pass.(failed := pass.failed + 1);
            case _ => pass := pass.(stillPending := pass.stillPending + 1);
          }
        }
      }
      assert ids[..|ids|] == ids;
      r := Ok(pass);
    }

    /** The body of `run_once` for one chain: recovery, then what is approved, then what is in flight. */
    method ChainOnce(order: seq<WithdrawalId>, chain: ChainId, out: Outside)
      returns (r: Result<PipelinePass>, ghost part: Stages)
      requires at.Idle? && HonestNode(mined, out.node)
      modifies this, db
      ensures at == Idle && mined == old(mined) && View() == Run(old(View()), part.Steps())
      ensures Leaves(r, ChainPass(old(db.BooksNow()), order, chain, out), db.BooksNow())
      ensures r.Ok? ==> Counts(old(View()), part, r.value)
    {
      ghost var was := View();
      var recovered, first := RecoverSigning(Claimed(db.withdrawals, order, chain, Signing, BATCH), out.node,
          out.resending);
      part := Stages(first, [], []);
      assert part.Steps() == first;
      if recovered.Err? {
        return Err(recovered.error), part;
      }
      var sent, second := ProcessApproved(Claimed(db.withdrawals, order, chain, Approved, BATCH), out.sending);
      part := Stages(first, second, []);
      RunSplit(was, first, second);
      assert part.Steps() == first + second;
      if sent.Err? {
        return Err(sent.error), part;
      }
      var settled, third := ProcessInFlight(ClaimedInFlight(db.withdrawals, order, chain), out.node, out.fees,
          out.native);
      part := Stages(first, second, third);
      RunSplit(was, first + second, third);
      if settled.Err? {
        return Err(settled.error), part;
      }
      var p, q := sent.value, settled.value;
      return Ok(PipelinePass(p.signed, p.broadcast, q.completed, p.failed + q.failed, recovered.value, q.stillPending)),
          part;
    }

    /** `run_once`: chain after chain, and the first error ends the pass for every chain after it. */
    method RunOnce(order: seq<WithdrawalId>, chains: seq<ChainId>, out: ChainId -> Outside)
      returns (r: Result<PipelinePass>, ghost parts: seq<Stages>, ghost passes: seq<PipelinePass>)
      requires at.Idle? && forall chain :: HonestNode(mined, out(chain).node)
      modifies this, db
      ensures at == Idle && mined == old(mined) && View() == Run(old(View()), AllSteps(parts))
      ensures Leaves(r, RunPass(old(db.BooksNow()), order, chains, out), db.BooksNow())
      ensures r.Ok? ==> |passes| == |chains| && r.value == Total(passes) && AllCount(old(View()), parts, passes)
    {
      ghost var was := View();
      var total := NO_WORK;
      parts, passes := [], [];
      for k := 0 to |chains|
        invariant at == Idle && mined == old(mined) && View() == Run(was, AllSteps(parts))
        invariant RunPass(was.books, order, chains[..k], out) == Pass(db.BooksNow(), None)
        invariant |passes| == k && total == Total(passes) && AllCount(was, parts, passes)
      {
        ChainNext(was.books, order, chains, k, out);
        var one, part := ChainOnce(order, chains[k], out(chains[k]));
        OneChainRun(was, parts, part);
        if one.Err? {
          return Err(one.error), parts + [part], passes;
        }
        OneChainCounted(was, parts, passes, part, one.value);
        parts, passes := parts + [part], passes + [one.value];
        total := Added(total, one.value);
      }
      assert chains[..|chains|] == chains;
      r := Ok(total);
    }
  }
}
