/** One pass of the withdrawal pipeline over the tables: what it claims, in what order, and where it stops. */
module Passes {
  import opened Prelude
  import opened Ledger
  import opened Books
  import opened Pipeline

  /** What the outside world answers while one withdrawal is processed. */
  datatype Answers = Answers(hint: nat, fee: nat, signs: bool, delivered: bool, accepted: bool)

  /** What the outside world answers while the pass is at one chain. */
  datatype Outside = Outside(
    node: Tx -> TxStatus, fees: Tx -> nat, native: Option<AssetId>,
    resending: WithdrawalId -> Answers, sending: WithdrawalId -> Answers)

  /** What a pass leaves: the tables, and the error it ended with. */
  datatype Pass = Pass(books: Books, error: Option<Error>)

  // ------------------------------------------------------------------------------ claims ---

  const BATCH: nat := 25

  /** `claim_by_status`: the oldest rows of a chain in a status; `order` lists the rows by creation. */
  function Claimed(
      rows: map<WithdrawalId, Withdrawal>, order: seq<WithdrawalId>, chain: ChainId, status: WithdrawalStatus,
      limit: nat)
      : (ids: seq<WithdrawalId>)
    ensures |ids| <= limit
    ensures forall id :: id in ids ==> id in order && id in rows && rows[id].chain == chain && rows[id].status == status
  {
    if order == [] || limit == 0 then []
    else if order[0] in rows && rows[order[0]].chain == chain && rows[order[0]].status == status
    then [order[0]] + Claimed(rows, order[1..], chain, status, limit - 1)
    else Claimed(rows, order[1..], chain, status, limit)
  }

  function ClaimedInFlight(
      rows: map<WithdrawalId, Withdrawal>, order: seq<WithdrawalId>, chain: ChainId): seq<WithdrawalId> {
    Claimed(rows, order, chain, WithdrawalStatus.Broadcast, BATCH)
    + Claimed(rows, order, chain, WithdrawalStatus.Confirming, BATCH)
  }

  // ---------------------------------------------------------------------- one candidate ---

  /** One candidate of `recover_signing`: a resend that goes wrong is only logged. */
  function RecoverStep(b: Books, id: WithdrawalId, node: Tx -> TxStatus, answers: Answers): Result<Books> {
    if id !in b.withdrawals || !b.withdrawals[id].status.Signing? then Ok(b)
    else
      var w := b.withdrawals[id];
      if w.txHash.None? then FailAndRelease(b, id)
      else if !node(w.txHash.value).Unknown? then MarkBroadcast(b, id)
      else if w.nonce.Some? && answers.accepted && MarkBroadcast(b, id).Ok? then MarkBroadcast(b, id)
      else Ok(b)
  }

  /** One candidate of `process_approved`: what fails after signing is left for recovery. */
  function SendStep(b: Books, id: WithdrawalId, answers: Answers): Result<Books> {
    if id !in b.withdrawals then Err(NotFound)
    else if !b.withdrawals[id].status.Approved? then Ok(b)
    else if !answers.signs then FailAndRelease(b, id)
    else
      var signed := Sign(b, id, answers.hint, answers.fee).value;
      if answers.accepted && MarkBroadcast(signed, id).Ok? then MarkBroadcast(signed, id) else Ok(signed)
  }

  /** One candidate of `process_in_flight`. */
  function WatchStep(
      b: Books, id: WithdrawalId, node: Tx -> TxStatus, fees: Tx -> nat, native: Option<AssetId>): Result<Books> {
    if id !in b.withdrawals || !b.withdrawals[id].status.InFlight() || b.withdrawals[id].txHash.None? then Ok(b)
    else
      var tx := b.withdrawals[id].txHash.value;
      match node(tx)
      case Mined(true, true) => SettleSuccess(b, id, native, fees(tx))
      case Mined(true, false) => Ok(NoteConfirmations(b, id))
      case Mined(false, _) => SettleFailure(b, id, native, fees(tx))
      case _ => Ok(b)
  }

  // --------------------------------------------------------------------------- one pass ---

  /** Candidate after candidate; the first error ends it. */
  function Over(b: Books, ids: seq<WithdrawalId>, step: (Books, WithdrawalId) -> Result<Books>): Pass {
    if ids == [] then Pass(b, None)
    else
      var before := Over(b, ids[..|ids| - 1], step);
      if before.error.Some? then before
      else
        match step(before.books, ids[|ids| - 1])
        case Ok(b') => Pass(b', None)
        case Err(e) => before.(error := Some(e))
  }

  function Recovering(node: Tx -> TxStatus, answers: WithdrawalId -> Answers): (Books, WithdrawalId) -> Result<Books> {
    (b: Books, id: WithdrawalId) => RecoverStep(b, id, node, answers(id))
  }

  function Sending(answers: WithdrawalId -> Answers): (Books, WithdrawalId) -> Result<Books> {
    (b: Books, id: WithdrawalId) => SendStep(b, id, answers(id))
  }

  function Watching(
      node: Tx -> TxStatus, fees: Tx -> nat, native: Option<AssetId>): (Books, WithdrawalId) -> Result<Books> {
    (b: Books, id: WithdrawalId) => WatchStep(b, id, node, fees, native)
  }

  /** The pass at one chain: recovery first, then what is approved, then what is in flight. */
  function ChainPass(b: Books, order: seq<WithdrawalId>, chain: ChainId, out: Outside): Pass {
    var recovered := Over(b, Claimed(b.withdrawals, order, chain, Signing, BATCH), Recovering(out.node, out.resending));
    if recovered.error.Some? then recovered
    else
      var rows := recovered.books.withdrawals;
      var sent := Over(recovered.books, Claimed(rows, order, chain, Approved, BATCH), Sending(out.sending));
      if sent.error.Some? then sent
      else Over(sent.books, ClaimedInFlight(sent.books.withdrawals, order, chain),
          Watching(out.node, out.fees, out.native))
  }

  /** `run_once`: chain after chain; the first error ends it for all that follow. */
  function RunPass(b: Books, order: seq<WithdrawalId>, chains: seq<ChainId>, out: ChainId -> Outside): Pass {
    if chains == [] then Pass(b, None)
    else
      var before := RunPass(b, order, chains[..|chains| - 1], out);
      if before.error.Some? then before
      else ChainPass(before.books, order, chains[|chains| - 1], out(chains[|chains| - 1]))
  }
}
