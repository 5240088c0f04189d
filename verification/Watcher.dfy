/**
 * The deposit watcher of one chain: fork detection, reorg handling, scanning, pruning and the
 * confirmation pass, as functions of the stored rows and the chain seen during one tick.
 */
module Watcher {
  import opened Prelude
  import opened Ledger
  import opened Books
  import opened Blocks
  import Codec

  /** The cursor's hash is `None` for the all-zero hash, which no block has. */
  datatype Cursor = Cursor(height: nat, hash: Option<Block>)

  datatype TransferRow = TransferRow(block: Block, orphaned: bool)

  /** Canonical rows by height, the cursor, and the recorded transfers. */
  datatype Store = Store(canonical: map<nat, Block>, cursor: Option<Cursor>, transfers: map<DepositId, TransferRow>)

  datatype Config = Config(
    chain: ChainId, batchSize: nat, scanDepth: nat, startBlock: Option<nat>, required: Option<nat>)

  /** What the deposit engine looks up: contracts the adapter asks for, assets by contract, owners by address. */
  datatype Directory = Directory(
    tracked: set<nat>, contracts: set<nat>, assets: map<nat, AssetId>, owners: map<nat, UserId>)

  datatype Tables = Tables(store: Store, books: Books)

  // ------------------------------------------------------------------------ detect ---

  /** The walk-back loop of `detect`; it stops with an error at `floor`. */
  function WalkBack(canonical: map<nat, Block>, head: Block, height: nat, floor: nat): Result<Option<nat>> {
    if height <= floor then Err(Internal)
    else
      var h := height - 1;
      if h !in canonical then Ok(Some(h))
      else if HeaderAt(head, h) == Some(canonical[h]) then Ok(Some(h))
      else WalkBack(canonical, head, h, floor)
  }

  function Floor(tip: nat, depth: nat): nat { if tip >= depth then tip - depth else 0 }

  /** `detect`: the common ancestor's height, or `None` when there is no reorg to handle. */
  function Detect(s: Store, head: Block, depth: nat): Result<Option<nat>> {
    if s.cursor.None? then Ok(None)
    else
      var tip := s.cursor.value.height;
      var onChain := HeaderAt(head, tip);
      if onChain.None? || onChain == s.cursor.value.hash then Ok(None)
      else WalkBack(s.canonical, head, tip, Floor(tip, depth))
  }

  /** `find_common_ancestor` over (height, hash) pairs, the first stored pair the chain has too. */
  function FindCommonAncestor(stored: seq<(nat, Block)>, chain: seq<(nat, Block)>): Option<nat> {
    if stored == [] then None
    else if ChainAt(chain, stored[0].0) == Some(stored[0].1) then Some(stored[0].0)
    else FindCommonAncestor(stored[1..], chain)
  }

  /** Collecting pairs into a map keeps the last pair of a height. */
  function ChainAt(chain: seq<(nat, Block)>, height: nat): Option<Block> {
    if chain == [] then None
    else if chain[|chain| - 1].0 == height then Some(chain[|chain| - 1].1)
    else ChainAt(chain[..|chain| - 1], height)
  }

  // ------------------------------------------------------------------------ handle ---

  /** `orphan_blocks_above`. */
  function Kept(canonical: map<nat, Block>, above: nat): map<nat, Block> {
    map h | h in canonical && h <= above :: canonical[h]
  }

  function OrphanedBlocks(canonical: map<nat, Block>, above: nat): set<Block> {
    set h | h in canonical && h > above :: canonical[h]
  }

  /** `mark_transfers_orphaned`: the rows it returns. */
  function Abandoned(s: Store, above: nat): set<DepositId> {
    set d | d in s.transfers && !s.transfers[d].orphaned && s.transfers[d].block in OrphanedBlocks(s.canonical, above)
  }

  function MarkOrphaned(transfers: map<DepositId, TransferRow>, ds: set<DepositId>): map<DepositId, TransferRow> {
    map d | d in transfers :: if d in ds then transfers[d].(orphaned := true) else transfers[d]
  }

  /** `rewind_cursor`. */
  function Rewound(canonical: map<nat, Block>, height: nat): Cursor {
    Cursor(height, if height in canonical then Some(canonical[height]) else None)
  }

  /** The database returns the deposits of the abandoned transfers in some order. */
  predicate Enumerates(order: seq<DepositId>, ds: set<DepositId>) {
    (set d | d in order) == ds && forall i, j :: 0 <= i < j < |order| ==> order[i] != order[j]
  }

  function RollBack(s: Store, ancestor: nat): Store {
    var canonical := Kept(s.canonical, ancestor);
    Store(canonical, Some(Rewound(canonical, ancestor)), MarkOrphaned(s.transfers, Abandoned(s, ancestor)))
  }

  /** `handle_in_tx`. */
  function Handle(t: Tables, ancestor: nat, order: seq<DepositId>): Result<Tables> {
    match ReorgDeposits(t.books, order)
    case Err(e) => Err(e)
    case Ok(b) => Ok(Tables(RollBack(t.store, ancestor), b))
  }

  // -------------------------------------------------------------------------- scan ---

  /** `persist_header`, with the branch that orphans an incumbent at the same height. */
  function PersistHeader(canonical: map<nat, Block>, b: Block): Result<map<nat, Block>> {
    var h := b.Height();
    var freed := if h in canonical && canonical[h] != b then Kept(canonical, if h > 0 then h - 1 else 0) else canonical;
    if h in freed && freed[h] != b then Err(Conflict) else Ok(freed[h := b])
  }

  function PersistHeaders(canonical: map<nat, Block>, headers: seq<Block>): Result<map<nat, Block>> {
    if headers == [] then Ok(canonical)
    else
      match PersistHeaders(canonical, headers[..|headers| - 1])
      case Err(e) => Err(e)
      case Ok(m) => PersistHeader(m, headers[|headers| - 1])
  }

  datatype Log = Log(block: Block, transfer: Transfer)

  function IdOf(chain: ChainId, t: Transfer): DepositId { DepositId(chain, t.txHash, t.logIndex) }

  /** The adapter asks for the logs of tracked contracts and keeps transfers to tracked addresses. */
  predicate Addressed(dir: Directory, t: Transfer) { t.contract in dir.contracts && t.to in dir.tracked }

  /** A log that does not decode is logged and dropped, so only decodable transfers are handed over. */
  predicate Visible(dir: Directory, t: Transfer) { Addressed(dir, t) && Codec.Decodable(t.amount) }

  predicate Resolved(dir: Directory, t: Transfer) { t.contract in dir.assets && t.to in dir.owners }

  /** `persist_transfer`; the schema refuses a transfer row whose amount is not positive. */
  function PersistTransfer(t: Tables, chain: ChainId, dir: Directory, l: Log): Result<Tables> {
    var id := IdOf(chain, l.transfer);
    if !Resolved(dir, l.transfer) then Ok(t)
    else if id in t.store.transfers then Ok(t)
    else if !IsPositive(l.transfer.amount) then Err(Conflict)
    else
      match ObserveDeposit(t.books, id, dir.owners[l.transfer.to], dir.assets[l.transfer.contract], l.transfer.amount)
      case Err(e) => Err(e)
      case Ok(b) => Ok(Tables(t.store.(transfers := t.store.transfers[id := TransferRow(l.block, false)]), b))
  }

  function PersistTransfers(t: Tables, chain: ChainId, dir: Directory, logs: seq<Log>): Result<Tables> {
    if logs == [] then Ok(t)
    else
      match PersistTransfers(t, chain, dir, logs[..|logs| - 1])
      case Err(e) => Err(e)
      case Ok(m) => PersistTransfer(m, chain, dir, logs[|logs| - 1])
  }

  /** The blocks of the scanned range, lowest first. */
  function Headers(head: Block, from: nat, to: nat): seq<Block> {
    if from > to || to > head.Height() then []
    else if from == to then [HeaderAt(head, to).value]
    else Headers(head, from, to - 1) + [HeaderAt(head, to).value]
  }

  function LogsOf(dir: Directory, b: Block, transfers: seq<Transfer>): seq<Log> {
    if transfers == [] then []
    else
      var t := transfers[|transfers| - 1];
      LogsOf(dir, b, transfers[..|transfers| - 1]) + if Visible(dir, t) then [Log(b, t)] else []
  }

  /** The tracked transfer logs of the scanned blocks that decode. */
  function Logs(dir: Directory, headers: seq<Block>): seq<Log> {
    if headers == [] then []
    else Logs(dir, headers[..|headers| - 1]) + LogsOf(dir, headers[|headers| - 1], headers[|headers| - 1].Logs())
  }

  /** `persist_scan`: headers, transfers, and the cursor last, in one transaction. */
  function Persist(t: Tables, chain: ChainId, dir: Directory, headers: seq<Block>): Result<Tables> {
    if headers == [] then Ok(t)
    else
      match PersistHeaders(t.store.canonical, headers)
      case Err(e) => Err(e)
      case Ok(canonical) =>
        match PersistTransfers(t.(store := t.store.(canonical := canonical)), chain, dir, Logs(dir, headers))
        case Err(e) => Err(e)
        case Ok(m) =>
          var tip := headers[|headers| - 1];
          Ok(m.(store := m.store.(cursor := Some(Cursor(tip.Height(), Some(tip))))))
  }

  /** `prune_blocks_below`: a block some transfer refers to is kept. */
  function Prune(s: Store, below: nat): Store {
    s.(canonical := map h | h in s.canonical && (h >= below || Referenced(s, s.canonical[h])) :: s.canonical[h])
  }

  predicate Referenced(s: Store, b: Block) { exists d :: d in s.transfers && s.transfers[d].block == b }

  // -------------------------------------------------------------------------- tick ---

  /** `next_range`. */
  function NextRange(cursor: nat, head: nat, batchSize: nat): Option<(nat, nat)> {
    if cursor >= head then None
    else
      var from := cursor + 1;
      var last := from + (if batchSize > 1 then batchSize else 1) - 1;
      Some((from, if head < last then head else last))
  }

  /** `initialise_cursor`: when the chain has no block there yet, the head's hash stands in for it. */
  function InitialHeight(cfg: Config, head: Block): nat {
    if cfg.startBlock.Some? then (if cfg.startBlock.value > 0 then cfg.startBlock.value - 1 else 0)
    else
      var required := if cfg.required.Some? then cfg.required.value else 1;
      Floor(head.Height(), required)
  }

  function Initialise(s: Store, cfg: Config, head: Block): Result<Store> {
    var at := InitialHeight(cfg, head);
    var b := if HeaderAt(head, at).Some? then HeaderAt(head, at).value else head;
    if at in s.canonical && s.canonical[at] != b then Err(Conflict)
    else Ok(s.(canonical := s.canonical[at := b], cursor := Some(Cursor(at, Some(b)))))
  }

  datatype Outcome =
    | Idle(head: nat, cursor: nat)
    | Scanned(from: nat, to: nat, head: nat)
    | Reorged(ancestor: nat)
    | Initialised(at: nat)

  /** The scan half of a tick, once the cursor is known to be on the chain. */
  function Scan(t: Tables, cfg: Config, head: Block, dir: Directory, prune: bool): Result<(Tables, Outcome)>
    requires t.store.cursor.Some?
  {
    var cursor := t.store.cursor.value.height;
    match NextRange(cursor, head.Height(), cfg.batchSize)
    case None => Ok((t, Idle(head.Height(), cursor)))
    case Some((from, to)) =>
      match Persist(t, cfg.chain, dir, Headers(head, from, to))
      case Err(e) => Err(e)
      case Ok(m) =>
        var kept := if prune && to > 4 * cfg.scanDepth then m.(store := Prune(m.store, to - 4 * cfg.scanDepth)) else m;
        Ok((kept, Scanned(from, to, head.Height())))
  }

  /** `tick` on a chain that stays `head` throughout; `prune` says whether the non-fatal pruning ran. */
  function Tick(t: Tables, cfg: Config, head: Block, dir: Directory, order: seq<DepositId>, prune: bool)
      : Result<(Tables, Outcome)> {
    match Detect(t.store, head, cfg.scanDepth)
    case Err(e) => Err(e)
    case Ok(Some(ancestor)) =>
      (match Handle(t, ancestor, order)
       case Err(e) => Err(e)
       case Ok(m) => Ok((m, Outcome.Reorged(ancestor))))
    case Ok(None) =>
      if t.store.cursor.None? then
        match Initialise(t.store, cfg, head)
        case Err(e) => Err(e)
        case Ok(s) => Ok((t.(store := s), Initialised(InitialHeight(cfg, head))))
      else Scan(t, cfg, head, dir, prune)
  }

  // ----------------------------------------------------------------- confirmations ---

  /** `confirmations_for`: the including block counts as one. */
  function ConfirmationsFor(head: nat, height: nat): nat { (if head > height then head - height else 0) + 1 }

  /** `is_confirmed`; a tag policy never confirms by counting. */
  predicate IsConfirmed(required: Option<nat>, head: nat, height: nat) {
    required.Some? && ConfirmationsFor(head, height) >= (if required.value > 1 then required.value else 1)
  }

  predicate StillCanonical(s: Store, d: DepositId) {
    && d in s.transfers && s.transfers[d].block.Height() in s.canonical
    && s.canonical[s.transfers[d].block.Height()] == s.transfers[d].block
  }

  /** One claimed deposit of `ConfirmationEngine::run_once`. */
  function ConfirmOne(t: Tables, required: Option<nat>, head: nat, d: DepositId): Tables {
    if !StillCanonical(t.store, d) then t
    else t.(books := ConfirmDeposit(t.books, d, IsConfirmed(required, head, t.store.transfers[d].block.Height())))
  }

  function ConfirmPass(t: Tables, required: Option<nat>, head: nat, claimed: seq<DepositId>): Tables {
    if claimed == [] then t
    else ConfirmOne(ConfirmPass(t, required, head, claimed[..|claimed| - 1]), required, head, claimed[|claimed| - 1])
  }
}
