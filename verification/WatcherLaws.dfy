/** What one tick of the watcher and one confirmation pass keep. */
module WatcherLaws {
  import opened Prelude
  import opened Ledger
  import opened Books
  import opened BooksLaws
  import opened RefusalLaws
  import opened Blocks
  import opened Watcher
  import opened ForkLaws

  // ----------------------------------------------------------------- the invariants ---

  /** All canonical rows lie on one chain. */
  ghost predicate OneChain(canonical: map<nat, Block>, x: Block) {
    forall h :: h in canonical ==> HeaderAt(x, h) == Some(canonical[h])
  }

  /** Started where the chain had no block yet: the only row carries the head's hash at a greater height. */
  ghost predicate Misplaced(s: Store) {
    && s.cursor.Some? && s.cursor.value.hash.Some? && Tip(s).Height() < s.cursor.value.height
    && s.canonical == map[s.cursor.value.height := Tip(s)] && s.transfers == map[]
  }

  /** Rewound below what is stored: the cursor has the zero hash. */
  ghost predicate Adrift(s: Store) {
    && s.cursor.Some? && s.cursor.value.hash.None? && s.cursor.value.height !in s.canonical
    && (forall h :: h in s.canonical ==> h <= s.cursor.value.height)
    && exists x :: OneChain(s.canonical, x)
  }

  ghost predicate NotStarted(s: Store) { s.cursor.None? && s.canonical == map[] && s.transfers == map[] }

  ghost predicate Consistent(s: Store) { NotStarted(s) || Lineage(s) || Misplaced(s) || Adrift(s) }

  /** The deposit came from a transfer log of that block, with its amount. */
  ghost predicate Carries(b: Block, chain: ChainId, d: DepositId, amount: int) {
    exists t :: t in b.Logs() && DepositId(chain, t.txHash, t.logIndex) == d && t.amount == amount
  }

  ghost predicate RowTracked(t: Tables, chain: ChainId, d: DepositId) {
    && d.chain == chain && d in t.store.transfers && d in t.books.deposits
    && Carries(t.store.transfers[d].block, chain, d, t.books.deposits[d].amount)
    && (t.store.transfers[d].orphaned <==> t.books.deposits[d].status.Reorged?)
    && (t.store.transfers[d].orphaned || StillCanonical(t.store, d))
  }

  /** Each recorded transfer has its deposit, and a deposit that is not reorged sits in a canonical row. */
  ghost predicate Tracked(t: Tables, chain: ChainId) {
    && (forall d :: d in t.store.transfers ==> RowTracked(t, chain, d))
    && (forall d :: d in t.books.deposits && d.chain == chain ==> d in t.store.transfers)
  }

  // --------------------------------------------------------------------------- reorg ---

  lemma KeptLineage(s: Store, x: Block, a: nat)
    requires s.cursor.Some? && OneChain(s.canonical, x)
    ensures a in s.canonical ==> Lineage(RollBack(s, a)) && Tip(RollBack(s, a)) == s.canonical[a]
    ensures a !in s.canonical ==> Adrift(RollBack(s, a))
  {
    var s' := RollBack(s, a);
    if a in s.canonical {
      forall h | h in s'.canonical ensures HeaderAt(s.canonical[a], h) == Some(s'.canonical[h]) {
        assert HeaderAt(x, a) == Some(s.canonical[a]) && HeaderAt(x, h) == Some(s.canonical[h]);
        HeaderBelow(x, a, h);
      }
    } else {
      assert OneChain(s'.canonical, x);
    }
  }

  lemma OrphanedOrKept(s: Store, a: nat, d: DepositId)
    requires StillCanonical(s, d) && s.transfers[d].orphaned == false
    ensures d in Abandoned(s, a) <==>
      s.transfers[d].block.Height() > a || s.transfers[d].block in OrphanedBlocks(s.canonical, a)
  {
    var b := s.transfers[d].block;
    if b.Height() > a {
      assert s.canonical[b.Height()] in OrphanedBlocks(s.canonical, a);
    }
  }

  /** Unwinding to any height keeps every deposit tied to a canonical row. */
  lemma HandleTracked(t: Tables, chain: ChainId, a: nat, order: seq<DepositId>, b: Books)
    requires Tracked(t, chain) && Enumerates(order, Abandoned(t.store, a)) && Reorganised(t.books, order, b)
    ensures Tracked(Tables(RollBack(t.store, a), b), chain)
  {
    var t' := Tables(RollBack(t.store, a), b);
    forall d | d in t'.store.transfers ensures RowTracked(t', chain, d) {
      assert RowTracked(t, chain, d);
      assert d in order <==> d in (set x | x in order);
      if !t.store.transfers[d].orphaned {
        OrphanedOrKept(t.store, a, d);
      }
    }
    forall d | d in b.deposits && d.chain == chain ensures d in t'.store.transfers {
      assert d in t.books.deposits;
    }
  }

  // ---------------------------------------------------------------------------- scan ---

  /** `grown` is `canonical` with the chain's blocks at the heights `from` to `to`. */
  ghost predicate Grown(canonical: map<nat, Block>, grown: map<nat, Block>, head: Block, from: nat, to: nat) {
    && (forall h :: h in canonical && h < from ==> h in grown && grown[h] == canonical[h])
    && (forall h :: from <= h <= to ==> h in grown && HeaderAt(head, h) == Some(grown[h]))
    && (forall h :: h in grown ==> (h in canonical && h < from) || from <= h <= to)
  }

  lemma {:induction false} HeadersAre(head: Block, from: nat, to: nat)
    requires from <= to <= head.Height()
    ensures |Headers(head, from, to)| == to - from + 1
    ensures forall i :: 0 <= i <= to - from ==> HeaderAt(head, from + i) == Some(Headers(head, from, to)[i])
  {
    if from < to {
      HeadersAre(head, from, to - 1);
    }
  }

  lemma HeaderInserted(canonical: map<nat, Block>, m: map<nat, Block>, head: Block, from: nat, to: nat)
    requires from <= to <= head.Height() && (forall h :: h in canonical ==> h < from)
    requires if from == to then m == canonical else Grown(canonical, m, head, from, to - 1)
    ensures var r := PersistHeader(m, HeaderAt(head, to).value); r.Ok? && Grown(canonical, r.value, head, from, to)
  {}

  /** Inserting the blocks above everything stored never meets an incumbent. */
  lemma {:induction false} HeadersInserted(canonical: map<nat, Block>, head: Block, from: nat, to: nat)
    requires from <= to <= head.Height() && forall h :: h in canonical ==> h < from
    ensures PersistHeaders(canonical, Headers(head, from, to)).Ok?
    ensures Grown(canonical, PersistHeaders(canonical, Headers(head, from, to)).value, head, from, to)
  {
    var headers := Headers(head, from, to);
    if from == to {
      assert headers[..|headers| - 1] == [];
      HeaderInserted(canonical, canonical, head, from, to);
    } else {
      HeadersInserted(canonical, head, from, to - 1);
      assert headers[..|headers| - 1] == Headers(head, from, to - 1);
      HeaderInserted(canonical, PersistHeaders(canonical, Headers(head, from, to - 1)).value, head, from, to);
    }
  }

  /** The branch of `persist_header` that orphans an incumbent is dead in a scan from the cursor. */
  lemma IncumbentNeverMet(s: Store, head: Block, to: nat, i: nat)
    requires Lineage(s) && s.cursor.value.height + 1 <= to <= head.Height()
    requires i < |Headers(head, s.cursor.value.height + 1, to)|
    ensures var headers := Headers(head, s.cursor.value.height + 1, to);
      && PersistHeaders(s.canonical, headers[..i]).Ok?
      && headers[i].Height() !in PersistHeaders(s.canonical, headers[..i]).value
  {
    var from := s.cursor.value.height + 1;
    HeadersAre(head, from, to);
    assert HeaderAt(head, from + i) == Some(Headers(head, from, to)[i]);
    if i == 0 {
      assert Headers(head, from, to)[..i] == [];
    } else {
      FirstHeaders(head, from, to, i);
      HeightStillFree(s.canonical, head, from, from + i - 1);
    }
  }

  lemma HeightStillFree(canonical: map<nat, Block>, head: Block, from: nat, to: nat)
    requires from <= to <= head.Height() && forall h :: h in canonical ==> h < from
    ensures var r := PersistHeaders(canonical, Headers(head, from, to)); r.Ok? && to + 1 !in r.value
  {
    HeadersInserted(canonical, head, from, to);
  }

  lemma FirstHeaders(head: Block, from: nat, to: nat, i: nat)
    requires from <= to <= head.Height() && 0 < i <= to - from
    ensures |Headers(head, from, to)| == to - from + 1
    ensures Headers(head, from, to)[..i] == Headers(head, from, from + i - 1)
  {
    HeadersAre(head, from, to);
    HeadersAre(head, from, from + i - 1);
    forall k | 0 <= k < i ensures Headers(head, from, to)[k] == Headers(head, from, from + i - 1)[k] {
      assert HeaderAt(head, from + k) == Some(Headers(head, from, to)[k]);
      assert HeaderAt(head, from + k) == Some(Headers(head, from, from + i - 1)[k]);
    }
  }

  lemma GrownOnChain(s: Store, head: Block, to: nat, grown: map<nat, Block>, h: nat)
    requires Lineage(s) && OnChain(head, Tip(s)) && Tip(s).Height() < to <= head.Height()
    requires Grown(s.canonical, grown, head, Tip(s).Height() + 1, to) && h in grown
    ensures h <= to && HeaderAt(HeaderAt(head, to).value, h) == Some(grown[h]) == HeaderAt(head, h)
  {
    if h <= Tip(s).Height() {
      HeaderBelow(head, Tip(s).Height(), h);
      assert HeaderAt(Tip(s), h) == Some(s.canonical[h]);
    }
    HeaderBelow(head, to, h);
  }

  // ------------------------------------------------------------------------ transfers ---

  /** The log is in a block that is canonical in the store. */
  ghost predicate LogOk(s: Store, l: Log) {
    l.transfer in l.block.Logs() && l.block.Height() in s.canonical && s.canonical[l.block.Height()] == l.block
  }

  lemma TransferTracked(t: Tables, chain: ChainId, dir: Directory, l: Log)
    requires Tracked(t, chain) && LogOk(t.store, l) && PersistTransfer(t, chain, dir, l).Ok?
    ensures Tracked(PersistTransfer(t, chain, dir, l).value, chain)
    ensures PersistTransfer(t, chain, dir, l).value.store.canonical == t.store.canonical
  {
    var t', id := PersistTransfer(t, chain, dir, l).value, IdOf(chain, l.transfer);
    if t' != t {
      assert id !in t.books.deposits;
      assert Carries(l.block, chain, id, l.transfer.amount);
      forall d | d in t'.store.transfers ensures RowTracked(t', chain, d) {
        if d != id { assert RowTracked(t, chain, d); }
      }
    }
  }

  lemma {:induction false} TransfersTracked(t: Tables, chain: ChainId, dir: Directory, logs: seq<Log>)
    requires Tracked(t, chain) && (forall l :: l in logs ==> LogOk(t.store, l))
    requires PersistTransfers(t, chain, dir, logs).Ok?
    ensures Tracked(PersistTransfers(t, chain, dir, logs).value, chain)
    ensures PersistTransfers(t, chain, dir, logs).value.store.canonical == t.store.canonical
  {
    if logs != [] {
      assert logs == logs[..|logs| - 1] + [logs[|logs| - 1]];
      assert LogOk(t.store, logs[|logs| - 1]);
      TransfersTracked(t, chain, dir, logs[..|logs| - 1]);
      TransferTracked(PersistTransfers(t, chain, dir, logs[..|logs| - 1]).value, chain, dir, logs[|logs| - 1]);
    }
  }

  lemma {:induction false} LogsOfBlock(dir: Directory, b: Block, transfers: seq<Transfer>, l: Log)
    ensures l in LogsOf(dir, b, transfers) <==> l.block == b && l.transfer in transfers && Visible(dir, l.transfer)
  {
    if transfers != [] {
      var front, last := transfers[..|transfers| - 1], transfers[|transfers| - 1];
      assert transfers == front + [last];
      LogsOfBlock(dir, b, front, l);
    }
  }

  /** The scan hands over exactly the tracked transfers of the scanned blocks. */
  lemma {:induction false} LogsAre(dir: Directory, headers: seq<Block>, l: Log)
    ensures l in Logs(dir, headers) <==>
      && l.block in headers && l.transfer in l.block.Logs()
      && l.transfer.contract in dir.contracts && l.transfer.to in dir.tracked && Codec.Decodable(l.transfer.amount)
  {
    if headers != [] {
      var front, last := headers[..|headers| - 1], headers[|headers| - 1];
      assert headers == front + [last];
      LogsAre(dir, front, l);
      LogsOfBlock(dir, last, last.Logs(), l);
    }
  }

  lemma LogsAreCanonical(s: Store, dir: Directory, head: Block, from: nat, to: nat, l: Log)
    requires from <= to <= head.Height()
    requires forall h :: from <= h <= to ==> h in s.canonical && HeaderAt(head, h) == Some(s.canonical[h])
    requires l in Logs(dir, Headers(head, from, to))
    ensures LogOk(s, l)
  {
    LogsAre(dir, Headers(head, from, to), l);
    HeadersAre(head, from, to);
    var i :| 0 <= i < |Headers(head, from, to)| && Headers(head, from, to)[i] == l.block;
    assert HeaderAt(head, from + i) == Some(l.block);
  }

  /** More canonical rows above leave every tracked row tracked. */
  lemma GrownTracked(t: Tables, chain: ChainId, grown: map<nat, Block>, head: Block, from: nat, to: nat)
    requires Tracked(t, chain) && Grown(t.store.canonical, grown, head, from, to)
    requires forall h :: h in t.store.canonical ==> h < from
    ensures Tracked(t.(store := t.store.(canonical := grown)), chain)
  {
    var t' := t.(store := t.store.(canonical := grown));
    forall d | d in t'.store.transfers ensures RowTracked(t', chain, d) {
      assert RowTracked(t, chain, d);
    }
  }

  lemma CursorTracked(t: Tables, chain: ChainId, cursor: Option<Cursor>)
    requires Tracked(t, chain)
    ensures Tracked(t.(store := t.store.(cursor := cursor)), chain)
  {
    var t' := t.(store := t.store.(cursor := cursor));
    forall d | d in t'.store.transfers ensures RowTracked(t', chain, d) {
      assert RowTracked(t, chain, d);
    }
  }

  lemma FilledTracked(t: Tables, chain: ChainId, dir: Directory, head: Block, from: nat, to: nat)
    requires Tracked(t, chain) && from <= to <= head.Height()
    requires forall h :: from <= h <= to ==> h in t.store.canonical && HeaderAt(head, h) == Some(t.store.canonical[h])
    requires PersistTransfers(t, chain, dir, Logs(dir, Headers(head, from, to))).Ok?
    ensures var t' := PersistTransfers(t, chain, dir, Logs(dir, Headers(head, from, to))).value;
      Tracked(t', chain) && t'.store.canonical == t.store.canonical
  {
    forall l | l in Logs(dir, Headers(head, from, to)) ensures LogOk(t.store, l) {
      LogsAreCanonical(t.store, dir, head, from, to, l);
    }
    TransfersTracked(t, chain, dir, Logs(dir, Headers(head, from, to)));
  }

  /** What a persisted scan leaves behind. */
  lemma PersistEffect(t: Tables, chain: ChainId, dir: Directory, head: Block, from: nat, to: nat, t': Tables)
    requires Tracked(t, chain) && from <= to <= head.Height() && forall h :: h in t.store.canonical ==> h < from
    requires Persist(t, chain, dir, Headers(head, from, to)) == Ok(t')
    ensures Tracked(t', chain) && Grown(t.store.canonical, t'.store.canonical, head, from, to)
    ensures t'.store.cursor == Some(Cursor(to, HeaderAt(head, to)))
  {
    var headers := Headers(head, from, to);
    HeadersAre(head, from, to);
    assert HeaderAt(head, from + (to - from)) == Some(headers[to - from]);
    HeadersInserted(t.store.canonical, head, from, to);
    var grown := PersistHeaders(t.store.canonical, headers).value;
    GrownTracked(t, chain, grown, head, from, to);
    var filling := t.(store := t.store.(canonical := grown));
    FilledTracked(filling, chain, dir, head, from, to);
    CursorTracked(PersistTransfers(filling, chain, dir, Logs(dir, headers)).value, chain, t'.store.cursor);
  }

  lemma ScannedLineage(s: Store, s': Store, head: Block, to: nat)
    requires Lineage(s) && OnChain(head, Tip(s)) && Tip(s).Height() < to <= head.Height()
    requires Grown(s.canonical, s'.canonical, head, Tip(s).Height() + 1, to)
    requires s'.cursor == Some(Cursor(to, HeaderAt(head, to)))
    ensures Lineage(s') && OnChain(head, Tip(s'))
  {
    forall h | h in s'.canonical ensures HeaderAt(Tip(s'), h) == Some(s'.canonical[h]) {
      GrownOnChain(s, head, to, s'.canonical, h);
    }
  }

  // -------------------------------------------------------------------------- pruning ---

  lemma PruneTracked(t: Tables, chain: ChainId, below: nat)
    requires Tracked(t, chain)
    ensures Tracked(t.(store := Prune(t.store, below)), chain)
  {
    var t' := t.(store := Prune(t.store, below));
    forall d | d in t'.store.transfers ensures RowTracked(t', chain, d) {
      assert RowTracked(t, chain, d);
      assert Referenced(t.store, t.store.transfers[d].block);
    }
  }

  lemma PruneLineage(s: Store, below: nat)
    requires Lineage(s) && below <= s.cursor.value.height
    ensures Lineage(Prune(s, below)) && Tip(Prune(s, below)) == Tip(s)
  {}

  // ----------------------------------------------------------------------------- tick ---

  /** What a tick hands on: consistent rows, tracked deposits, and the books it committed. */
  lemma ScanKeeps(t: Tables, cfg: Config, head: Block, dir: Directory, prune: bool)
    requires Lineage(t.store) && Tracked(t, cfg.chain) && OnChain(head, Tip(t.store))
    requires Scan(t, cfg, head, dir, prune).Ok?
    ensures var (t', outcome) := Scan(t, cfg, head, dir, prune).value;
      Lineage(t'.store) && Tracked(t', cfg.chain) && OnChain(head, Tip(t'.store))
  {
    var cursor := t.store.cursor.value.height;
    match NextRange(cursor, head.Height(), cfg.batchSize)
    case None =>
    case Some((from, to)) =>
      var m := Persist(t, cfg.chain, dir, Headers(head, from, to)).value;
      PersistEffect(t, cfg.chain, dir, head, from, to, m);
      ScannedLineage(t.store, m.store, head, to);
      if prune && to > 4 * cfg.scanDepth {
        PruneLineage(m.store, to - 4 * cfg.scanDepth);
        PruneTracked(m, cfg.chain, to - 4 * cfg.scanDepth);
      }
  }

  lemma InitialiseKeeps(t: Tables, cfg: Config, head: Block)
    requires NotStarted(t.store) && Tracked(t, cfg.chain)
    ensures Initialise(t.store, cfg, head).Ok?
    ensures var s := Initialise(t.store, cfg, head).value;
      && Consistent(s) && Tracked(t.(store := s), cfg.chain)
      && (Lineage(s) <==> InitialHeight(cfg, head) <= head.Height())
      && (Lineage(s) ==> OnChain(head, Tip(s)))
  {}

  /**
   * What a cold start will scan: exactly the configured start block onwards, or the heights with at
   * most the required confirmations. A policy without a number of confirmations counts as one, so
   * there it scans nothing below the head.
   */
  lemma FreshStartMissesNothing(cfg: Config, head: Block, h: nat)
    requires h <= head.Height()
    ensures cfg.startBlock.Some? ==> (h > InitialHeight(cfg, head) <==> h >= Max(cfg.startBlock.value, 1))
    ensures cfg.startBlock.None? && cfg.required.Some? && h > 0 ==>
      (h > InitialHeight(cfg, head) <==> ConfirmationsFor(head.Height(), h) <= cfg.required.value)
    ensures cfg.startBlock.None? && cfg.required.None? && h > 0 ==>
      (h > InitialHeight(cfg, head) <==> h == head.Height())
  {}

  /** A new deposit belongs to the owner of the address paid, in the asset of the contract, with the log's amount. */
  lemma NewDepositIsTheOwners(t: Tables, chain: ChainId, dir: Directory, l: Log)
    requires Tracked(t, chain) && PersistTransfer(t, chain, dir, l).Ok?
    ensures var t', id := PersistTransfer(t, chain, dir, l).value,
        DepositId(chain, l.transfer.txHash, l.transfer.logIndex);
      && (t' != t <==> l.transfer.contract in dir.assets && l.transfer.to in dir.owners && id !in t.store.transfers)
      && (t' != t ==>
            && t'.books.deposits == t.books.deposits[id :=
                 Deposit(dir.owners[l.transfer.to], dir.assets[l.transfer.contract], l.transfer.amount, Observed)]
            && t'.books.ledger == t.books.ledger)
  {
    var id := IdOf(chain, l.transfer);
    assert id in t.books.deposits ==> id in t.store.transfers;
  }

  /** The orders in which the database may return the abandoned deposits. */
  ghost predicate OrderFits(t: Tables, cfg: Config, head: Block, order: seq<DepositId>) {
    var found := Detect(t.store, head, cfg.scanDepth);
    found.Ok? && found.value.Some? ==> Enumerates(order, Abandoned(t.store, found.value.value))
  }

  lemma WalkBackBelow(canonical: map<nat, Block>, head: Block, height: nat, floor: nat)
    ensures var r := WalkBack(canonical, head, height, floor);
      r.Ok? ==> r.value.Some? && floor <= r.value.value < height
  {}

  lemma MisplacedHandled(s: Store, a: nat)
    requires Misplaced(s) && a < s.cursor.value.height
    ensures Adrift(RollBack(s, a))
  {
    assert OneChain(RollBack(s, a).canonical, Genesis);
  }

  lemma HandledConsistent(s: Store, a: nat)
    requires Consistent(s) && s.cursor.Some? && a < s.cursor.value.height
    ensures Lineage(RollBack(s, a)) || Adrift(RollBack(s, a))
    ensures Lineage(RollBack(s, a)) <==> a in s.canonical
  {
    if Misplaced(s) {
      MisplacedHandled(s, a);
    } else if Lineage(s) {
      KeptLineage(s, Tip(s), a);
    } else {
      var x :| OneChain(s.canonical, x);
      KeptLineage(s, x, a);
    }
  }

  /** A tick that does not find a reorg only goes on from a cursor the chain has. */
  lemma NoReorgMeans(s: Store, head: Block, depth: nat)
    requires Consistent(s) && s.cursor.Some? && Detect(s, head, depth) == Ok(None)
    ensures s.cursor.value.height > head.Height() || (Lineage(s) && OnChain(head, Tip(s)))
  {
    var tip := s.cursor.value.height;
    if tip <= head.Height() {
      WalkBackBelow(s.canonical, head, tip, Floor(tip, depth));
      assert HeaderAt(head, tip) == s.cursor.value.hash;
    }
  }

  /** Every tick, on whatever chain it sees, keeps the rows consistent and the deposits tracked. */
  lemma TickKeeps(t: Tables, cfg: Config, head: Block, dir: Directory, order: seq<DepositId>, prune: bool)
    requires Consistent(t.store) && Tracked(t, cfg.chain) && Inv(t.books)
    requires OrderFits(t, cfg, head, order) && Tick(t, cfg, head, dir, order, prune).Ok?
    ensures var (t', outcome) := Tick(t, cfg, head, dir, order, prune).value;
      && Consistent(t'.store) && Tracked(t', cfg.chain)
      && (outcome.Scanned? || (outcome.Idle? && outcome.cursor == outcome.head) ==>
            Lineage(t'.store) && OnChain(head, Tip(t'.store)))
  {
    match Detect(t.store, head, cfg.scanDepth)
    case Err(_) =>
    case Ok(Some(a)) =>
      var tip := t.store.cursor.value.height;
      WalkBackBelow(t.store.canonical, head, tip, Floor(tip, cfg.scanDepth));
      ReorgAllowedIff(t.books, order);
      HandledConsistent(t.store, a);
      HandleTracked(t, cfg.chain, a, order, ReorgDeposits(t.books, order).value);
    case Ok(None) =>
      if t.store.cursor.None? {
        InitialiseKeeps(t, cfg, head);
      } else {
        NoReorgMeans(t.store, head, cfg.scanDepth);
        if t.store.cursor.value.height <= head.Height() {
          ScanKeeps(t, cfg, head, dir, prune);
        }
      }
  }

  /** On a tracked store whose tip the chain has, every deposit that is not reorged is on the chain. */
  lemma LiveDepositsOnChain(t: Tables, chain: ChainId, head: Block, d: DepositId)
    requires Lineage(t.store) && OnChain(head, Tip(t.store)) && Tracked(t, chain)
    requires d in t.books.deposits && d.chain == chain && !t.books.deposits[d].status.Reorged?
    ensures d in t.store.transfers && OnChain(head, t.store.transfers[d].block)
    ensures Carries(t.store.transfers[d].block, chain, d, t.books.deposits[d].amount)
  {
    assert RowTracked(t, chain, d);
    var h := t.store.transfers[d].block.Height();
    assert HeaderAt(Tip(t.store), h) == Some(t.store.canonical[h]);
    HeaderBelow(head, Tip(t.store).Height(), h);
  }
}
