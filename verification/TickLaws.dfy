/** Exactly what one tick of the watcher leaves: what a scan stores and prunes, and what a reorg takes back. */
module TickLaws {
  import opened Prelude
  import opened Ledger
  import opened Books
  import opened BooksLaws
  import opened RefusalLaws
  import opened Pipeline
  import opened Blocks
  import opened Watcher
  import opened ForkLaws
  import opened WatcherLaws
  import opened ConvergenceLaws
  import opened ScanLaws
  import opened Site
  import opened SiteLaws
  import opened ConfirmLaws

  // ------------------------------------------------------------------------------- scans ---

  ghost predicate RefersTo(transfers: map<DepositId, TransferRow>, b: Block) {
    exists d :: d in transfers && transfers[d].block == b
  }

  /** Far below the scanned range, where pruning deletes. */
  predicate InPruneRange(cfg: Config, to: nat, h: nat) { h + 4 * cfg.scanDepth < to }

  /** The scanned range: from just above the cursor, a batch long, and never beyond the head. */
  lemma ScannedRange(t: Tables, cfg: Config, head: Block, dir: Directory, order: seq<DepositId>, prune: bool)
    requires Consistent(t.store) && Scans(t, cfg, head, dir, order, prune)
    ensures var cursor, o := t.store.cursor.value.height, Tick(t, cfg, head, dir, order, prune).value.1;
      && o.from == cursor + 1 && o.head == head.Height() && cursor < o.to <= head.Height()
      && (o.to == head.Height() || o.to - cursor == if cfg.batchSize > 1 then cfg.batchSize else 1)
      && o.to - cursor <= (if cfg.batchSize > 1 then cfg.batchSize else 1)
  {
    NoReorgMeans(t.store, head, cfg.scanDepth);
    FollowingTickScans(t, cfg, head, dir, order, prune);
  }

  /**
   * After a scan a block is stored exactly when it was before or is one of the scanned ones, and, if
   * pruning ran, is not four windows below the scanned range or is named by some transfer.
   */
  lemma ScanStoresExactly(
      t: Tables, cfg: Config, head: Block, dir: Directory, order: seq<DepositId>, prune: bool, h: nat)
    requires Consistent(t.store) && Tracked(t, cfg.chain) && Scans(t, cfg, head, dir, order, prune)
    ensures var (t', o) := Tick(t, cfg, head, dir, order, prune).value;
      && (h in t.store.canonical ==> h < o.from)
      && (h in t'.store.canonical <==>
            && (h in t.store.canonical || o.from <= h <= o.to)
            && (prune && InPruneRange(cfg, o.to, h) ==> RefersTo(t'.store.transfers, StoredAt(t.store, head, h))))
      && (h in t'.store.canonical ==> t'.store.canonical[h] == StoredAt(t.store, head, h))
  {
    NoReorgMeans(t.store, head, cfg.scanDepth);
    FollowingTickScans(t, cfg, head, dir, order, prune);
    var (from, to) := NextRange(t.store.cursor.value.height, head.Height(), cfg.batchSize).value;
    var m := Persist(t, cfg.chain, dir, Headers(head, from, to)).value;
    PersistEffect(t, cfg.chain, dir, head, from, to, m);
    PrunedExactly(m.store, if to > 4 * cfg.scanDepth then to - 4 * cfg.scanDepth else 0, h);
  }

  /** The block stored at a height, or the chain's. */
  function StoredAt(s: Store, head: Block, h: nat): Block {
    if h in s.canonical then s.canonical[h] else if h <= head.Height() then HeaderAt(head, h).value else head
  }

  lemma PrunedExactly(s: Store, below: nat, h: nat)
    ensures var s' := Prune(s, below);
      && (h in s'.canonical <==> h in s.canonical && (h < below ==> RefersTo(s.transfers, s.canonical[h])))
      && (h in s'.canonical ==> s'.canonical[h] == s.canonical[h])
      && s'.cursor == s.cursor && s'.transfers == s.transfers
  {}

  // ----------------------------------------------------------------------- starting and idling ---

  /**
   * A cold start stores one block, the chain's at that height or the head where it has none yet, and
   * touches no money.
   */
  lemma ColdStartLeaves(t: Tables, cfg: Config, head: Block, dir: Directory, order: seq<DepositId>, prune: bool)
    requires NotStarted(t.store)
    ensures var at := InitialHeight(cfg, head);
      var b := if at <= head.Height() then HeaderAt(head, at).value else head;
      Tick(t, cfg, head, dir, order, prune)
      == Ok((t.(store := Store(map[at := b], Some(Cursor(at, Some(b))), map[])), Initialised(at)))
  {}

  /** On a lineage the chain has, or one it is behind, a tick with nothing to scan changes nothing. */
  lemma IdleLeaves(t: Tables, cfg: Config, head: Block, dir: Directory, order: seq<DepositId>, prune: bool)
    requires Lineage(t.store) && t.store.cursor.value.height >= head.Height()
    requires t.store.cursor.value.height == head.Height() ==> head == Tip(t.store)
    ensures Tick(t, cfg, head, dir, order, prune) == Ok((t, Outcome.Idle(head.Height(), t.store.cursor.value.height)))
  {}

  // ------------------------------------------------------------------------------ reorgs ---

  /** Everything the walk went past is stored and not on the chain. */
  lemma {:induction false} WalkedPast(canonical: map<nat, Block>, head: Block, height: nat, floor: nat, h: nat)
    requires WalkBack(canonical, head, height, floor).Ok? && WalkBack(canonical, head, height, floor).value.Some?
    requires WalkBack(canonical, head, height, floor).value.value < h < height
    ensures h in canonical && HeaderAt(head, h) != Some(canonical[h])
  {
    if h < height - 1 {
      WalkedPast(canonical, head, height - 1, floor, h);
    }
  }

  /** A reorg takes back only rows of blocks the chain does not have. */
  lemma AbandonedOffChain(t: Tables, chain: ChainId, head: Block, depth: nat, a: nat, d: DepositId)
    requires Consistent(t.store) && Tracked(t, chain) && Detect(t.store, head, depth) == Ok(Some(a))
    requires d in Abandoned(t.store, a)
    ensures !OnChain(head, t.store.transfers[d].block) && t.store.transfers[d].block.Height() > a
  {
    var tip, b := t.store.cursor.value.height, t.store.transfers[d].block;
    var h :| h in t.store.canonical && h > a && t.store.canonical[h] == b;
    assert RowTracked(t, chain, d) && StillCanonical(t.store, d);
    StoredBelowCursor(t.store, h);
    assert b.Height() == h;
    if h < tip {
      WalkedPast(t.store.canonical, head, tip, Floor(tip, depth), h);
    }
  }

  lemma StoredBelowCursor(s: Store, h: nat)
    requires Consistent(s) && s.cursor.Some? && h in s.canonical
    ensures h <= s.cursor.value.height
    ensures !Misplaced(s) ==> s.canonical[h].Height() == h
  {
    if Adrift(s) {
      var x :| OneChain(s.canonical, x);
    }
  }

  /** Stored exactly up to the ancestor, with the cursor on it, or on no block if none is stored there. */
  ghost predicate StoredUpTo(s: Store, ancestor: nat, s': Store) {
    && (forall h :: h in s'.canonical <==> h in s.canonical && h <= ancestor)
    && (forall h :: h in s'.canonical ==> s'.canonical[h] == s.canonical[h])
    && s'.cursor == Some(Cursor(ancestor, if ancestor in s.canonical then Some(s.canonical[ancestor]) else None))
  }

  /**
   * Orphaned are the rows that were, and the live ones above the ancestor; their deposits are reorged,
   * others untouched.
   */
  ghost predicate TakenBackAbove(t: Tables, ancestor: nat, t': Tables, d: DepositId) {
    && (d in t'.store.transfers <==> d in t.store.transfers) && (d in t'.books.deposits <==> d in t.books.deposits)
    && (d in t.store.transfers ==>
          var row := t.store.transfers[d];
          t'.store.transfers[d] == TransferRow(row.block, row.orphaned || row.block.Height() > ancestor))
    && (d in t.books.deposits ==>
          var gone := d in t.store.transfers && t'.store.transfers[d].orphaned;
          var status := if gone then DepositStatus.Reorged else t.books.deposits[d].status;
          t'.books.deposits[d] == t.books.deposits[d].(status := status))
  }

  /**
   * What a reorg tick leaves: the rows up to the ancestor and the cursor on it; orphaned exactly the
   * live rows above it, whose deposits are reorged; every other row and deposit as it was.
   */
  lemma ReorgLeavesExactly(
      t: Tables, cfg: Config, head: Block, dir: Directory, order: seq<DepositId>, prune: bool, d: DepositId)
    requires Consistent(t.store) && Tracked(t, cfg.chain) && Inv(t.books) && OrderFits(t, cfg, head, order)
    requires var r := Tick(t, cfg, head, dir, order, prune); r.Ok? && r.value.1.Reorged?
    ensures var (t', o) := Tick(t, cfg, head, dir, order, prune).value;
      StoredUpTo(t.store, o.ancestor, t'.store) && TakenBackAbove(t, o.ancestor, t', d)
  {
    var a := Tick(t, cfg, head, dir, order, prune).value.1.ancestor;
    ReorgAllowedIff(t.books, order);
    AbandonedIff(t, cfg.chain, head, cfg.scanDepth, a, d);
    HandledAbove(t, a, order, ReorgDeposits(t.books, order).value, d);
  }

  lemma AbandonedIff(t: Tables, chain: ChainId, head: Block, depth: nat, a: nat, d: DepositId)
    requires Consistent(t.store) && Tracked(t, chain) && Detect(t.store, head, depth) == Ok(Some(a))
    ensures d in Abandoned(t.store, a) <==>
      d in t.store.transfers && !t.store.transfers[d].orphaned && t.store.transfers[d].block.Height() > a
    ensures d in t.store.transfers && t.store.transfers[d].orphaned ==>
      d in t.books.deposits && t.books.deposits[d].status.Reorged?
  {
    if d in t.store.transfers {
      assert RowTracked(t, chain, d);
      if !t.store.transfers[d].orphaned {
        OrphanedOrKept(t.store, a, d);
        if d in Abandoned(t.store, a) {
          AbandonedOffChain(t, chain, head, depth, a, d);
        }
      }
    }
  }

  lemma HandledAbove(t: Tables, a: nat, order: seq<DepositId>, b: Books, d: DepositId)
    requires Enumerates(order, Abandoned(t.store, a)) && Reorganised(t.books, order, b)
    requires d in Abandoned(t.store, a) <==>
      d in t.store.transfers && !t.store.transfers[d].orphaned && t.store.transfers[d].block.Height() > a
    requires d in t.store.transfers && t.store.transfers[d].orphaned ==>
      d in t.books.deposits && t.books.deposits[d].status.Reorged?
    ensures StoredUpTo(t.store, a, RollBack(t.store, a)) && TakenBackAbove(t, a, Tables(RollBack(t.store, a), b), d)
  {
    assert d in order <==> d in (set x | x in order);
  }

  /**
   * On a lineage whose fork with the chain is in the stored window, a reorg tick reorgs exactly the
   * live deposits whose block is not on the chain: none too few, and none too many.
   */
  lemma ReorgedIffOffChain(
      t: Tables, cfg: Config, head: Block, dir: Directory, order: seq<DepositId>, prune: bool, f: nat, d: DepositId)
    requires Lineage(t.store) && Tracked(t, cfg.chain) && Inv(t.books) && OrderFits(t, cfg, head, order)
    requires var r := Tick(t, cfg, head, dir, order, prune); r.Ok? && r.value.1 == Outcome.Reorged(f)
    requires IsFork(Tip(t.store), head, f) && d in t.store.transfers && !t.store.transfers[d].orphaned
    ensures var t' := Tick(t, cfg, head, dir, order, prune).value.0;
      && d in t'.books.deposits
      && (t'.books.deposits[d].status.Reorged? <==> !OnChain(head, t.store.transfers[d].block))
  {
    ReorgLeavesExactly(t, cfg, head, dir, order, prune, d);
    assert RowTracked(t, cfg.chain, d);
    var b := t.store.transfers[d].block;
    ForkSplitsTheStore(t.store, head, f, b.Height());
  }

  // --------------------------------------------------------------------------- over runs ---

  predicate IsReorged(b: Books, d: DepositId) { d in b.deposits && b.deposits[d].status.Reorged? }

  /** The tick at `i` was a reorg on a chain that does not have the deposit's block. */
  ghost predicate OrphanedAt(cfg: Config, events: seq<Event>, d: DepositId, i: int) {
    && 0 <= i < |events| && events[i].Ticks?
    && var s, e := SiteAfter(cfg, events[..i]), events[i];
       && d in s.store.transfers && !OnChain(e.head, s.store.transfers[d].block)
       && var r := Tick(TablesOf(s), cfg, e.head, e.dir, e.order, e.prune); r.Ok? && r.value.1.Reorged?
  }

  lemma ForeignNeverReorgs(s: World, action: Action, d: DepositId)
    requires Inv(s.books) && Foreign(d.chain, action) && !IsReorged(s.books, d)
    ensures !IsReorged(Next(s, action).books, d)
  {
    match action
    case DoObserve(_, _, _, _) =>
    case DoConfirm(_, _) =>
    case DoCredit(x) => CreditNeverReorgs(s.books, x, d);
    case DoReorg(ds) => ReorgAllowedIff(s.books, ds);
    case _ => WorkerDeposits(s, action);
  }

  lemma CreditNeverReorgs(b: Books, x: DepositId, d: DepositId)
    requires !IsReorged(b, d)
    ensures CreditConfirmed(b, x).Ok? ==> !IsReorged(CreditConfirmed(b, x).value, d)
  {}

  lemma {:induction false} BatchNeverReorgs(t: Tables, chain: ChainId, dir: Directory, logs: seq<Log>, d: DepositId)
    requires PersistTransfers(t, chain, dir, logs).Ok? && !IsReorged(t.books, d)
    ensures !IsReorged(PersistTransfers(t, chain, dir, logs).value.books, d)
  {
    if logs != [] {
      BatchNeverReorgs(t, chain, dir, logs[..|logs| - 1], d);
    }
  }

  lemma ScanNeverReorgs(
      t: Tables, cfg: Config, head: Block, dir: Directory, order: seq<DepositId>, prune: bool, d: DepositId)
    requires Consistent(t.store) && Scans(t, cfg, head, dir, order, prune) && !IsReorged(t.books, d)
    ensures !IsReorged(Tick(t, cfg, head, dir, order, prune).value.0.books, d)
  {
    var grown, filled := ScanParts(t, cfg, head, dir, order, prune);
    var o := Tick(t, cfg, head, dir, order, prune).value.1;
    BatchNeverReorgs(grown, cfg.chain, dir, Logs(dir, Headers(head, o.from, o.to)), d);
  }

  /** The books of a tick that neither scanned nor handled a reorg are the old ones. */
  lemma OtherTickBooks(t: Tables, cfg: Config, head: Block, dir: Directory, order: seq<DepositId>, prune: bool)
    requires Tick(t, cfg, head, dir, order, prune).Ok?
    ensures var (t', o) := Tick(t, cfg, head, dir, order, prune).value;
      && (!o.Scanned? && !o.Reorged? ==> t'.books == t.books)
      && (o.Reorged? ==>
            Detect(t.store, head, cfg.scanDepth) == Ok(Some(o.ancestor))
              && ReorgDeposits(t.books, order) == Ok(t'.books))
  {}

  /** Only a reorg tick reorgs a deposit, and only one in a block the chain does not have. */
  lemma TickReorgsOffChain(
      t: Tables, cfg: Config, head: Block, dir: Directory, order: seq<DepositId>, prune: bool, d: DepositId)
    requires Consistent(t.store) && Tracked(t, cfg.chain) && Inv(t.books) && OrderFits(t, cfg, head, order)
    requires d.chain == cfg.chain && Tick(t, cfg, head, dir, order, prune).Ok? && !IsReorged(t.books, d)
    ensures var (t', o) := Tick(t, cfg, head, dir, order, prune).value;
      IsReorged(t'.books, d) ==> o.Reorged? && d in t.store.transfers && !OnChain(head, t.store.transfers[d].block)
  {
    var (t', o) := Tick(t, cfg, head, dir, order, prune).value;
    OtherTickBooks(t, cfg, head, dir, order, prune);
    if o.Scanned? {
      ScanNeverReorgs(t, cfg, head, dir, order, prune, d);
    } else if o.Reorged? && IsReorged(t'.books, d) {
      ReorgAllowedIff(t.books, order);
      HandledOffChain(t, cfg.chain, head, cfg.scanDepth, o.ancestor, order, t'.books, d);
    }
  }

  lemma HandledOffChain(
      t: Tables, chain: ChainId, head: Block, depth: nat, a: nat, order: seq<DepositId>, b: Books, d: DepositId)
    requires Consistent(t.store) && Tracked(t, chain) && Detect(t.store, head, depth) == Ok(Some(a))
    requires Enumerates(order, Abandoned(t.store, a)) && Reorganised(t.books, order, b)
    requires !IsReorged(t.books, d) && IsReorged(b, d)
    ensures d in t.store.transfers && !OnChain(head, t.store.transfers[d].block)
  {
    assert d in order <==> d in (set x | x in order);
    AbandonedOffChain(t, chain, head, depth, a, d);
  }

  lemma EventReorgsOffChain(cfg: Config, s: Site, e: Event, d: DepositId)
    requires Watched(cfg, s) && d.chain == cfg.chain
    requires !IsReorged(s.world.books, d) && IsReorged(NextSite(cfg, s, e).world.books, d)
    ensures e.Ticks? && d in s.store.transfers && !OnChain(e.head, s.store.transfers[d].block)
    ensures var r := Tick(TablesOf(s), cfg, e.head, e.dir, e.order, e.prune); r.Ok? && r.value.1.Reorged?
  {
    match e
    case Money(action) => if Foreign(cfg.chain, action) { ForeignNeverReorgs(s.world, action, d); }
    case Ticks(head, dir, order, prune) =>
      if OrderMatches(TablesOf(s), cfg, head, order) && Tick(TablesOf(s), cfg, head, dir, order, prune).Ok? {
        TickReorgsOffChain(TablesOf(s), cfg, head, dir, order, prune, d);
      }
    case Confirms(height, claimed) =>
      PassKeepsStore(TablesOf(s), cfg.required, height, claimed);
      if d in s.world.books.deposits {
        PassConfirmsExactly(TablesOf(s), cfg.required, height, claimed, d);
      }
  }

  lemma OrphanedInFront(cfg: Config, events: seq<Event>, d: DepositId, i: int)
    requires events != [] && OrphanedAt(cfg, events[..|events| - 1], d, i)
    ensures OrphanedAt(cfg, events, d, i) && events[..|events| - 1][..i] == events[..i]
  {
    assert events[..|events| - 1][..i] == events[..i];
  }

  lemma OrphanedNow(cfg: Config, events: seq<Event>, d: DepositId)
    requires events != [] && d.chain == cfg.chain && Watched(cfg, SiteAfter(cfg, events[..|events| - 1]))
    requires !IsReorged(SiteAfter(cfg, events[..|events| - 1]).world.books, d)
    requires IsReorged(SiteAfter(cfg, events).world.books, d)
    ensures OrphanedAt(cfg, events, d, |events| - 1)
  {
    EventReorgsOffChain(cfg, SiteAfter(cfg, events[..|events| - 1]), events[|events| - 1], d);
  }

  lemma {:induction false} OrphanedOnce(cfg: Config, events: seq<Event>, d: DepositId) returns (i: int)
    requires d.chain == cfg.chain && IsReorged(SiteAfter(cfg, events).world.books, d)
    ensures OrphanedAt(cfg, events, d, i)
  {
    var front, n := events[..|events| - 1], |events| - 1;
    AlwaysWatched(cfg, front);
    if IsReorged(SiteAfter(cfg, front).world.books, d) {
      i := OrphanedOnce(cfg, front, d);
      OrphanedInFront(cfg, events, d, i);
    } else {
      OrphanedNow(cfg, events, d);
      i := n;
    }
  }

  /** A row keeps the block it was recorded with. */
  lemma {:induction false} RowKeepsBlock(cfg: Config, events: seq<Event>, i: nat, d: DepositId)
    requires i <= |events| && d in SiteAfter(cfg, events[..i]).store.transfers
    ensures d in SiteAfter(cfg, events).store.transfers
    ensures SiteAfter(cfg, events).store.transfers[d].block == SiteAfter(cfg, events[..i]).store.transfers[d].block
  {
    if i == |events| {
      assert events[..i] == events;
    } else {
      var front := events[..|events| - 1];
      assert front[..i] == events[..i];
      RowKeepsBlock(cfg, front, i, d);
      AlwaysWatched(cfg, front);
      EventKeepsBlock(cfg, SiteAfter(cfg, front), events[|events| - 1], d);
    }
  }

  /**
   * In every reachable state each reorged deposit of the chain was reorged by a tick that saw a chain
   * without its block. No deposit loses its credit while its block stands.
   */
  lemma ReorgedOnlyOffChain(cfg: Config, events: seq<Event>, d: DepositId) returns (i: int)
    requires d.chain == cfg.chain && IsReorged(SiteAfter(cfg, events).world.books, d)
    ensures OrphanedAt(cfg, events, d, i)
    ensures d in SiteAfter(cfg, events).store.transfers
    ensures SiteAfter(cfg, events).store.transfers[d].block == SiteAfter(cfg, events[..i]).store.transfers[d].block
  {
    i := OrphanedOnce(cfg, events, d);
    RowKeepsBlock(cfg, events, i, d);
  }
}
