/** Which transfers a scan records, and which deposits are live after it. */
module ScanLaws {
  import opened Prelude
  import opened Ledger
  import opened Books
  import opened BooksLaws
  import opened Blocks
  import opened Watcher
  import opened ForkLaws
  import opened WatcherLaws
  import opened ConvergenceLaws
  import opened Site
  import opened SiteLaws
  import Codec

  /** The tick ended with a scan. */
  predicate Scans(t: Tables, cfg: Config, head: Block, dir: Directory, order: seq<DepositId>, prune: bool) {
    var r := Tick(t, cfg, head, dir, order, prune);
    r.Ok? && r.value.1.Scanned?
  }

  /** The parts of a scan: the rows with the new headers, and those with the batch's transfers. */
  lemma ScanParts(t: Tables, cfg: Config, head: Block, dir: Directory, order: seq<DepositId>, prune: bool)
    returns (grown: Tables, filled: Tables)
    requires Consistent(t.store) && Scans(t, cfg, head, dir, order, prune)
    ensures Lineage(t.store) && OnChain(head, Tip(t.store))
    ensures grown.store.transfers == t.store.transfers && grown.books == t.books
    ensures var (t', o) := Tick(t, cfg, head, dir, order, prune).value;
      && o.from == t.store.cursor.value.height + 1 <= o.to <= head.Height()
      && PersistTransfers(grown, cfg.chain, dir, Logs(dir, Headers(head, o.from, o.to))) == Ok(filled)
      && t'.store.transfers == filled.store.transfers && t'.books == filled.books
      && t'.store.cursor == Some(Cursor(o.to, HeaderAt(head, o.to)))
  {
    NoReorgMeans(t.store, head, cfg.scanDepth);
    FollowingTickScans(t, cfg, head, dir, order, prune);
    var (from, to) := NextRange(t.store.cursor.value.height, head.Height(), cfg.batchSize).value;
    var headers := Headers(head, from, to);
    HeadersAre(head, from, to);
    assert HeaderAt(head, from + (to - from)) == Some(headers[to - from]);
    var m := Persist(t, cfg.chain, dir, headers).value;
    ScanShape(t, cfg, head, dir, prune, from, to, m);
    grown := t.(store := t.store.(canonical := PersistHeaders(t.store.canonical, headers).value));
    filled := PersistTransfers(grown, cfg.chain, dir, Logs(dir, headers)).value;
  }

  // ---------------------------------------------------------------------- rows of a batch ---

  /** A batch leaves the rows it finds as they are and adds live ones. */
  lemma {:induction false} BatchKeepsRows(t: Tables, chain: ChainId, dir: Directory, logs: seq<Log>, id: DepositId)
    requires PersistTransfers(t, chain, dir, logs).Ok?
    ensures var t' := PersistTransfers(t, chain, dir, logs).value;
      && (id in t.store.transfers ==> id in t'.store.transfers && t'.store.transfers[id] == t.store.transfers[id])
      && (id !in t.store.transfers && id in t'.store.transfers ==> !t'.store.transfers[id].orphaned)
  {
    if logs != [] {
      BatchKeepsRows(t, chain, dir, logs[..|logs| - 1], id);
    }
  }

  /** A transfer to record of the heights `from` to `to` has this id. */
  ghost predicate RecordsId(chain: ChainId, head: Block, dir: Directory, from: nat, to: nat, id: DepositId) {
    exists h, x {:trigger ToRecord(head, dir, h, x)} ::
      from <= h <= to && ToRecord(head, dir, h, x) && DepositId(chain, x.txHash, x.logIndex) == id
  }

  lemma AmongIffRecords(chain: ChainId, head: Block, dir: Directory, from: nat, to: nat, id: DepositId)
    requires from <= to <= head.Height()
    ensures Among(chain, dir, Logs(dir, Headers(head, from, to)), id) <==> RecordsId(chain, head, dir, from, to, id)
  {
    var logs := Logs(dir, Headers(head, from, to));
    if Among(chain, dir, logs, id) {
      var i :| 0 <= i < |logs| && Resolved(dir, logs[i].transfer) && IdOf(chain, logs[i].transfer) == id;
      LogHeight(dir, head, from, to, logs[i]);
      assert ToRecord(head, dir, logs[i].block.Height(), logs[i].transfer);
    }
    if RecordsId(chain, head, dir, from, to, id) {
      var h, x :| from <= h <= to && ToRecord(head, dir, h, x) && IdOf(chain, x) == id;
      RangeLog(dir, head, from, to, h, x);
      var i :| 0 <= i < |logs| && logs[i] == Log(HeaderAt(head, h).value, x);
    }
  }

  /**
   * After a scan exactly these transfers have rows: those that had one, and those of the scanned
   * blocks that are tracked, resolved and decodable.
   */
  lemma RowsAfterScan(
      t: Tables, cfg: Config, head: Block, dir: Directory, order: seq<DepositId>, prune: bool, id: DepositId)
    requires Consistent(t.store) && Scans(t, cfg, head, dir, order, prune)
    ensures var (t', o) := Tick(t, cfg, head, dir, order, prune).value;
      id in t'.store.transfers <==> id in t.store.transfers || RecordsId(cfg.chain, head, dir, o.from, o.to, id)
  {
    var grown, filled := ScanParts(t, cfg, head, dir, order, prune);
    var (t', o) := Tick(t, cfg, head, dir, order, prune).value;
    BatchRecords(grown, cfg.chain, dir, Logs(dir, Headers(head, o.from, o.to)), id);
    AmongIffRecords(cfg.chain, head, dir, o.from, o.to, id);
  }

  ghost predicate Carried(head: Block, h: nat, x: Transfer) {
    h <= head.Height() && x in HeaderAt(head, h).value.Logs()
  }

  /** A transaction hash and log index name one log of a chain. */
  ghost predicate DistinctLogs(chain: ChainId, head: Block) {
    forall g, x, h, y {:trigger Carried(head, g, x), Carried(head, h, y)} ::
      Carried(head, g, x) && Carried(head, h, y) && IdOf(chain, x) == IdOf(chain, y) ==> x == y
  }

  /**
   * A tracked and resolved transfer of a scanned block that was not recorded before gets its row
   * exactly when its amount is below 16^31. From there on the scan passes it: the cursor moves
   * beyond its block, and neither a row nor a deposit is made.
   */
  lemma RowExactlyWhenDecodable(
    t: Tables, cfg: Config, head: Block, dir: Directory, order: seq<DepositId>, prune: bool, h: nat, x: Transfer)
    requires Consistent(t.store) && Scans(t, cfg, head, dir, order, prune) && DistinctLogs(cfg.chain, head)
    requires var o := Tick(t, cfg, head, dir, order, prune).value.1; o.from <= h <= o.to
    requires Carried(head, h, x) && Addressed(dir, x) && Resolved(dir, x) && IdOf(cfg.chain, x) !in t.store.transfers
    ensures var (t', o) := Tick(t, cfg, head, dir, order, prune).value;
      && (IdOf(cfg.chain, x) in t'.store.transfers <==> Codec.Decodable(x.amount))
      && t'.store.cursor.Some? && t'.store.cursor.value.height >= h
      && (!Codec.Decodable(x.amount) && Tracked(t, cfg.chain) ==> IdOf(cfg.chain, x) !in t'.books.deposits)
  {
    var id := IdOf(cfg.chain, x);
    var grown, filled := ScanParts(t, cfg, head, dir, order, prune);
    var (t', o) := Tick(t, cfg, head, dir, order, prune).value;
    RowsAfterScan(t, cfg, head, dir, order, prune, id);
    if Codec.Decodable(x.amount) {
      assert ToRecord(head, dir, h, x);
    } else if RecordsId(cfg.chain, head, dir, o.from, o.to, id) {
      var g, y :| o.from <= g <= o.to && ToRecord(head, dir, g, y) && IdOf(cfg.chain, y) == id;
      assert Carried(head, g, y);
      assert false;
    }
    if Tracked(t, cfg.chain) {
      FollowingTickScans(t, cfg, head, dir, order, prune);
      ScanKeeps(t, cfg, head, dir, prune);
      assert id in t'.books.deposits ==> id in t'.store.transfers;
    }
  }

  /**
   * Re-observation. After a scan of a block that carries a transfer to record, its deposit is live
   * exactly when, before the scan, the transfer had no row or a row that was not orphaned. So a
   * transfer that survives a reorg in another block is live again only if it was never recorded.
   */
  lemma LiveAfterScanIff(
    t: Tables, cfg: Config, head: Block, dir: Directory, order: seq<DepositId>, prune: bool, h: nat, x: Transfer)
    requires Consistent(t.store) && Tracked(t, cfg.chain) && Scans(t, cfg, head, dir, order, prune)
    requires var o := Tick(t, cfg, head, dir, order, prune).value.1; o.from <= h <= o.to && ToRecord(head, dir, h, x)
    ensures var t', id := Tick(t, cfg, head, dir, order, prune).value.0, IdOf(cfg.chain, x);
      && id in t'.books.deposits
      && (!t'.books.deposits[id].status.Reorged? <==> id !in t.store.transfers || !t.store.transfers[id].orphaned)
  {
    var id := IdOf(cfg.chain, x);
    var grown, filled := ScanParts(t, cfg, head, dir, order, prune);
    var (t', o) := Tick(t, cfg, head, dir, order, prune).value;
    RowsAfterScan(t, cfg, head, dir, order, prune, id);
    BatchKeepsRows(grown, cfg.chain, dir, Logs(dir, Headers(head, o.from, o.to)), id);
    FollowingTickScans(t, cfg, head, dir, order, prune);
    ScanKeeps(t, cfg, head, dir, prune);
    assert RowTracked(t', cfg.chain, id);
  }

  // ---------------------------------------------------------------- completeness over runs ---

  ghost predicate StoredLog(canonical: map<nat, Block>, h: nat, x: Transfer) {
    h in canonical && x in canonical[h].Logs()
  }

  /** Every transfer to record of a canonical block above the first has its row. */
  ghost predicate Complete(s: Store, chain: ChainId, dir: Directory, first: nat) {
    forall h, x {:trigger StoredLog(s.canonical, h, x)} ::
      h > first && StoredLog(s.canonical, h, x) && Visible(dir, x) && Resolved(dir, x) ==> IdOf(chain, x) in s.transfers
  }

  lemma FewerRowsComplete(s: Store, s': Store, chain: ChainId, dir: Directory, first: nat)
    requires Complete(s, chain, dir, first)
    requires forall h :: h in s'.canonical ==> h in s.canonical && s'.canonical[h] == s.canonical[h]
    requires s.transfers.Keys <= s'.transfers.Keys
    ensures Complete(s', chain, dir, first)
  {
    forall h, x {:trigger StoredLog(s'.canonical, h, x)} |
      h > first && StoredLog(s'.canonical, h, x) && Visible(dir, x) && Resolved(dir, x)
      ensures IdOf(chain, x) in s'.transfers
    {
      assert StoredLog(s.canonical, h, x);
      assert IdOf(chain, x) in s.transfers.Keys;
    }
  }

  lemma ScannedComplete(
      t: Tables, chain: ChainId, dir: Directory, head: Block, from: nat, to: nat, m: Tables, first: nat)
    requires Tracked(t, chain) && Complete(t.store, chain, dir, first)
    requires from <= to <= head.Height() && (forall h :: h in t.store.canonical ==> h < from)
    requires Persist(t, chain, dir, Headers(head, from, to)) == Ok(m)
    ensures Complete(m.store, chain, dir, first)
  {
    var headers := Headers(head, from, to);
    HeadersAre(head, from, to);
    PersistEffect(t, chain, dir, head, from, to, m);
    var grown := t.(store := t.store.(canonical := PersistHeaders(t.store.canonical, headers).value));
    forall h, x {:trigger StoredLog(m.store.canonical, h, x)} |
      h > first && StoredLog(m.store.canonical, h, x) && Visible(dir, x) && Resolved(dir, x)
      ensures IdOf(chain, x) in m.store.transfers
    {
      if h < from {
        assert StoredLog(t.store.canonical, h, x);
        BatchRecords(grown, chain, dir, Logs(dir, headers), IdOf(chain, x));
      } else {
        assert ToRecord(head, dir, h, x);
        RangeRecorded(grown, chain, dir, head, from, to, h, x);
      }
    }
  }

  lemma ScanComplete(t: Tables, cfg: Config, head: Block, dir: Directory, prune: bool, first: nat)
    requires Lineage(t.store) && Tracked(t, cfg.chain) && OnChain(head, Tip(t.store))
    requires Complete(t.store, cfg.chain, dir, first)
    requires Scan(t, cfg, head, dir, prune).Ok?
    ensures Complete(Scan(t, cfg, head, dir, prune).value.0.store, cfg.chain, dir, first)
  {
    match NextRange(t.store.cursor.value.height, head.Height(), cfg.batchSize)
    case None =>
    case Some((from, to)) =>
      var m := Persist(t, cfg.chain, dir, Headers(head, from, to)).value;
      ScannedComplete(t, cfg.chain, dir, head, from, to, m, first);
      FewerRowsComplete(m.store, Scan(t, cfg, head, dir, prune).value.0.store, cfg.chain, dir, first);
  }

  lemma InitialComplete(s: Store, cfg: Config, head: Block, dir: Directory)
    requires NotStarted(s) && Initialise(s, cfg, head).Ok?
    ensures Complete(Initialise(s, cfg, head).value, cfg.chain, dir, InitialHeight(cfg, head))
  {}

  lemma TickComplete(cfg: Config, s: Site, head: Block, dir: Directory, order: seq<DepositId>, prune: bool)
    requires Consistent(s.store) && Tracked(TablesOf(s), cfg.chain) && Complete(s.store, cfg.chain, dir, s.first)
    requires Tick(TablesOf(s), cfg, head, dir, order, prune).Ok?
    ensures var (t, outcome) := Tick(TablesOf(s), cfg, head, dir, order, prune).value;
      var s' := AfterTick(s, t, outcome); Complete(s'.store, cfg.chain, dir, s'.first)
  {
    match Detect(s.store, head, cfg.scanDepth)
    case Err(_) =>
    case Ok(Some(a)) => FewerRowsComplete(s.store, RollBack(s.store, a), cfg.chain, dir, s.first);
    case Ok(None) =>
      if s.store.cursor.None? {
        InitialComplete(s.store, cfg, head, dir);
      } else if s.store.cursor.value.height <= head.Height() {
        NoReorgMeans(s.store, head, cfg.scanDepth);
        ScanComplete(TablesOf(s), cfg, head, dir, prune, s.first);
      }
  }

  ghost predicate OneDirectory(events: seq<Event>, dir: Directory) {
    forall i :: 0 <= i < |events| && events[i].Ticks? ==> events[i].dir == dir
  }

  lemma EventComplete(cfg: Config, s: Site, e: Event, dir: Directory)
    requires Watched(cfg, s) && Complete(s.store, cfg.chain, dir, s.first) && (e.Ticks? ==> e.dir == dir)
    ensures var s' := NextSite(cfg, s, e); Complete(s'.store, cfg.chain, dir, s'.first)
  {
    match e
    case Money(_) =>
    case Confirms(height, claimed) =>
      var actions := PassIsARun(s.world, s.store, cfg.required, height, claimed, cfg.chain);
    case Ticks(head, _, order, prune) =>
      if Tick(TablesOf(s), cfg, head, dir, order, prune).Ok? {
        TickComplete(cfg, s, head, dir, order, prune);
      }
  }

  /**
   * Nothing is missed, over every run with one directory: in every reachable state each tracked,
   * resolved and decodable transfer of a canonical block above the first one has its row.
   */
  lemma {:induction false} AlwaysComplete(cfg: Config, events: seq<Event>, dir: Directory)
    requires OneDirectory(events, dir)
    ensures var s := SiteAfter(cfg, events); Complete(s.store, cfg.chain, dir, s.first)
  {
    if events != [] {
      var front := events[..|events| - 1];
      AlwaysComplete(cfg, front, dir);
      AlwaysWatched(cfg, front);
      EventComplete(cfg, SiteAfter(cfg, front), events[|events| - 1], dir);
    }
  }

  // -------------------------------------------------------------- directories that change ---

  /** The tick at `i` scanned a block with such a transfer, tracked and resolved by the directory it had. */
  ghost predicate RecordedAt(cfg: Config, events: seq<Event>, id: DepositId, i: int) {
    && 0 <= i < |events| && events[i].Ticks?
    && var e, t := events[i], TablesOf(SiteAfter(cfg, events[..i]));
       && Scans(t, cfg, e.head, e.dir, e.order, e.prune)
       && var o := Tick(t, cfg, e.head, e.dir, e.order, e.prune).value.1;
          RecordsId(cfg.chain, e.head, e.dir, o.from, o.to, id)
  }

  lemma RecordedInFront(cfg: Config, events: seq<Event>, id: DepositId, i: int)
    requires 0 <= i < |events| - 1
    ensures RecordedAt(cfg, events, id, i) <==> RecordedAt(cfg, events[..|events| - 1], id, i)
  {
    assert events[..|events| - 1][..i] == events[..i];
  }

  /** A scan whatever the order of abandoned deposits: there are none. */
  lemma ScanFitsAnyOrder(t: Tables, cfg: Config, e: Event)
    requires e.Ticks? && Scans(t, cfg, e.head, e.dir, e.order, e.prune)
    ensures OrderMatches(t, cfg, e.head, e.order)
  {}

  lemma EventRows(cfg: Config, s: Site, e: Event, id: DepositId)
    requires Consistent(s.store)
    ensures id in NextSite(cfg, s, e).store.transfers <==>
      || id in s.store.transfers
      || (e.Ticks? && Scans(TablesOf(s), cfg, e.head, e.dir, e.order, e.prune)
          && var o := Tick(TablesOf(s), cfg, e.head, e.dir, e.order, e.prune).value.1;
             RecordsId(cfg.chain, e.head, e.dir, o.from, o.to, id))
  {
    match e
    case Money(_) =>
    case Confirms(height, claimed) =>
      var actions := PassIsARun(s.world, s.store, cfg.required, height, claimed, cfg.chain);
    case Ticks(head, dir, order, prune) =>
      if Scans(TablesOf(s), cfg, head, dir, order, prune) {
        ScanFitsAnyOrder(TablesOf(s), cfg, e);
        RowsAfterScan(TablesOf(s), cfg, head, dir, order, prune, id);
      } else {
        OtherTickRows(TablesOf(s), cfg, head, dir, order, prune);
      }
  }

  lemma OtherTickRows(t: Tables, cfg: Config, head: Block, dir: Directory, order: seq<DepositId>, prune: bool)
    requires !Scans(t, cfg, head, dir, order, prune)
    ensures var r := Tick(t, cfg, head, dir, order, prune);
      r.Ok? ==> r.value.0.store.transfers.Keys == t.store.transfers.Keys
  {}

  /** The last event adds the row, or it was there before. */
  lemma LastRecorded(cfg: Config, events: seq<Event>, id: DepositId)
    requires events != []
    ensures id in SiteAfter(cfg, events).store.transfers <==>
      || id in SiteAfter(cfg, events[..|events| - 1]).store.transfers
      || RecordedAt(cfg, events, id, |events| - 1)
  {
    var front := events[..|events| - 1];
    AlwaysWatched(cfg, front);
    EventRows(cfg, SiteAfter(cfg, front), events[|events| - 1], id);
  }

  ghost predicate EverRecorded(cfg: Config, events: seq<Event>, id: DepositId) {
    exists i :: RecordedAt(cfg, events, id, i)
  }

  lemma EverInFront(cfg: Config, events: seq<Event>, id: DepositId)
    requires events != [] && EverRecorded(cfg, events[..|events| - 1], id)
    ensures EverRecorded(cfg, events, id)
  {
    var front := events[..|events| - 1];
    var i :| RecordedAt(cfg, front, id, i);
    RecordedInFront(cfg, events, id, i);
  }

  lemma EverOrLast(cfg: Config, events: seq<Event>, id: DepositId, i: int)
    requires events != [] && RecordedAt(cfg, events, id, i)
    ensures i == |events| - 1 || RecordedAt(cfg, events[..|events| - 1], id, i)
  {
    if i < |events| - 1 {
      RecordedInFront(cfg, events, id, i);
    }
  }

  /**
   * Over every run, with a directory that may change from tick to tick: a transfer has a row exactly
   * when some tick scanned a block that carries it while its address was tracked, its contract and
   * owner known, and its amount decodable. A refresh after that scan comes too late.
   */
  lemma {:induction false} RowIffTrackedWhenScanned(cfg: Config, events: seq<Event>, id: DepositId)
    ensures id in SiteAfter(cfg, events).store.transfers <==> EverRecorded(cfg, events, id)
  {
    if events != [] {
      RowIffTrackedWhenScanned(cfg, events[..|events| - 1], id);
      LastRecorded(cfg, events, id);
      if i :| RecordedAt(cfg, events, id, i) {
        EverOrLast(cfg, events, id, i);
      } else if EverRecorded(cfg, events[..|events| - 1], id) {
        EverInFront(cfg, events, id);
      }
    }
  }
}
