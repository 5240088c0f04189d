/** With the chain standing still, the watcher reaches its head, visits each height once and records every transfer. */
module ConvergenceLaws {
  import opened Prelude
  import opened Ledger
  import opened Books
  import opened BooksLaws
  import opened RefusalLaws
  import opened Blocks
  import opened Watcher
  import opened ForkLaws
  import opened WatcherLaws
  import Codec

  // ------------------------------------------------------- when a batch is refused ---

  /** The first log of an unrecorded transfer is a zero-value one, which the schema refuses. */
  ghost predicate RefusedAt(t: Tables, chain: ChainId, dir: Directory, logs: seq<Log>, i: int) {
    && 0 <= i < |logs| && Resolved(dir, logs[i].transfer) && logs[i].transfer.amount == 0
    && IdOf(chain, logs[i].transfer) !in t.store.transfers
    && forall j :: 0 <= j < i && Resolved(dir, logs[j].transfer) ==>
         IdOf(chain, logs[j].transfer) != IdOf(chain, logs[i].transfer)
  }

  ghost predicate Among(chain: ChainId, dir: Directory, logs: seq<Log>, id: DepositId) {
    exists i :: 0 <= i < |logs| && Resolved(dir, logs[i].transfer) && IdOf(chain, logs[i].transfer) == id
  }

  lemma AmongFront(chain: ChainId, dir: Directory, logs: seq<Log>, id: DepositId)
    requires logs != []
    ensures Among(chain, dir, logs, id) <==>
      || Among(chain, dir, logs[..|logs| - 1], id)
      || (Resolved(dir, logs[|logs| - 1].transfer) && IdOf(chain, logs[|logs| - 1].transfer) == id)
  {
    var front, last := logs[..|logs| - 1], logs[|logs| - 1];
    if Among(chain, dir, front, id) {
      var i :| 0 <= i < |front| && Resolved(dir, front[i].transfer) && IdOf(chain, front[i].transfer) == id;
      assert logs[i] == front[i];
    }
    if Among(chain, dir, logs, id) {
      var i :| 0 <= i < |logs| && Resolved(dir, logs[i].transfer) && IdOf(chain, logs[i].transfer) == id;
      if i < |front| { assert front[i] == logs[i]; }
    }
  }

  /** The recorded transfers after a batch: those before it and every resolved one in it. */
  lemma {:induction false} BatchRecords(t: Tables, chain: ChainId, dir: Directory, logs: seq<Log>, id: DepositId)
    requires PersistTransfers(t, chain, dir, logs).Ok?
    ensures id in PersistTransfers(t, chain, dir, logs).value.store.transfers <==>
      id in t.store.transfers || Among(chain, dir, logs, id)
  {
    if logs != [] {
      BatchRecords(t, chain, dir, logs[..|logs| - 1], id);
      AmongFront(chain, dir, logs, id);
    }
  }

  lemma RefusedInFront(t: Tables, chain: ChainId, dir: Directory, logs: seq<Log>, i: int)
    requires 0 <= i < |logs| - 1
    ensures RefusedAt(t, chain, dir, logs, i) <==> RefusedAt(t, chain, dir, logs[..|logs| - 1], i)
  {
    var front := logs[..|logs| - 1];
    assert forall j :: 0 <= j <= i ==> front[j] == logs[j];
  }

  /** The adapter decoded every log it handed over. */
  ghost predicate Decoded(logs: seq<Log>) { forall i :: 0 <= i < |logs| ==> Codec.Decodable(logs[i].transfer.amount) }

  /** A batch is refused exactly when it holds a zero-value transfer that is resolved and new. */
  lemma {:induction false} BatchRefusedIff(t: Tables, chain: ChainId, dir: Directory, logs: seq<Log>)
    requires Decoded(logs)
    ensures PersistTransfers(t, chain, dir, logs).Err? <==> exists i :: RefusedAt(t, chain, dir, logs, i)
  {
    if logs != [] {
      var front, n := logs[..|logs| - 1], |logs| - 1;
      BatchRefusedIff(t, chain, dir, front);
      forall i | 0 <= i < n ensures RefusedAt(t, chain, dir, logs, i) <==> RefusedAt(t, chain, dir, front, i) {
        RefusedInFront(t, chain, dir, logs, i);
      }
      if PersistTransfers(t, chain, dir, front).Ok? {
        LastRefused(t, chain, dir, logs);
      } else {
        var i :| RefusedAt(t, chain, dir, front, i);
        assert RefusedAt(t, chain, dir, logs, i);
      }
    }
  }

  lemma LastRefused(t: Tables, chain: ChainId, dir: Directory, logs: seq<Log>)
    requires logs != [] && Decoded(logs) && PersistTransfers(t, chain, dir, logs[..|logs| - 1]).Ok?
    ensures PersistTransfers(t, chain, dir, logs).Err? <==> RefusedAt(t, chain, dir, logs, |logs| - 1)
  {
    var front, n := logs[..|logs| - 1], |logs| - 1;
    var id := IdOf(chain, logs[n].transfer);
    BatchRecords(t, chain, dir, front, id);
    Codec.DecodableFits(logs[n].transfer.amount);
    assert Among(chain, dir, front, id) <==>
      exists j :: 0 <= j < n && Resolved(dir, logs[j].transfer) && IdOf(chain, logs[j].transfer) == id
    by {
      if Among(chain, dir, front, id) {
        var j :| 0 <= j < |front| && Resolved(dir, front[j].transfer) && IdOf(chain, front[j].transfer) == id;
        assert logs[j] == front[j];
      }
      if j :| 0 <= j < n && Resolved(dir, logs[j].transfer) && IdOf(chain, logs[j].transfer) == id {
        assert front[j] == logs[j];
      }
    }
  }

  // ---------------------------------------------------------------- one scanning tick ---

  /** A transfer of the block at height `h` that the watcher is to record: tracked, decodable and resolved. */
  ghost predicate ToRecord(head: Block, dir: Directory, h: nat, x: Transfer) {
    && h <= head.Height() && x in HeaderAt(head, h).value.Logs()
    && x.contract in dir.contracts && x.to in dir.tracked && Codec.Decodable(x.amount)
    && x.contract in dir.assets && x.to in dir.owners
  }

  /** No transfer to record above height `low` has the value zero. */
  ghost predicate Wholesome(head: Block, dir: Directory, low: nat) {
    forall h, x {:trigger ToRecord(head, dir, h, x)} :: low < h && ToRecord(head, dir, h, x) ==> x.amount != 0
  }

  /** Every transfer to record in the blocks above `low` up to `high` is recorded. */
  ghost predicate Recorded(s: Store, chain: ChainId, head: Block, dir: Directory, low: nat, high: nat) {
    forall h, x {:trigger ToRecord(head, dir, h, x)} ::
      low < h <= high && ToRecord(head, dir, h, x) ==> DepositId(chain, x.txHash, x.logIndex) in s.transfers
  }

  lemma RangeLog(dir: Directory, head: Block, from: nat, to: nat, h: nat, x: Transfer)
    requires from <= h <= to <= head.Height()
    ensures Log(HeaderAt(head, h).value, x) in Logs(dir, Headers(head, from, to)) <==>
      x in HeaderAt(head, h).value.Logs() && Visible(dir, x)
  {
    HeadersAre(head, from, to);
    assert HeaderAt(head, from + (h - from)) == Some(Headers(head, from, to)[h - from]);
    LogsAre(dir, Headers(head, from, to), Log(HeaderAt(head, h).value, x));
  }

  lemma HeaderOfRange(head: Block, from: nat, to: nat, b: Block)
    requires from <= to <= head.Height() && b in Headers(head, from, to)
    ensures from <= b.Height() <= to && HeaderAt(head, b.Height()) == Some(b)
  {
    var headers := Headers(head, from, to);
    HeadersAre(head, from, to);
    var i :| 0 <= i < |headers| && headers[i] == b;
    assert HeaderAt(head, from + i) == Some(headers[i]);
  }

  lemma LogHeight(dir: Directory, head: Block, from: nat, to: nat, l: Log)
    requires from <= to <= head.Height() && l in Logs(dir, Headers(head, from, to))
    ensures from <= l.block.Height() <= to && HeaderAt(head, l.block.Height()) == Some(l.block)
    ensures l.transfer in l.block.Logs() && Visible(dir, l.transfer)
  {
    LogsAre(dir, Headers(head, from, to), l);
    HeaderOfRange(head, from, to, l.block);
  }

  lemma LogsDecoded(dir: Directory, headers: seq<Block>)
    ensures Decoded(Logs(dir, headers))
  {
    var logs := Logs(dir, headers);
    forall i | 0 <= i < |logs| ensures Codec.Decodable(logs[i].transfer.amount) {
      LogsAre(dir, headers, logs[i]);
    }
  }

  lemma RangeAccepted(t: Tables, chain: ChainId, dir: Directory, head: Block, low: nat, from: nat, to: nat)
    requires Wholesome(head, dir, low) && low < from <= to <= head.Height()
    ensures PersistTransfers(t, chain, dir, Logs(dir, Headers(head, from, to))).Ok?
  {
    var logs := Logs(dir, Headers(head, from, to));
    LogsDecoded(dir, Headers(head, from, to));
    BatchRefusedIff(t, chain, dir, logs);
    if i :| RefusedAt(t, chain, dir, logs, i) {
      LogHeight(dir, head, from, to, logs[i]);
      assert ToRecord(head, dir, logs[i].block.Height(), logs[i].transfer);
      assert false;
    }
  }

  lemma RangeRecorded(t: Tables, chain: ChainId, dir: Directory, head: Block, from: nat, to: nat, h: nat, x: Transfer)
    requires from <= h <= to <= head.Height() && ToRecord(head, dir, h, x)
    requires PersistTransfers(t, chain, dir, Logs(dir, Headers(head, from, to))).Ok?
    ensures IdOf(chain, x) in PersistTransfers(t, chain, dir, Logs(dir, Headers(head, from, to))).value.store.transfers
  {
    var logs, l := Logs(dir, Headers(head, from, to)), Log(HeaderAt(head, h).value, x);
    RangeLog(dir, head, from, to, h, x);
    BatchRecords(t, chain, dir, logs, IdOf(chain, x));
    var i :| 0 <= i < |logs| && logs[i] == l;
    assert Among(chain, dir, logs, IdOf(chain, x));
  }

  lemma PersistAccepted(t: Tables, chain: ChainId, dir: Directory, head: Block, low: nat, from: nat, to: nat)
    requires Wholesome(head, dir, low) && low < from <= to <= head.Height()
    requires forall h :: h in t.store.canonical ==> h < from
    requires Recorded(t.store, chain, head, dir, low, from - 1)
    ensures Persist(t, chain, dir, Headers(head, from, to)).Ok?
    ensures Recorded(Persist(t, chain, dir, Headers(head, from, to)).value.store, chain, head, dir, low, to)
  {
    var headers := Headers(head, from, to);
    HeadersAre(head, from, to);
    HeadersInserted(t.store.canonical, head, from, to);
    var grown := t.(store := t.store.(canonical := PersistHeaders(t.store.canonical, headers).value));
    RangeAccepted(grown, chain, dir, head, low, from, to);
    var filled := PersistTransfers(grown, chain, dir, Logs(dir, headers)).value;
    forall h, x {:trigger ToRecord(head, dir, h, x)} | low < h <= to && ToRecord(head, dir, h, x)
      ensures IdOf(chain, x) in filled.store.transfers
    {
      if h >= from {
        RangeRecorded(grown, chain, dir, head, from, to, h, x);
      } else {
        BatchRecords(grown, chain, dir, Logs(dir, headers), IdOf(chain, x));
      }
    }
  }

  /** On the chain, below its head, everything above `low` recorded so far. */
  ghost predicate Following(t: Tables, chain: ChainId, head: Block, dir: Directory, low: nat) {
    && Lineage(t.store) && Tracked(t, chain) && OnChain(head, Tip(t.store))
    && low <= t.store.cursor.value.height && Recorded(t.store, chain, head, dir, low, t.store.cursor.value.height)
  }

  function Batch(cfg: Config): nat { if cfg.batchSize > 1 then cfg.batchSize else 1 }

  lemma ScanAdvances(t: Tables, cfg: Config, head: Block, dir: Directory, prune: bool, low: nat)
    requires Following(t, cfg.chain, head, dir, low) && Wholesome(head, dir, low)
    requires t.store.cursor.value.height < head.Height()
    ensures Scan(t, cfg, head, dir, prune).Ok?
    ensures var (t', outcome) := Scan(t, cfg, head, dir, prune).value;
      var cursor := t.store.cursor.value.height;
      && outcome.Scanned? && outcome.from == cursor + 1 && outcome.head == head.Height()
      && outcome.to == (if cursor + Batch(cfg) > head.Height() then head.Height() else cursor + Batch(cfg))
      && t'.store.cursor == Some(Cursor(outcome.to, HeaderAt(head, outcome.to)))
      && Following(t', cfg.chain, head, dir, low)
  {
    var cursor := t.store.cursor.value.height;
    var (from, to) := NextRange(cursor, head.Height(), cfg.batchSize).value;
    PersistAccepted(t, cfg.chain, dir, head, low, from, to);
    var m := Persist(t, cfg.chain, dir, Headers(head, from, to)).value;
    PersistEffect(t, cfg.chain, dir, head, from, to, m);
    ScanShape(t, cfg, head, dir, prune, from, to, m);
    ScanKeeps(t, cfg, head, dir, prune);
    SameTransfers(m.store, Scan(t, cfg, head, dir, prune).value.0.store, cfg.chain, head, dir, low, to);
  }

  lemma ScanShape(t: Tables, cfg: Config, head: Block, dir: Directory, prune: bool, from: nat, to: nat, m: Tables)
    requires t.store.cursor.Some?
    requires NextRange(t.store.cursor.value.height, head.Height(), cfg.batchSize) == Some((from, to))
    requires Persist(t, cfg.chain, dir, Headers(head, from, to)) == Ok(m)
    ensures var r := Scan(t, cfg, head, dir, prune);
      && r.Ok? && r.value.1 == Scanned(from, to, head.Height())
      && r.value.0.store.cursor == m.store.cursor && r.value.0.store.transfers == m.store.transfers
  {}

  lemma SameTransfers(s: Store, s': Store, chain: ChainId, head: Block, dir: Directory, low: nat, high: nat)
    requires Recorded(s, chain, head, dir, low, high) && s'.transfers == s.transfers
    ensures Recorded(s', chain, head, dir, low, high)
  {}

  lemma FollowingTickScans(t: Tables, cfg: Config, head: Block, dir: Directory, order: seq<DepositId>, prune: bool)
    requires Lineage(t.store) && OnChain(head, Tip(t.store))
    ensures Tick(t, cfg, head, dir, order, prune) == Scan(t, cfg, head, dir, prune)
  {}

  // ---------------------------------------------------------------------- many ticks ---

  datatype Progress = Progress(tables: Tables, visited: seq<nat>)

  function Range(low: nat, high: nat): seq<nat> {
    if high < low then [] else seq(high - low + 1, (i: nat) => low + i)
  }

  function Visited(outcome: Outcome): seq<nat> { if outcome.Scanned? then Range(outcome.from, outcome.to) else [] }

  /** One tick on a chain that stands still. */
  function Ticking(
      cfg: Config, head: Block, dir: Directory, order: seq<DepositId>, prune: bool): Progress -> Result<Progress> {
    (p: Progress) =>
      match Tick(p.tables, cfg, head, dir, order, prune)
      case Err(e) => Err(e)
      case Ok((t, outcome)) => Ok(Progress(t, p.visited + Visited(outcome)))
  }

  function Repeat(step: Progress -> Result<Progress>, p: Progress, n: nat): Result<Progress>
    decreases n
  {
    if n == 0 then Ok(p)
    else
      match step(p)
      case Err(e) => Err(e)
      case Ok(q) => Repeat(step, q, n - 1)
  }

  /** How many batches of `n` cover `x`. */
  function Ceil(x: nat, n: nat): nat
    requires n > 0
  {
    if x == 0 then 0 else 1 + Ceil(if x > n then x - n else 0, n)
  }

  lemma {:induction false} CeilIsLeast(x: nat, n: nat)
    requires n > 0
    ensures x <= Ceil(x, n) * n < x + n
  {
    if x > 0 {
      CeilIsLeast(if x > n then x - n else 0, n);
    }
  }

  lemma RangeJoin(visited: seq<nat>, low: nat, mid: nat, high: nat)
    requires low <= mid <= high
    ensures visited + Range(low + 1, mid) + Range(mid + 1, high) == visited + Range(low + 1, high)
  {
    assert Range(low + 1, mid) + Range(mid + 1, high) == Range(low + 1, high);
  }

  lemma NothingLeft(visited: seq<nat>, high: nat)
    ensures visited + Range(high + 1, high) == visited
  {}

  lemma FromNothing(visited: seq<nat>)
    ensures [] + visited == visited
  {}

  lemma OneFewer(here: nat, there: nat, high: nat, n: nat)
    requires n > 0 && here < high && there == if high - here > n then here + n else high
    ensures Ceil(high - here, n) == 1 + Ceil(high - there, n)
  {}

  function Position(p: Progress): nat { if p.tables.store.cursor.Some? then p.tables.store.cursor.value.height else 0 }

  /** A step that scans the next batch. */
  ghost predicate Advances(step: Progress -> Result<Progress>, p: Progress, high: nat, batch: nat) {
    && step(p).Ok?
    && var q := step(p).value;
       && Position(q) == (if high - Position(p) > batch then Position(p) + batch else high)
       && q.visited == p.visited + Range(Position(p) + 1, Position(q))
  }

  ghost predicate AdvancesIfGood(
      step: Progress -> Result<Progress>, good: Progress -> bool, p: Progress, high: nat, batch: nat) {
    good(p) && Position(p) < high ==> Advances(step, p, high, batch) && good(step(p).value)
  }

  /** Steps that advance from every good position below `high` arrive there after `Ceil` of the distance. */
  lemma {:induction false} Arrives(
      step: Progress -> Result<Progress>, good: Progress -> bool, p: Progress, high: nat, batch: nat, n: nat)
    requires batch > 0 && good(p) && Position(p) <= high && n == Ceil(high - Position(p), batch)
    requires forall x :: AdvancesIfGood(step, good, x, high, batch)
    ensures var r := Repeat(step, p, n);
      r.Ok? && good(r.value) && Position(r.value) == high && r.value.visited == p.visited + Range(Position(p) + 1, high)
    decreases n
  {
    if Position(p) == high {
      NothingLeft(p.visited, high);
    } else {
      assert AdvancesIfGood(step, good, p, high, batch);
      var q := step(p).value;
      OneFewer(Position(p), Position(q), high, batch);
      Arrives(step, good, q, high, batch, n - 1);
      RangeJoin(p.visited, Position(p), Position(q), high);
    }
  }

  /** One tick from a cursor on the chain and below its head. */
  lemma ScanStep(p: Progress, cfg: Config, head: Block, dir: Directory, order: seq<DepositId>, prune: bool, low: nat)
    requires Following(p.tables, cfg.chain, head, dir, low) && Wholesome(head, dir, low) && Position(p) < head.Height()
    ensures Advances(Ticking(cfg, head, dir, order, prune), p, head.Height(), Batch(cfg))
    ensures Following(Ticking(cfg, head, dir, order, prune)(p).value.tables, cfg.chain, head, dir, low)
  {
    FollowingTickScans(p.tables, cfg, head, dir, order, prune);
    ScanAdvances(p.tables, cfg, head, dir, prune, low);
  }

  ghost function Follows(chain: ChainId, head: Block, dir: Directory, low: nat): Progress -> bool {
    (p: Progress) => Following(p.tables, chain, head, dir, low)
  }

  /** From a cursor on the chain, `Ceil` of the distance over the batch size scans reach the head. */
  lemma CatchesUp(
      p: Progress, cfg: Config, head: Block, dir: Directory, order: seq<DepositId>, prune: bool, low: nat, n: nat)
    returns (r: Progress)
    requires Follows(cfg.chain, head, dir, low)(p) && Wholesome(head, dir, low) && Position(p) <= head.Height()
    requires n == Ceil(head.Height() - Position(p), Batch(cfg))
    ensures Repeat(Ticking(cfg, head, dir, order, prune), p, n) == Ok(r)
    ensures Follows(cfg.chain, head, dir, low)(r) && Position(r) == head.Height()
    ensures r.visited == p.visited + Range(Position(p) + 1, head.Height())
  {
    var step, good := Ticking(cfg, head, dir, order, prune), Follows(cfg.chain, head, dir, low);
    forall x ensures AdvancesIfGood(step, good, x, head.Height(), Batch(cfg)) {
      if good(x) && Position(x) < head.Height() {
        ScanStep(x, cfg, head, dir, order, prune, low);
      }
    }
    Arrives(step, good, p, head.Height(), Batch(cfg), n);
    r := Repeat(step, p, n).value;
  }

  lemma AtHead(s: Store, head: Block)
    requires Lineage(s) && OnChain(head, Tip(s)) && s.cursor.value.height == head.Height()
    ensures s.cursor == Some(Cursor(head.Height(), Some(head)))
  {}

  lemma ReorgTick(t: Tables, cfg: Config, head: Block, dir: Directory, order: seq<DepositId>, prune: bool, f: nat)
    requires Lineage(t.store) && Tracked(t, cfg.chain) && Inv(t.books) && t.store.cursor.value.height <= head.Height()
    requires IsFork(Tip(t.store), head, f) && LowestStored(t.store) <= f < t.store.cursor.value.height
    requires Floor(t.store.cursor.value.height, cfg.scanDepth) <= f
    requires Enumerates(order, Abandoned(t.store, f)) && CustodyCovers(t.books, order)
    ensures var r := Tick(t, cfg, head, dir, order, prune);
      && r.Ok? && r.value.1 == Outcome.Reorged(f)
      && Following(r.value.0, cfg.chain, head, dir, f)
      && r.value.0.store.cursor.value.height == f
  {
    DetectExact(t.store, head, cfg.scanDepth, f);
    ReorgAllowedIff(t.books, order);
    HandleTracked(t, cfg.chain, f, order, ReorgDeposits(t.books, order).value);
    KeptLineage(t.store, Tip(t.store), f);
    ForkSplitsTheStore(t.store, head, f, f);
  }

  /** The first tick after a reorg the window covers. */
  lemma ReorgStep(t: Tables, cfg: Config, head: Block, dir: Directory, order: seq<DepositId>, prune: bool, f: nat)
    returns (q: Progress)
    requires Lineage(t.store) && Tracked(t, cfg.chain) && Inv(t.books) && t.store.cursor.value.height <= head.Height()
    requires IsFork(Tip(t.store), head, f) && LowestStored(t.store) <= f < t.store.cursor.value.height
    requires Floor(t.store.cursor.value.height, cfg.scanDepth) <= f
    requires Enumerates(order, Abandoned(t.store, f)) && CustodyCovers(t.books, order)
    ensures Ticking(cfg, head, dir, order, prune)(Progress(t, [])) == Ok(q)
    ensures Follows(cfg.chain, head, dir, f)(q) && Position(q) == f && q.visited == []
  {
    ReorgTick(t, cfg, head, dir, order, prune, f);
    var (start, outcome) := Tick(t, cfg, head, dir, order, prune).value;
    q := Progress(start, [] + Visited(outcome));
  }

  lemma AlreadyFollowing(t: Tables, chain: ChainId, head: Block, dir: Directory, f: nat)
    requires Lineage(t.store) && Tracked(t, chain) && t.store.cursor.value.height == f <= head.Height()
    requires IsFork(Tip(t.store), head, f)
    ensures Follows(chain, head, dir, f)(Progress(t, []))
  {
    assert AgreeAt(Tip(t.store), head, f);
  }

  /** With the cursor at the head a tick is idle and changes nothing. */
  lemma IdleAtHead(t: Tables, cfg: Config, head: Block, dir: Directory, order: seq<DepositId>, prune: bool)
    requires t.store.cursor == Some(Cursor(head.Height(), Some(head)))
    ensures Tick(t, cfg, head, dir, order, prune) == Ok((t, Idle(head.Height(), head.Height())))
  {}

  /** Every further tick is idle and changes nothing, whatever directory it uses. */
  ghost predicate Rests(t: Tables, cfg: Config, head: Block) {
    forall dir, order, prune ::
      Tick(t, cfg, head, dir, order, prune) == Ok((t, Idle(head.Height(), head.Height())))
  }

  /** What standing at the head, with everything above `low` visited once and recorded, looks like. */
  ghost predicate Arrived(p: Progress, cfg: Config, head: Block, dir: Directory, low: nat) {
    && p.tables.store.cursor == Some(Cursor(head.Height(), Some(head)))
    && p.visited == Range(low + 1, head.Height())
    && Recorded(p.tables.store, cfg.chain, head, dir, low, head.Height())
    && Rests(p.tables, cfg, head)
  }

  lemma StandsAtHead(p: Progress, cfg: Config, head: Block, dir: Directory, low: nat)
    requires Follows(cfg.chain, head, dir, low)(p) && Position(p) == head.Height()
    requires p.visited == Range(low + 1, head.Height())
    ensures Arrived(p, cfg, head, dir, low)
  {
    AtHead(p.tables.store, head);
    forall dir', order, prune
      ensures Tick(p.tables, cfg, head, dir', order, prune) == Ok((p.tables, Idle(head.Height(), head.Height())))
    {
      IdleAtHead(p.tables, cfg, head, dir', order, prune);
    }
  }

  lemma RepeatOnce(step: Progress -> Result<Progress>, p: Progress, q: Progress, n: nat)
    requires step(p) == Ok(q)
    ensures Repeat(step, p, 1 + n) == Repeat(step, q, n)
  {}

  lemma ArrivesFromFork(
    q: Progress, cfg: Config, head: Block, dir: Directory, order: seq<DepositId>, prune: bool, f: nat, scans: nat)
    returns (p: Progress)
    requires Follows(cfg.chain, head, dir, f)(q) && Position(q) == f <= head.Height() && q.visited == []
    requires Wholesome(head, dir, f) && scans == Ceil(head.Height() - f, Batch(cfg))
    ensures Repeat(Ticking(cfg, head, dir, order, prune), q, scans) == Ok(p) && Arrived(p, cfg, head, dir, f)
  {
    p := CatchesUp(q, cfg, head, dir, order, prune, f, scans);
    FromNothing(Range(f + 1, head.Height()));
    StandsAtHead(p, cfg, head, dir, f);
  }

  lemma AgreedHeight(x: Block, y: Block, f: nat)
    requires IsFork(x, y, f)
    ensures f <= x.Height() && f <= y.Height()
  {}

  /** The chain stands still at `head`, with the fork at `f` inside what is stored and the scan window. */
  ghost predicate Recoverable(t: Tables, cfg: Config, head: Block, f: nat) {
    && Lineage(t.store) && Tracked(t, cfg.chain) && Inv(t.books) && t.store.cursor.value.height <= head.Height()
    && IsFork(Tip(t.store), head, f) && LowestStored(t.store) <= f
    && Floor(t.store.cursor.value.height, cfg.scanDepth) <= f
  }

  /**
   * Convergence. The chain stands still with its head at or above the cursor and the fork inside
   * the stored window; custody covers what the reorg takes back. After at most one reorg tick and
   * ceil((head - fork) / batch) scans the cursor is the head, each height above the fork was
   * visited exactly once and in order, every transfer to record there is recorded, and every
   * further tick is idle and changes nothing.
   */
  lemma Converges(
    t: Tables, cfg: Config, head: Block, dir: Directory, order: seq<DepositId>, prune: bool, f: nat, scans: nat)
    returns (p: Progress)
    requires Recoverable(t, cfg, head, f) && Wholesome(head, dir, f)
    requires f < t.store.cursor.value.height ==>
      Enumerates(order, Abandoned(t.store, f)) && CustodyCovers(t.books, order)
    requires f <= head.Height() && scans == Ceil(head.Height() - f, Batch(cfg))
    ensures
      var ticks := if f < t.store.cursor.value.height then 1 + scans else scans;
      Repeat(Ticking(cfg, head, dir, order, prune), Progress(t, []), ticks) == Ok(p)
    ensures Arrived(p, cfg, head, dir, f)
  {
    AgreedHeight(Tip(t.store), head, f);
    if f < t.store.cursor.value.height {
      var q := ReorgStep(t, cfg, head, dir, order, prune, f);
      RepeatOnce(Ticking(cfg, head, dir, order, prune), Progress(t, []), q, scans);
      p := ArrivesFromFork(q, cfg, head, dir, order, prune, f, scans);
    } else {
      AlreadyFollowing(t, cfg.chain, head, dir, f);
      p := ArrivesFromFork(Progress(t, []), cfg, head, dir, order, prune, f, scans);
    }
  }
}
