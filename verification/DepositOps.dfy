/** The deposit transactions on the tables: credit, fork detection, reorg handling, scanning and confirmation. */
module DepositOps {
  import opened Prelude
  import opened Ledger
  import opened Books
  import opened Blocks
  import opened Watcher
  import opened Database

  /** `DepositCreditHandler::credit`. */
  method CreditOne(db: Db, d: DepositId) returns (r: Result<()>)
    modifies db
    ensures Commits(r, OnBooks(old(db.StoreNow()), CreditConfirmed(old(db.BooksNow()), d)), old(db.Now()), db.Now())
  {
    if d !in db.deposits {
      return Err(NotFound);
    }
    var start, dep := db.Now(), db.deposits[d];
    match dep.status {
      case Credited => return Ok(());
      case Reorged => return Ok(());
      case Failed => return Ok(());
      case Observed => return Err(Conflict);
      case Confirming => return Err(Conflict);
      case Confirmed =>
    }
    r := db.PostDepositCredit(d, dep.user, dep.asset, dep.amount);
    if r.Err? {
      db.Rollback(start);
      return;
    }
    db.deposits := db.deposits[d := dep.(status := Credited)];
  }

  // --------------------------------------------------------------------------- reorg.rs ---

  /** `detect`. `looked` counts the heights the walk-back examined: never more than the scan depth. */
  method DetectFork(db: Db, head: Block, depth: nat) returns (r: Result<Option<nat>>, looked: nat)
    ensures r == Detect(db.StoreNow(), head, depth) && looked <= depth
  {
    looked := 0;
    if db.cursor.None? {
      return Ok(None), 0;
    }
    var tip := db.cursor.value.height;
    var onChain := HeaderAt(head, tip);
    if onChain.None? || onChain == db.cursor.value.hash {
      return Ok(None), 0;
    }
    var floor := Floor(tip, depth);
    var height := tip;
    while true
      invariant floor <= height <= tip && looked == tip - height
      invariant WalkBack(db.canonical, head, height, floor) == WalkBack(db.canonical, head, tip, floor)
      decreases height
    {
      if height <= floor {
        return Err(Internal), looked;
      }
      height, looked := height - 1, looked + 1;
      if height !in db.canonical {
        return Ok(Some(height)), looked;
      }
      var there := HeaderAt(head, height);
      if there.Some? && there.value == db.canonical[height] {
        return Ok(Some(height)), looked;
      }
    }
  }

  /** `find_common_ancestor`: the first stored pair, from the top, that the chain has too. */
  method SearchAncestor(stored: seq<(nat, Block)>, chain: seq<(nat, Block)>) returns (r: Option<nat>)
    ensures r == FindCommonAncestor(stored, chain)
  {
    for i := 0 to |stored|
      invariant FindCommonAncestor(stored, chain) == FindCommonAncestor(stored[i..], chain)
    {
      assert stored[i..][1..] == stored[i + 1..];
      if ChainAt(chain, stored[i].0) == Some(stored[i].1) {
        return Some(stored[i].0);
      }
    }
    return None;
  }

  /** One deposit of the reorg loop: compensate a credit, then mark. */
  method ReorgOneDeposit(db: Db, d: DepositId) returns (r: Result<()>)
    modifies db`balances, db`posted, db`deposits
    ensures match ReorgDeposit(old(db.BooksNow()), d)
            case Ok(b) => r.Ok? && db.BooksNow() == b
            case Err(e) => r == Err(e)
  {
    if d !in db.deposits || db.deposits[d].status.Reorged? {
      return Ok(());
    }
    var dep := db.deposits[d];
    if dep.status.Credited? {
      r := db.PostDepositReversal(d, dep.user, dep.asset, dep.amount);
      if r.Err? {
        return;
      }
    }
    db.deposits := db.deposits[d := dep.(status := DepositStatus.Reorged)];
    return Ok(());
  }

  lemma {:induction false} ReorgRefusalSticks(b: Books, ds: seq<DepositId>, i: nat)
    requires i <= |ds| && ReorgDeposits(b, ds[..i]).Err?
    ensures ReorgDeposits(b, ds) == ReorgDeposits(b, ds[..i])
  {
    if i == |ds| {
      assert ds[..i] == ds;
    } else {
      assert ds[..|ds| - 1][..i] == ds[..i];
      ReorgRefusalSticks(b, ds[..|ds| - 1], i);
    }
  }

  method ReorgEach(db: Db, order: seq<DepositId>) returns (r: Result<()>)
    modifies db`balances, db`posted, db`deposits
    ensures match ReorgDeposits(old(db.BooksNow()), order)
            case Ok(b) => r.Ok? && db.BooksNow() == b
            case Err(e) => r == Err(e)
  {
    ghost var before := db.BooksNow();
    for i := 0 to |order|
      invariant ReorgDeposits(before, order[..i]) == Ok(db.BooksNow())
    {
      assert order[..i + 1][..i] == order[..i];
      r := ReorgOneDeposit(db, order[i]);
      if r.Err? {
        ReorgRefusalSticks(before, order, i + 1);
        return;
      }
    }
    assert order[..|order|] == order;
    return Ok(());
  }

  /** `handle`: orphan, mark, compensate and rewind in one transaction. */
  method HandleReorg(db: Db, ancestor: nat, order: seq<DepositId>) returns (r: Result<()>)
    modifies db
    ensures Commits(r, Handle(old(db.Now()), ancestor, order), old(db.Now()), db.Now())
  {
    var start := db.Now();
    var abandoned := Abandoned(db.StoreNow(), ancestor);
    db.canonical := Kept(db.canonical, ancestor);
    db.transfers := MarkOrphaned(db.transfers, abandoned);
    r := ReorgEach(db, order);
    if r.Err? {
      db.Rollback(start);
      return;
    }
    db.cursor := Some(Rewound(db.canonical, ancestor));
  }

  // -------------------------------------------------------------------------- engine.rs ---

  /** `persist_header`. */
  method PersistOneHeader(db: Db, b: Block) returns (r: Result<()>)
    modifies db`canonical
    ensures match PersistHeader(old(db.canonical), b)
            case Ok(m) => r.Ok? && db.canonical == m
            case Err(e) => r == Err(e)
  {
    var h := b.Height();
    if h in db.canonical && db.canonical[h] != b {
      db.canonical := Kept(db.canonical, if h > 0 then h - 1 else 0);
    }
    if h in db.canonical && db.canonical[h] != b {
      return Err(Conflict);
    }
    db.canonical := db.canonical[h := b];
    return Ok(());
  }

  /** `persist_transfer`. */
  method PersistOneTransfer(db: Db, chain: ChainId, dir: Directory, l: Log) returns (r: Result<()>)
    modifies db`transfers, db`deposits
    ensures match PersistTransfer(old(db.Now()), chain, dir, l)
            case Ok(t) => r.Ok? && db.Now() == t
            case Err(e) => r == Err(e)
  {
    if l.transfer.contract !in dir.assets || l.transfer.to !in dir.owners {
      return Ok(());
    }
    var id := IdOf(chain, l.transfer);
    if id in db.transfers {
      return Ok(());
    }
    if !IsPositive(l.transfer.amount) {
      return Err(Conflict);
    }
    db.transfers := db.transfers[id := TransferRow(l.block, false)];
    if id !in db.deposits {
      db.deposits := db.deposits[id := Deposit(dir.owners[l.transfer.to], dir.assets[l.transfer.contract],
          l.transfer.amount, Observed)];
    }
    return Ok(());
  }

  lemma {:induction false} HeaderRefusalSticks(canonical: map<nat, Block>, headers: seq<Block>, i: nat)
    requires i <= |headers| && PersistHeaders(canonical, headers[..i]).Err?
    ensures PersistHeaders(canonical, headers) == PersistHeaders(canonical, headers[..i])
  {
    if i == |headers| {
      assert headers[..i] == headers;
    } else {
      assert headers[..|headers| - 1][..i] == headers[..i];
      HeaderRefusalSticks(canonical, headers[..|headers| - 1], i);
    }
  }

  lemma {:induction false} TransferRefusalSticks(t: Tables, chain: ChainId, dir: Directory, logs: seq<Log>, i: nat)
    requires i <= |logs| && PersistTransfers(t, chain, dir, logs[..i]).Err?
    ensures PersistTransfers(t, chain, dir, logs) == PersistTransfers(t, chain, dir, logs[..i])
  {
    if i == |logs| {
      assert logs[..i] == logs;
    } else {
      assert logs[..|logs| - 1][..i] == logs[..i];
      TransferRefusalSticks(t, chain, dir, logs[..|logs| - 1], i);
    }
  }

  method PersistEachHeader(db: Db, headers: seq<Block>) returns (r: Result<()>)
    modifies db`canonical
    ensures match PersistHeaders(old(db.canonical), headers)
            case Ok(m) => r.Ok? && db.canonical == m
            case Err(e) => r == Err(e)
  {
    for i := 0 to |headers|
      invariant PersistHeaders(old(db.canonical), headers[..i]) == Ok(db.canonical)
    {
      assert headers[..i + 1][..i] == headers[..i];
      r := PersistOneHeader(db, headers[i]);
      if r.Err? {
        HeaderRefusalSticks(old(db.canonical), headers, i + 1);
        return;
      }
    }
    assert headers[..|headers|] == headers;
    return Ok(());
  }

  method PersistEachTransfer(db: Db, chain: ChainId, dir: Directory, logs: seq<Log>) returns (r: Result<()>)
    modifies db`transfers, db`deposits
    ensures match PersistTransfers(old(db.Now()), chain, dir, logs)
            case Ok(t) => r.Ok? && db.Now() == t
            case Err(e) => r == Err(e)
  {
    ghost var before := db.Now();
    for i := 0 to |logs|
      invariant PersistTransfers(before, chain, dir, logs[..i]) == Ok(db.Now())
    {
      assert logs[..i + 1][..i] == logs[..i];
      r := PersistOneTransfer(db, chain, dir, logs[i]);
      if r.Err? {
        TransferRefusalSticks(before, chain, dir, logs, i + 1);
        return;
      }
    }
    assert logs[..|logs|] == logs;
    return Ok(());
  }

  /** `persist_scan`: headers, transfers, then the cursor, or nothing. */
  method PersistScan(db: Db, chain: ChainId, dir: Directory, headers: seq<Block>) returns (r: Result<()>)
    modifies db
    ensures Commits(r, Persist(old(db.Now()), chain, dir, headers), old(db.Now()), db.Now())
  {
    if headers == [] {
      return Ok(());
    }
    var start := db.Now();
    r := PersistEachHeader(db, headers);
    if r.Ok? {
      r := PersistEachTransfer(db, chain, dir, Logs(dir, headers));
    }
    if r.Err? {
      db.Rollback(start);
      return;
    }
    var tip := headers[|headers| - 1];
    db.cursor := Some(Cursor(tip.Height(), Some(tip)));
  }

  // ------------------------------------------------------------------------- watcher.rs ---

  /** `initialise_cursor`. */
  method InitialiseCursor(db: Db, cfg: Config, head: Block) returns (r: Result<nat>)
    modifies db`canonical, db`cursor
    ensures match Initialise(old(db.StoreNow()), cfg, head)
            case Ok(s) => r == Ok(InitialHeight(cfg, head)) && db.StoreNow() == s
            case Err(e) => r == Err(e) && db.StoreNow() == old(db.StoreNow())
  {
    var height := InitialHeight(cfg, head);
    var found := HeaderAt(head, height);
    var b := if found.Some? then found.value else head;
    if height in db.canonical && db.canonical[height] != b {
      return Err(Conflict);
    }
    db.canonical := db.canonical[height := b];
    db.cursor := Some(Cursor(height, Some(b)));
    return Ok(height);
  }

  /** `tick`: look for a reorg first, then scan the next batch and prune. */
  method TickOnce(db: Db, cfg: Config, head: Block, dir: Directory, order: seq<DepositId>, prune: bool)
    returns (r: Result<Outcome>)
    modifies db
    ensures match Tick(old(db.Now()), cfg, head, dir, order, prune)
            case Ok(p) => r == Ok(p.1) && db.Now() == p.0
            case Err(e) => r == Err(e) && db.Now() == old(db.Now())
  {
    var fork, looked := DetectFork(db, head, cfg.scanDepth);
    match fork {
      case Err(e) => return Err(e);
      case Ok(Some(ancestor)) =>
        var handled := HandleReorg(db, ancestor, order);
        return if handled.Ok? then Ok(Outcome.Reorged(ancestor)) else Err(handled.error);
      case Ok(None) =>
    }
    if db.cursor.None? {
      var started := InitialiseCursor(db, cfg, head);
      return if started.Ok? then Ok(Initialised(started.value)) else Err(started.error);
    }
    var cursor := db.cursor.value.height;
    match NextRange(cursor, head.Height(), cfg.batchSize) {
      case None => return Ok(Idle(head.Height(), cursor));
      case Some((from, to)) =>
        var persisted := PersistScan(db, cfg.chain, dir, Headers(head, from, to));
        if persisted.Err? {
          return Err(persisted.error);
        }
        if prune && to > 4 * cfg.scanDepth {
          db.canonical := Prune(db.StoreNow(), to - 4 * cfg.scanDepth).canonical;
        }
        return Ok(Scanned(from, to, head.Height()));
    }
  }

  // ------------------------------------------------------------------- confirmations.rs ---

  datatype ConfirmationPass = ConfirmationPass(examined: nat, toConfirming: nat, toConfirmed: nat, nonCanonical: nat)

  /** How many of the claimed deposits a pass brought into the status. */
  function Advanced(t: Tables, required: Option<nat>, head: nat, claimed: seq<DepositId>, status: DepositStatus): nat {
    if claimed == [] then 0
    else
      var front, d := claimed[..|claimed| - 1], claimed[|claimed| - 1];
      var m := ConfirmPass(t, required, head, front);
      Advanced(t, required, head, front, status)
      + if d in m.books.deposits && m.books.deposits[d].status != status
           && ConfirmOne(m, required, head, d).books.deposits[d].status == status then 1 else 0
  }

  /** How many of them were not in a canonical block. */
  function NotCanonical(s: Store, claimed: seq<DepositId>): nat {
    if claimed == [] then 0
    else NotCanonical(s, claimed[..|claimed| - 1]) + if StillCanonical(s, claimed[|claimed| - 1]) then 0 else 1
  }

  lemma {:induction false} AllCanonical(s: Store, claimed: seq<DepositId>)
    requires forall d :: d in claimed ==> StillCanonical(s, d)
    ensures NotCanonical(s, claimed) == 0
  {
    if claimed != [] {
      assert forall d :: d in claimed[..|claimed| - 1] ==> d in claimed;
      AllCanonical(s, claimed[..|claimed| - 1]);
    }
  }

  /** `ConfirmationEngine::run_once` over the claimed deposits; the counters are what the pass did. */
  method RunConfirmations(db: Db, required: Option<nat>, head: nat, claimed: seq<DepositId>)
    returns (pass: ConfirmationPass)
    modifies db`deposits
    ensures db.Now() == ConfirmPass(old(db.Now()), required, head, claimed)
    ensures pass.examined == |claimed|
    ensures pass.toConfirmed == Advanced(old(db.Now()), required, head, claimed, Confirmed)
    ensures pass.toConfirming == Advanced(old(db.Now()), required, head, claimed, DepositStatus.Confirming)
    ensures pass.nonCanonical == NotCanonical(old(db.StoreNow()), claimed)
    ensures (forall d :: d in claimed ==> StillCanonical(db.StoreNow(), d)) ==> pass.nonCanonical == 0
  {
    ghost var before := db.Now();
    pass := ConfirmationPass(|claimed|, 0, 0, 0);
    for i := 0 to |claimed|
      invariant db.Now() == ConfirmPass(before, required, head, claimed[..i])
      invariant pass.examined == |claimed|
      invariant pass.toConfirmed == Advanced(before, required, head, claimed[..i], Confirmed)
      invariant pass.toConfirming == Advanced(before, required, head, claimed[..i], DepositStatus.Confirming)
      invariant pass.nonCanonical == NotCanonical(before.store, claimed[..i])
    {
      assert claimed[..i + 1][..i] == claimed[..i];
      var d := claimed[i];
      if !StillCanonical(db.StoreNow(), d) {
        pass := pass.(nonCanonical := pass.nonCanonical + 1);
      } else if d in db.deposits {
        var dep := db.deposits[d];
        var final := IsConfirmed(required, head, db.transfers[d].block.Height());
        if final && (dep.status.Observed? || dep.status.Confirming?) {
          db.deposits := db.deposits[d := dep.(status := Confirmed)];
          pass := pass.(toConfirmed := pass.toConfirmed + 1);
        } else if !final && dep.status.Observed? {
          db.deposits := db.deposits[d := dep.(status := DepositStatus.Confirming)];
          pass := pass.(toConfirming := pass.toConfirming + 1);
        }
      }
    }
    assert claimed[..|claimed|] == claimed;
    if forall d :: d in claimed ==> StillCanonical(db.StoreNow(), d) {
      AllCanonical(db.StoreNow(), claimed);
    }
  }
}
