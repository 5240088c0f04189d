/** Where the watcher does not do what its comments promise, and exactly when. */
module LimitLaws {
  import opened Prelude
  import opened Ledger
  import opened Books
  import opened BooksLaws
  import opened RefusalLaws
  import opened Pipeline
  import opened RunLaws
  import opened Blocks
  import opened Watcher
  import opened ForkLaws
  import opened WatcherLaws
  import opened ConvergenceLaws
  import opened Site
  import opened SiteLaws

  // ----------------------------------------------------- rewound below what is stored ---

  /** With nothing stored at or below the zero-hash cursor. */
  ghost predicate Stranded(p: Progress) {
    p.tables.store.cursor.Some? && p.tables.store.cursor.value.hash.None? && p.tables.store.canonical == map[]
  }

  lemma StrandedStep(p: Progress, cfg: Config, head: Block, dir: Directory, prune: bool)
    requires Stranded(p) && Position(p) <= head.Height() && cfg.scanDepth > 0
    ensures var r := Ticking(cfg, head, dir, [], prune)(p);
      if Position(p) == 0 then r.Err?
      else r.Ok? && Stranded(r.value) && Position(r.value) == Position(p) - 1 && r.value.visited == p.visited
  {
    StrandedTick(p.tables, cfg, head, dir, prune);
    if Position(p) > 0 {
      StrandedRollsBack(p.tables.store, Position(p) - 1);
    }
  }

  lemma StrandedTick(t: Tables, cfg: Config, head: Block, dir: Directory, prune: bool)
    requires t.store.cursor.Some? && t.store.cursor.value.hash.None? && t.store.canonical == map[]
    requires t.store.cursor.value.height <= head.Height() && cfg.scanDepth > 0
    ensures var h := t.store.cursor.value.height;
      Tick(t, cfg, head, dir, [], prune)
      == if h == 0 then Err(Internal) else Ok((Tables(RollBack(t.store, h - 1), t.books), Outcome.Reorged(h - 1)))
  {
    StrandedDetects(t.store, head, cfg.scanDepth);
    assert ReorgDeposits(t.books, []) == Ok(t.books);
  }

  lemma StrandedDetects(s: Store, head: Block, depth: nat)
    requires s.cursor.Some? && s.cursor.value.hash.None? && s.canonical == map[]
    requires s.cursor.value.height <= head.Height() && depth > 0
    ensures var h := s.cursor.value.height;
      Detect(s, head, depth) == if h == 0 then Err(Internal) else Ok(Some((h - 1) as nat))
  {}

  lemma StrandedRollsBack(s: Store, h: nat)
    requires s.canonical == map[]
    ensures RollBack(s, h).canonical == map[] && RollBack(s, h).cursor == Some(Cursor(h, None))
  {}

  /**
   * The rewind to a height with no stored block does not start a fresh scan: with the chain
   * standing still every tick steps the cursor one block further back and visits nothing, and from
   * the genesis height on every tick fails.
   */
  lemma {:induction false} StrandedNeverConverges(
      p: Progress, cfg: Config, head: Block, dir: Directory, prune: bool, n: nat)
    requires Stranded(p) && Position(p) <= head.Height() && cfg.scanDepth > 0
    ensures var r := Repeat(Ticking(cfg, head, dir, [], prune), p, n);
      && (r.Ok? <==> n <= Position(p))
      && (r.Ok? ==> Position(r.value) == Position(p) - n && r.value.visited == p.visited)
    decreases n
  {
    if n > 0 {
      StrandedStep(p, cfg, head, dir, prune);
      var step := Ticking(cfg, head, dir, [], prune);
      if step(p).Ok? {
        StrandedNeverConverges(step(p).value, cfg, head, dir, prune, n - 1);
        RepeatOnce(step, p, step(p).value, n - 1);
      }
    }
  }

  // ------------------------------------------------------- a transfer that survives a reorg ---

  predicate IsReorged(s: World, d: DepositId) { d in s.books.deposits && s.books.deposits[d].status.Reorged? }

  lemma ReorgedAfterReorg(s: World, ds: seq<DepositId>, d: DepositId)
    requires Inv(s.books) && IsReorged(s, d)
    ensures IsReorged(Next(s, DoReorg(ds)), d)
  {
    ReorgAllowedIff(s.books, ds);
  }

  lemma ReorgedStep(s: World, action: Action, d: DepositId)
    requires Inv(s.books) && IsReorged(s, d)
    ensures IsReorged(Next(s, action), d)
  {
    match action
    case DoReorg(ds) => ReorgedAfterReorg(s, ds, d);
    case DoObserve(_, _, _, _) =>
    case DoConfirm(_, _) =>
    case DoCredit(x) => CreditDeposits(s.books, x, d.chain);
    case _ => WorkerDeposits(s, action);
  }

  lemma {:induction false} ReorgedForever(actions: seq<Action>, more: seq<Action>, d: DepositId)
    requires IsReorged(At(actions), d)
    ensures IsReorged(Run(At(actions), more), d)
  {
    if more != [] {
      var front := more[..|more| - 1];
      ReorgedForever(actions, front, d);
      PipelineLaws.AlwaysSafe(actions);
      SafeFrom(At(actions), front);
      ReorgedStep(Run(At(actions), front), more[|more| - 1], d);
    }
  }

  /**
   * Once reorged, a deposit stays reorged in every continuation, also when a later block of the
   * chain carries the same transfer again: its rows are there, so the transfer counts as a duplicate.
   */
  lemma {:induction false} SurvivorStaysReorged(cfg: Config, events: seq<Event>, more: seq<Event>, d: DepositId)
    requires IsReorged(SiteAfter(cfg, events).world, d)
    ensures IsReorged(SiteAfter(cfg, events + more).world, d)
  {
    if more == [] {
      assert events + more == events;
    } else {
      var all := events + more;
      var front := events + more[..|more| - 1];
      assert all[..|all| - 1] == front;
      SurvivorStaysReorged(cfg, events, more[..|more| - 1], d);
      var actions := SiteIsARun(cfg, front);
      var step := EventIsARun(cfg, SiteAfter(cfg, front), all[|all| - 1]);
      ReorgedForever(actions, step, d);
    }
  }

  // ------------------------------------------------------------- a transfer that stalls a scan ---

  /**
   * A tick on the stored chain fails exactly when the batch holds a new, resolved transfer whose
   * amount the schema refuses, and as it then leaves everything unchanged it fails on every retry.
   */
  lemma ScanFailsIff(t: Tables, cfg: Config, head: Block, dir: Directory, order: seq<DepositId>, prune: bool)
    requires Lineage(t.store) && OnChain(head, Tip(t.store)) && t.store.cursor.value.height < head.Height()
    ensures Tick(t, cfg, head, dir, order, prune).Err? <==>
      var (from, to) := NextRange(t.store.cursor.value.height, head.Height(), cfg.batchSize).value;
      exists i :: RefusedAt(t, cfg.chain, dir, Logs(dir, Headers(head, from, to)), i)
  {
    var (from, to) := NextRange(t.store.cursor.value.height, head.Height(), cfg.batchSize).value;
    var headers := Headers(head, from, to);
    FollowingTickScans(t, cfg, head, dir, order, prune);
    HeadersAre(head, from, to);
    HeadersInserted(t.store.canonical, head, from, to);
    var grown := t.(store := t.store.(canonical := PersistHeaders(t.store.canonical, headers).value));
    LogsDecoded(dir, headers);
    BatchRefusedIff(grown, cfg.chain, dir, Logs(dir, headers));
    var logs := Logs(dir, headers);
    forall i ensures RefusedAt(grown, cfg.chain, dir, logs, i) <==> RefusedAt(t, cfg.chain, dir, logs, i) {}
  }
}
