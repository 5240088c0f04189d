/** Safety of the whole site over every run, with a chain that may replace any suffix between ticks. */
module SiteLaws {
  import opened Prelude
  import opened Ledger
  import opened Books
  import opened BooksLaws
  import opened RefusalLaws
  import opened Pipeline
  import opened PipelineLaws
  import opened RunLaws
  import opened Blocks
  import opened Watcher
  import opened ForkLaws
  import opened WatcherLaws
  import opened Site

  // ------------------------------------------------ money actions and this chain's deposits ---

  /** This chain's deposits are the same rows, as far as the watcher cares. */
  ghost predicate SameDeposits(b: Books, b': Books, chain: ChainId) {
    forall d: DepositId :: d.chain == chain ==>
      && (d in b.deposits <==> d in b'.deposits)
      && (d in b.deposits ==>
            b'.deposits[d].amount == b.deposits[d].amount
              && b'.deposits[d].status.Reorged? == b.deposits[d].status.Reorged?)
  }

  lemma SameDepositsTracked(s: Store, b: Books, b': Books, chain: ChainId)
    requires Tracked(Tables(s, b), chain) && SameDeposits(b, b', chain)
    ensures Tracked(Tables(s, b'), chain)
  {
    forall d | d in s.transfers ensures RowTracked(Tables(s, b'), chain, d) {
      assert RowTracked(Tables(s, b), chain, d);
    }
  }

  lemma CreateDeposits(b: Books, id: WithdrawalId, r: Request, decision: Decision)
    ensures Create(b, id, r, decision).Ok? ==> Create(b, id, r, decision).value.0.deposits == b.deposits
  {}

  lemma CancelDeposits(b: Books, id: WithdrawalId)
    ensures Cancel(b, id).Ok? ==> Cancel(b, id).value.deposits == b.deposits
  {}

  lemma FailDeposits(b: Books, id: WithdrawalId)
    ensures FailAndRelease(b, id).Ok? ==> FailAndRelease(b, id).value.deposits == b.deposits
  {}

  lemma BroadcastDeposits(b: Books, id: WithdrawalId)
    ensures MarkBroadcast(b, id).Ok? ==> MarkBroadcast(b, id).value.deposits == b.deposits
  {}

  lemma SettleDeposits(b: Books, id: WithdrawalId, native: Option<AssetId>, fee: nat)
    ensures SettleSuccess(b, id, native, fee).Ok? ==> SettleSuccess(b, id, native, fee).value.deposits == b.deposits
    ensures SettleFailure(b, id, native, fee).Ok? ==> SettleFailure(b, id, native, fee).value.deposits == b.deposits
  {}

  lemma WorkerDeposits(s: World, action: Action)
    requires !action.DoObserve? && !action.DoConfirm? && !action.DoCredit? && !action.DoReorg?
    ensures Next(s, action).books.deposits == s.books.deposits
  {
    match action
    case DoCreate(id, r, decision) => CreateDeposits(s.books, id, r, decision);
    case DoCancel(id) => CancelDeposits(s.books, id);
    case DoRecord => if s.worker.Sent? { BroadcastDeposits(s.books, s.worker.id); }
    case DoRelease => if s.worker.Releasing? { FailDeposits(s.books, s.worker.id); }
    case DoRecover(id, status, fee) => BroadcastDeposits(s.books, id);
    case DoInFlight(id, status, native, fee) => SettleDeposits(s.books, id, native, fee);
    case _ =>
  }

  lemma CreditDeposits(b: Books, d: DepositId, chain: ChainId)
    ensures CreditConfirmed(b, d).Ok? ==> SameDeposits(b, CreditConfirmed(b, d).value, chain)
  {}

  lemma ForeignDeposits(s: World, action: Action, chain: ChainId)
    requires Inv(s.books) && Foreign(chain, action)
    ensures SameDeposits(s.books, Next(s, action).books, chain)
  {
    match action
    case DoObserve(d, u, a, amount) =>
    case DoConfirm(d, final) =>
    case DoCredit(d) => CreditDeposits(s.books, d, chain);
    case DoReorg(ds) =>
      ReorgAllowedIff(s.books, ds);
    case _ => WorkerDeposits(s, action);
  }

  // ------------------------------------------------------------------ confirmation passes ---

  lemma ConfirmOneSame(t: Tables, required: Option<nat>, height: nat, d: DepositId, chain: ChainId)
    ensures SameDeposits(t.books, ConfirmOne(t, required, height, d).books, chain)
    ensures ConfirmOne(t, required, height, d).store == t.store
  {}

  /** A pass changes the same rows as a run of `DoConfirm` steps. */
  lemma {:induction false} PassIsARun(
      w: World, s: Store, required: Option<nat>, height: nat, claimed: seq<DepositId>, chain: ChainId)
    returns (actions: seq<Action>)
    ensures var t := ConfirmPass(Tables(s, w.books), required, height, claimed);
      && t.store == s && Run(w, actions) == w.(books := t.books) && SameDeposits(w.books, t.books, chain)
  {
    if claimed == [] {
      actions := [];
    } else {
      var front, d := claimed[..|claimed| - 1], claimed[|claimed| - 1];
      var earlier := PassIsARun(w, s, required, height, front, chain);
      var m := ConfirmPass(Tables(s, w.books), required, height, front);
      ConfirmOneSame(m, required, height, d, chain);
      if StillCanonical(s, d) {
        var step := DoConfirm(d, IsConfirmed(required, height, s.transfers[d].block.Height()));
        actions := earlier + [step];
        assert actions[..|actions| - 1] == earlier;
      } else {
        actions := earlier;
      }
    }
  }

  /** The pass never meets a pending deposit whose block is not canonical. */
  lemma PendingIsCanonical(t: Tables, chain: ChainId, d: DepositId)
    requires Tracked(t, chain) && d in t.books.deposits && d.chain == chain && !t.books.deposits[d].status.Reorged?
    ensures StillCanonical(t.store, d)
  {
    assert RowTracked(t, chain, d);
  }

  // --------------------------------------------------------------- ticks as money actions ---

  lemma {:induction false} TransfersAreARun(w: World, s: Store, chain: ChainId, dir: Directory, logs: seq<Log>)
    returns (actions: seq<Action>)
    requires PersistTransfers(Tables(s, w.books), chain, dir, logs).Ok?
    ensures Run(w, actions) == w.(books := PersistTransfers(Tables(s, w.books), chain, dir, logs).value.books)
  {
    if logs == [] {
      actions := [];
    } else {
      var front, l := logs[..|logs| - 1], logs[|logs| - 1];
      var m := PersistTransfers(Tables(s, w.books), chain, dir, front).value;
      var earlier := TransfersAreARun(w, s, chain, dir, front);
      var step := TransferIsAStep(w.(books := m.books), m, chain, dir, l);
      RunSplit(w, earlier, step);
      actions := earlier + step;
    }
  }

  lemma TransferIsAStep(w: World, t: Tables, chain: ChainId, dir: Directory, l: Log) returns (actions: seq<Action>)
    requires w.books == t.books && PersistTransfer(t, chain, dir, l).Ok?
    ensures Run(w, actions) == w.(books := PersistTransfer(t, chain, dir, l).value.books)
  {
    var id := IdOf(chain, l.transfer);
    if !Resolved(dir, l.transfer) || id in t.store.transfers {
      actions := [];
    } else {
      var step := DoObserve(id, dir.owners[l.transfer.to], dir.assets[l.transfer.contract], l.transfer.amount);
      actions := [step];
      assert actions[..0] == [];
    }
  }

  lemma PersistIsARun(w: World, s: Store, chain: ChainId, dir: Directory, headers: seq<Block>)
    returns (actions: seq<Action>)
    requires Persist(Tables(s, w.books), chain, dir, headers).Ok?
    ensures Run(w, actions) == w.(books := Persist(Tables(s, w.books), chain, dir, headers).value.books)
  {
    if headers == [] {
      actions := [];
    } else {
      var grown := s.(canonical := PersistHeaders(s.canonical, headers).value);
      actions := TransfersAreARun(w, grown, chain, dir, Logs(dir, headers));
    }
  }

  /** Whatever a tick commits to the books is a run of money actions, so what holds of runs holds of ticks. */
  lemma TickIsARun(w: World, s: Store, cfg: Config, head: Block, dir: Directory, order: seq<DepositId>, prune: bool)
    returns (actions: seq<Action>)
    requires Tick(Tables(s, w.books), cfg, head, dir, order, prune).Ok?
    ensures Run(w, actions) == w.(books := Tick(Tables(s, w.books), cfg, head, dir, order, prune).value.0.books)
  {
    var t := Tables(s, w.books);
    actions := [];
    match Detect(s, head, cfg.scanDepth)
    case Err(_) =>
    case Ok(Some(a)) =>
      actions := [DoReorg(order)];
      assert actions[..0] == [];
    case Ok(None) =>
      if s.cursor.Some? {
        match NextRange(s.cursor.value.height, head.Height(), cfg.batchSize)
        case None =>
        case Some((from, to)) => actions := PersistIsARun(w, s, cfg.chain, dir, Headers(head, from, to));
      }
  }

  lemma EventIsARun(cfg: Config, s: Site, e: Event) returns (actions: seq<Action>)
    ensures Run(s.world, actions) == NextSite(cfg, s, e).world
  {
    actions := [];
    match e
    case Ticks(head, dir, order, prune) =>
      if OrderMatches(TablesOf(s), cfg, head, order) && Tick(TablesOf(s), cfg, head, dir, order, prune).Ok? {
        actions := TickIsARun(s.world, s.store, cfg, head, dir, order, prune);
      }
    case Confirms(height, claimed) =>
      actions := PassIsARun(s.world, s.store, cfg.required, height, claimed, cfg.chain);
    case Money(action) =>
      if Foreign(cfg.chain, action) {
        actions := [action];
        assert actions[..0] == [];
      }
  }

  /** Every run of the site is a run of the money system: each money theorem holds of the site. */
  lemma {:induction false} SiteIsARun(cfg: Config, events: seq<Event>) returns (actions: seq<Action>)
    ensures SiteAfter(cfg, events).world == At(actions)
  {
    if events == [] {
      actions := [];
    } else {
      var earlier := SiteIsARun(cfg, events[..|events| - 1]);
      var s := SiteAfter(cfg, events[..|events| - 1]);
      var step := EventIsARun(cfg, s, events[|events| - 1]);
      RunSplit(START, earlier, step);
      actions := earlier + step;
    }
  }

  // ----------------------------------------------------------------------- the invariant ---

  ghost predicate Watched(cfg: Config, s: Site) {
    Inv(s.world.books) && Consistent(s.store) && Tracked(TablesOf(s), cfg.chain)
  }

  lemma EventKeeps(cfg: Config, s: Site, e: Event)
    requires Watched(cfg, s)
    ensures Consistent(NextSite(cfg, s, e).store) && Tracked(TablesOf(NextSite(cfg, s, e)), cfg.chain)
  {
    match e
    case Ticks(head, dir, order, prune) =>
      if OrderMatches(TablesOf(s), cfg, head, order) && Tick(TablesOf(s), cfg, head, dir, order, prune).Ok? {
        TickKeeps(TablesOf(s), cfg, head, dir, order, prune);
      }
    case Confirms(height, claimed) =>
      var actions := PassIsARun(s.world, s.store, cfg.required, height, claimed, cfg.chain);
      SameDepositsTracked(s.store, s.world.books, ConfirmPass(TablesOf(s), cfg.required, height, claimed).books,
          cfg.chain);
    case Money(action) =>
      if Foreign(cfg.chain, action) {
        ForeignDeposits(s.world, action, cfg.chain);
        SameDepositsTracked(s.store, s.world.books, Next(s.world, action).books, cfg.chain);
      }
  }

  lemma {:induction false} AlwaysWatched(cfg: Config, events: seq<Event>)
    ensures Watched(cfg, SiteAfter(cfg, events))
  {
    var actions := SiteIsARun(cfg, events);
    AlwaysSafe(actions);
    if events != [] {
      AlwaysWatched(cfg, events[..|events| - 1]);
      EventKeeps(cfg, SiteAfter(cfg, events[..|events| - 1]), events[|events| - 1]);
    }
  }

  /** In every reachable state a deposit that is not reorged sits in a block the store holds as canonical. */
  lemma LiveDepositsAlwaysCanonical(cfg: Config, events: seq<Event>, d: DepositId)
    requires var b := SiteAfter(cfg, events).world.books;
      d.chain == cfg.chain && d in b.deposits && !b.deposits[d].status.Reorged?
    ensures StillCanonical(SiteAfter(cfg, events).store, d)
  {
    AlwaysWatched(cfg, events);
    PendingIsCanonical(TablesOf(SiteAfter(cfg, events)), cfg.chain, d);
  }

  /**
   * After any run, whenever a tick ends `Scanned`, or `Idle` with the cursor at the head, every
   * deposit that is not reorged was carried, with its amount, by a block of the chain that tick saw.
   */
  lemma LiveDepositsOnTheChain(
    cfg: Config, events: seq<Event>, head: Block, dir: Directory, order: seq<DepositId>, prune: bool, d: DepositId)
    requires var s := SiteAfter(cfg, events);
      && OrderMatches(TablesOf(s), cfg, head, order) && Tick(TablesOf(s), cfg, head, dir, order, prune).Ok?
      && var (t, outcome) := Tick(TablesOf(s), cfg, head, dir, order, prune).value;
         && (outcome.Scanned? || (outcome.Idle? && outcome.cursor == outcome.head))
         && d in t.books.deposits && d.chain == cfg.chain && !t.books.deposits[d].status.Reorged?
    ensures var (t, outcome) := Tick(TablesOf(SiteAfter(cfg, events)), cfg, head, dir, order, prune).value;
      && d in t.store.transfers && OnChain(head, t.store.transfers[d].block)
      && Carries(t.store.transfers[d].block, cfg.chain, d, t.books.deposits[d].amount)
  {
    var s := SiteAfter(cfg, events);
    AlwaysWatched(cfg, events);
    TickKeeps(TablesOf(s), cfg, head, dir, order, prune);
    var (t, outcome) := Tick(TablesOf(s), cfg, head, dir, order, prune).value;
    LiveDepositsOnChain(t, cfg.chain, head, d);
  }

  /** Every reachable store: never started, one parent-linked lineage under the cursor, or cut off from the chain. */
  lemma StoreAlwaysConsistent(cfg: Config, events: seq<Event>, h: nat)
    ensures var s := SiteAfter(cfg, events).store;
      && Consistent(s)
      && (Lineage(s) && h in s.canonical ==> h <= s.cursor.value.height && s.canonical[h].Height() == h)
      && (Lineage(s) && LowestStored(s) <= h < s.cursor.value.height ==>
            h in s.canonical && h + 1 in s.canonical && s.canonical[h + 1].Block?
              && s.canonical[h + 1].parent == s.canonical[h])
  {
    AlwaysWatched(cfg, events);
    if Lineage(SiteAfter(cfg, events).store) {
      LineageIsAChain(SiteAfter(cfg, events).store, h);
    }
  }
}
