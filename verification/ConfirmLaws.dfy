/** Which deposits a confirmation pass confirms, and what every confirmed deposit has behind it. */
module ConfirmLaws {
  import opened Prelude
  import opened Ledger
  import opened Books
  import opened BooksLaws
  import opened RefusalLaws
  import opened Pipeline
  import opened Blocks
  import opened Watcher
  import opened ForkLaws
  import opened WatcherLaws
  import opened ConvergenceLaws
  import opened ScanLaws
  import opened Site
  import opened SiteLaws

  /** The deposit's block is canonical and has the required confirmations at this head. */
  predicate Deep(s: Store, required: Option<nat>, head: nat, d: DepositId) {
    StillCanonical(s, d) && IsConfirmed(required, head, s.transfers[d].block.Height())
  }

  /** Depth in blocks: the including block is the first confirmation, and a tag policy has no depth. */
  lemma DeepEnough(s: Store, required: Option<nat>, head: nat, d: DepositId)
    requires StillCanonical(s, d)
    ensures Deep(s, required, head, d) <==>
      required.Some? && (required.value <= 1 || head + 1 >= s.transfers[d].block.Height() + required.value)
  {}

  predicate Pending(b: Books, d: DepositId) {
    d in b.deposits && (b.deposits[d].status.Observed? || b.deposits[d].status.Confirming?)
  }

  lemma {:induction false} PassKeepsStore(t: Tables, required: Option<nat>, head: nat, claimed: seq<DepositId>)
    ensures ConfirmPass(t, required, head, claimed).store == t.store
    ensures ConfirmPass(t, required, head, claimed).books.deposits.Keys == t.books.deposits.Keys
  {
    if claimed != [] {
      PassKeepsStore(t, required, head, claimed[..|claimed| - 1]);
    }
  }

  /**
   * A whole pass: a pending deposit that is claimed, in a canonical block, is confirmed if the block is
   * deep enough and confirming if not; any other deposit is left as it is, and no ledger entry is made.
   */
  lemma {:induction false} PassConfirmsExactly(
    t: Tables, required: Option<nat>, head: nat, claimed: seq<DepositId>, d: DepositId)
    requires d in t.books.deposits
    ensures var t' := ConfirmPass(t, required, head, claimed);
      && d in t'.books.deposits && t'.books.ledger == t.books.ledger && t'.books.withdrawals == t.books.withdrawals
      && t'.books.deposits[d]
         == if !Pending(t.books, d) || d !in claimed || !StillCanonical(t.store, d) then t.books.deposits[d]
            else t.books.deposits[d].(status :=
              if Deep(t.store, required, head, d) then Confirmed else DepositStatus.Confirming)
  {
    if claimed != [] {
      var front := claimed[..|claimed| - 1];
      assert claimed == front + [claimed[|claimed| - 1]];
      PassConfirmsExactly(t, required, head, front, d);
      PassKeepsStore(t, required, head, front);
    }
  }

  // -------------------------------------------------------------------------- over runs ---

  predicate Settled(b: Books, d: DepositId) {
    d in b.deposits && (b.deposits[d].status.Confirmed? || b.deposits[d].status.Credited?)
  }

  lemma ForeignNeverSettles(s: World, action: Action, d: DepositId)
    requires Inv(s.books) && Foreign(d.chain, action) && !Settled(s.books, d)
    ensures !Settled(Next(s, action).books, d)
  {
    match action
    case DoObserve(_, _, _, _) =>
    case DoConfirm(_, _) =>
    case DoCredit(x) => CreditNeverSettles(s.books, x, d);
    case DoReorg(ds) => ReorgNeverSettles(s.books, ds, d);
    case _ => WorkerDeposits(s, action);
  }

  lemma CreditNeverSettles(b: Books, x: DepositId, d: DepositId)
    requires !Settled(b, d)
    ensures CreditConfirmed(b, x).Ok? ==> !Settled(CreditConfirmed(b, x).value, d)
  {}

  lemma {:induction false} BatchNeverSettles(t: Tables, chain: ChainId, dir: Directory, logs: seq<Log>, d: DepositId)
    requires PersistTransfers(t, chain, dir, logs).Ok? && !Settled(t.books, d)
    ensures !Settled(PersistTransfers(t, chain, dir, logs).value.books, d)
  {
    if logs != [] {
      BatchNeverSettles(t, chain, dir, logs[..|logs| - 1], d);
    }
  }

  lemma TickNeverSettles(
    t: Tables, cfg: Config, head: Block, dir: Directory, order: seq<DepositId>, prune: bool, d: DepositId)
    requires Consistent(t.store) && Inv(t.books) && !Settled(t.books, d) && Tick(t, cfg, head, dir, order, prune).Ok?
    ensures !Settled(Tick(t, cfg, head, dir, order, prune).value.0.books, d)
  {
    if Scans(t, cfg, head, dir, order, prune) {
      var grown, filled := ScanParts(t, cfg, head, dir, order, prune);
      var o := Tick(t, cfg, head, dir, order, prune).value.1;
      BatchNeverSettles(grown, cfg.chain, dir, Logs(dir, Headers(head, o.from, o.to)), d);
    } else {
      ReorgNeverSettles(t.books, order, d);
    }
  }

  lemma ReorgNeverSettles(b: Books, order: seq<DepositId>, d: DepositId)
    requires Inv(b) && !Settled(b, d)
    ensures ReorgDeposits(b, order).Ok? ==> !Settled(ReorgDeposits(b, order).value, d)
  {
    ReorgAllowedIff(b, order);
  }

  /** Only a confirmation pass that claims the deposit, in a canonical and deep block, settles it. */
  lemma SettledByAPass(cfg: Config, s: Site, e: Event, d: DepositId)
    requires Watched(cfg, s) && d.chain == cfg.chain
    requires !Settled(s.world.books, d) && Settled(NextSite(cfg, s, e).world.books, d)
    ensures e.Confirms? && d in e.claimed && Deep(s.store, cfg.required, e.headHeight, d)
  {
    match e
    case Money(action) => if Foreign(cfg.chain, action) { ForeignNeverSettles(s.world, action, d); }
    case Ticks(head, dir, order, prune) =>
      if Tick(TablesOf(s), cfg, head, dir, order, prune).Ok? {
        TickNeverSettles(TablesOf(s), cfg, head, dir, order, prune, d);
      }
    case Confirms(height, claimed) =>
      PassKeepsStore(TablesOf(s), cfg.required, height, claimed);
      if d in s.world.books.deposits {
        PassConfirmsExactly(TablesOf(s), cfg.required, height, claimed, d);
      }
  }

  // ------------------------------------------------------------- a row keeps its block ---

  lemma TickKeepsBlock(
    t: Tables, cfg: Config, head: Block, dir: Directory, order: seq<DepositId>, prune: bool, d: DepositId)
    requires Consistent(t.store) && d in t.store.transfers && Tick(t, cfg, head, dir, order, prune).Ok?
    ensures var s' := Tick(t, cfg, head, dir, order, prune).value.0.store;
      d in s'.transfers && s'.transfers[d].block == t.store.transfers[d].block
  {
    if Scans(t, cfg, head, dir, order, prune) {
      var grown, filled := ScanParts(t, cfg, head, dir, order, prune);
      var o := Tick(t, cfg, head, dir, order, prune).value.1;
      BatchKeepsRows(grown, cfg.chain, dir, Logs(dir, Headers(head, o.from, o.to)), d);
    }
  }

  lemma EventKeepsBlock(cfg: Config, s: Site, e: Event, d: DepositId)
    requires Consistent(s.store) && d in s.store.transfers
    ensures var s' := NextSite(cfg, s, e).store;
      d in s'.transfers && s'.transfers[d].block == s.store.transfers[d].block
  {
    match e
    case Money(_) =>
    case Confirms(height, claimed) => PassKeepsStore(TablesOf(s), cfg.required, height, claimed);
    case Ticks(head, dir, order, prune) =>
      if Tick(TablesOf(s), cfg, head, dir, order, prune).Ok? {
        TickKeepsBlock(TablesOf(s), cfg, head, dir, order, prune, d);
      }
  }

  /** The pass at `i` claimed the deposit and saw its block canonical and deep enough. */
  ghost predicate ConfirmedAt(cfg: Config, events: seq<Event>, d: DepositId, i: int) {
    && 0 <= i < |events| && events[i].Confirms? && d in events[i].claimed
    && Deep(SiteAfter(cfg, events[..i]).store, cfg.required, events[i].headHeight, d)
  }

  /**
   * In every reachable state each confirmed or credited deposit of the chain has an earlier pass
   * that claimed it and saw the block its row still names canonical, with the required confirmations.
   */
  lemma {:induction false} ConfirmedOnlyWhenDeep(cfg: Config, events: seq<Event>, d: DepositId) returns (i: int)
    requires d.chain == cfg.chain && Settled(SiteAfter(cfg, events).world.books, d)
    ensures ConfirmedAt(cfg, events, d, i)
    ensures d in SiteAfter(cfg, events).store.transfers
    ensures SiteAfter(cfg, events).store.transfers[d].block == SiteAfter(cfg, events[..i]).store.transfers[d].block
  {
    var front, n := events[..|events| - 1], |events| - 1;
    AlwaysWatched(cfg, front);
    if Settled(SiteAfter(cfg, front).world.books, d) {
      i := ConfirmedOnlyWhenDeep(cfg, front, d);
      assert front[..i] == events[..i];
    } else {
      SettledByAPass(cfg, SiteAfter(cfg, front), events[n], d);
      i := n;
      assert events[..n] == front;
    }
    EventKeepsBlock(cfg, SiteAfter(cfg, front), events[n], d);
  }
}
