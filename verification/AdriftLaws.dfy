/** A cursor rewound below what is stored: exactly when the watcher scans again on a chain that stands still. */
module AdriftLaws {
  import opened Prelude
  import opened Ledger
  import opened Books
  import opened BooksLaws
  import opened RefusalLaws
  import opened Blocks
  import opened Watcher
  import opened ForkLaws
  import opened WatcherLaws
  import opened ConvergenceLaws
  import opened Site
  import opened SiteLaws
  import opened ScanLaws

  /**
   * Going down from height `h`, with the last `run` heights stored and not on the chain: a stored
   * block of the chain comes before `depth` such heights in a row and before the genesis height.
   */
  predicate Recovers(canonical: map<nat, Block>, head: Block, h: nat, run: nat, depth: nat)
    decreases h
  {
    && h > 0 && run < depth
    && (if h - 1 !in canonical then Recovers(canonical, head, h - 1, 0, depth)
        else HeaderAt(head, h - 1) == Some(canonical[h - 1]) || Recovers(canonical, head, h - 1, run + 1, depth))
  }

  /** Only the rows below the height matter. */
  lemma {:induction false} RecoversBelow(
      c: map<nat, Block>, c': map<nat, Block>, head: Block, h: nat, run: nat, depth: nat)
    requires forall k :: k < h ==> (k in c <==> k in c') && (k in c ==> c[k] == c'[k])
    ensures Recovers(c, head, h, run, depth) <==> Recovers(c', head, h, run, depth)
    decreases h
  {
    if h > 0 {
      RecoversBelow(c, c', head, h - 1, 0, depth);
      RecoversBelow(c, c', head, h - 1, run + 1, depth);
    }
  }

  /** One walk-back ends in an error, at a stored block of the chain, or at a height that is not stored. */
  lemma {:induction false} WalkMeets(canonical: map<nat, Block>, head: Block, start: nat, height: nat, depth: nat)
    requires height <= start && start - height <= depth
    ensures var r := WalkBack(canonical, head, height, Floor(start, depth));
      && (r.Err? ==> !Recovers(canonical, head, height, start - height, depth))
      && (r.Ok? ==>
            && r.value.Some? && r.value.value < height
            && var a := r.value.value;
               && (a in canonical ==>
                     && HeaderAt(head, a) == Some(canonical[a])
                     && Recovers(canonical, head, height, start - height, depth))
               && (a !in canonical ==>
                     (Recovers(canonical, head, height, start - height, depth) <==>
                       Recovers(canonical, head, a, 0, depth))))
    decreases height
  {
    if height > Floor(start, depth) && height - 1 in canonical
      && HeaderAt(head, height - 1) != Some(canonical[height - 1])
    {
      WalkMeets(canonical, head, start, height - 1, depth);
    }
  }

  /** Cut off, below the head of the chain. */
  ghost predicate AdriftBelow(s: Store, head: Block) { Adrift(s) && s.cursor.value.height <= head.Height() }

  ghost predicate CanRecover(s: Store, head: Block, depth: nat)
    requires s.cursor.Some?
  {
    Recovers(s.canonical, head, s.cursor.value.height, 0, depth)
  }

  lemma AdriftDetects(s: Store, head: Block, depth: nat)
    requires AdriftBelow(s, head)
    ensures var r := Detect(s, head, depth);
      && (r.Err? ==> !CanRecover(s, head, depth))
      && (r.Ok? ==>
            && r.value.Some? && r.value.value < s.cursor.value.height
            && var a := r.value.value;
               && (a in s.canonical ==> HeaderAt(head, a) == Some(s.canonical[a]) && CanRecover(s, head, depth))
               && (a !in s.canonical ==> (CanRecover(s, head, depth) <==> CanRecover(RollBack(s, a), head, depth))))
  {
    var c := s.cursor.value.height;
    WalkMeets(s.canonical, head, c, c, depth);
    var r := Detect(s, head, depth);
    if r.Ok? && r.value.Some? {
      var a := r.value.value;
      RecoversBelow(s.canonical, Kept(s.canonical, a), head, a, 0, depth);
    }
  }

  /** Where an accepted rewind leads. */
  lemma AdriftRewinds(s: Store, head: Block, depth: nat, a: nat)
    requires AdriftBelow(s, head) && Detect(s, head, depth) == Ok(Some(a))
    ensures a in s.canonical ==> Lineage(RollBack(s, a)) && OnChain(head, Tip(RollBack(s, a)))
    ensures a !in s.canonical ==> AdriftBelow(RollBack(s, a), head)
  {
    AdriftDetects(s, head, depth);
    var x :| OneChain(s.canonical, x);
    KeptLineage(s, x, a);
    if a in s.canonical {
      assert HeaderAt(x, a) == Some(s.canonical[a]);
    }
  }

  // --------------------------------------------------------------- when it never scans again ---

  function SiteFrom(cfg: Config, s: Site, events: seq<Event>): Site {
    if events == [] then s else NextSite(cfg, SiteFrom(cfg, s, events[..|events| - 1]), events[|events| - 1])
  }

  ghost predicate StillChain(events: seq<Event>, head: Block) {
    forall i :: 0 <= i < |events| && events[i].Ticks? ==> events[i].head == head
  }

  ghost predicate Lost(s: Store, head: Block, depth: nat) { AdriftBelow(s, head) && !CanRecover(s, head, depth) }

  /** A cursor with the zero hash does not scan: the tick rewinds again, waits or fails. */
  lemma AdriftNeverScans(t: Tables, cfg: Config, head: Block, dir: Directory, order: seq<DepositId>, prune: bool)
    requires Adrift(t.store)
    ensures !Scans(t, cfg, head, dir, order, prune)
  {
    var tip := t.store.cursor.value.height;
    WalkBackBelow(t.store.canonical, head, tip, Floor(tip, cfg.scanDepth));
  }

  lemma LostTick(t: Tables, cfg: Config, head: Block, dir: Directory, order: seq<DepositId>, prune: bool)
    requires Lost(t.store, head, cfg.scanDepth) && Tick(t, cfg, head, dir, order, prune).Ok?
    ensures var (t', outcome) := Tick(t, cfg, head, dir, order, prune).value;
      outcome.Reorged? && Lost(t'.store, head, cfg.scanDepth)
  {
    AdriftDetects(t.store, head, cfg.scanDepth);
    var a := Detect(t.store, head, cfg.scanDepth).value.value;
    AdriftRewinds(t.store, head, cfg.scanDepth, a);
  }

  lemma LostEvent(cfg: Config, s: Site, e: Event, head: Block)
    requires Lost(s.store, head, cfg.scanDepth) && (e.Ticks? ==> e.head == head)
    ensures Lost(NextSite(cfg, s, e).store, head, cfg.scanDepth)
  {
    match e
    case Money(_) =>
    case Confirms(height, claimed) =>
      var actions := PassIsARun(s.world, s.store, cfg.required, height, claimed, cfg.chain);
    case Ticks(_, dir, order, prune) =>
      if Tick(TablesOf(s), cfg, head, dir, order, prune).Ok? {
        LostTick(TablesOf(s), cfg, head, dir, order, prune);
      }
  }

  lemma {:induction false} LostForGood(cfg: Config, s: Site, events: seq<Event>, head: Block)
    requires Lost(s.store, head, cfg.scanDepth) && StillChain(events, head)
    ensures Lost(SiteFrom(cfg, s, events).store, head, cfg.scanDepth)
  {
    if events != [] {
      LostForGood(cfg, s, events[..|events| - 1], head);
      LostEvent(cfg, SiteFrom(cfg, s, events[..|events| - 1]), events[|events| - 1], head);
    }
  }

  /**
   * While the chain stands still, a cut-off watcher that cannot recover never scans again: whatever
   * money actions, confirmations and ticks come before, no tick among the events scans.
   */
  lemma NeverScansAgain(cfg: Config, s: Site, events: seq<Event>, head: Block, i: nat)
    requires Lost(s.store, head, cfg.scanDepth) && StillChain(events, head) && i < |events| && events[i].Ticks?
    ensures var e, before := events[i], SiteFrom(cfg, s, events[..i]);
      && Lost(before.store, head, cfg.scanDepth)
      && !Scans(TablesOf(before), cfg, e.head, e.dir, e.order, e.prune)
  {
    var e, before := events[i], SiteFrom(cfg, s, events[..i]);
    LostForGood(cfg, s, events[..i], head);
    AdriftNeverScans(TablesOf(before), cfg, e.head, e.dir, e.order, e.prune);
  }

  // ------------------------------------------------------------------- when it scans again ---

  /** Custody covers taking back every live deposit of the chain. */
  ghost predicate Covered(t: Tables, all: seq<DepositId>) {
    CustodyCovers(t.books, all) && forall d :: d in t.store.transfers && !t.store.transfers[d].orphaned ==> d in all
  }

  lemma OwedWithin(b: Books, ds: seq<DepositId>, all: seq<DepositId>, a: AssetId)
    requires Inv(b) && forall d :: d in ds ==> d in all
    ensures Owed(b, ds, a) <= Owed(b, all, a)
  {
    forall d | d in b.deposits ensures TakenBack(ds, a)(d, b.deposits[d]) <= TakenBack(all, a)(d, b.deposits[d]) {
      DepositFact(b, d);
    }
    SumMapLe(b.deposits, TakenBack(ds, a), TakenBack(all, a));
  }

  lemma OwedAfter(b: Books, ds: seq<DepositId>, b': Books, all: seq<DepositId>, a: AssetId)
    requires Reorganised(b, ds, b') && forall d :: d in ds ==> d in all
    ensures Owed(b', all, a) == Owed(b, all, a) - Owed(b, ds, a)
  {
    SumMapChange(b.deposits, b'.deposits, TakenBack(all, a), TakenBack(ds, a));
  }

  lemma StillCovered(b: Books, ds: seq<DepositId>, b': Books, all: seq<DepositId>)
    requires Inv(b) && Reorganised(b, ds, b') && CustodyCovers(b, all) && forall d :: d in ds ==> d in all
    ensures CustodyCovers(b', all)
  {
    forall a {:trigger System(Custody, a)} ensures Balance(b'.ledger, System(Custody, a)) >= Owed(b', all, a) {
      OwedAfter(b, ds, b', all, a);
    }
  }

  /** The rewind of a covered store is accepted, in whatever order the deposits come. */
  lemma CoveredRewind(t: Tables, chain: ChainId, a: nat, order: seq<DepositId>, all: seq<DepositId>)
    requires Tracked(t, chain) && Inv(t.books) && Covered(t, all) && Enumerates(order, Abandoned(t.store, a))
    ensures var r := Handle(t, a, order);
      && r.Ok? && r.value.store == RollBack(t.store, a)
      && Tracked(r.value, chain) && Inv(r.value.books) && Covered(r.value, all)
  {
    forall d | d in order ensures d in all {
      assert d in (set x | x in order);
      assert d in Abandoned(t.store, a);
    }
    forall a {:trigger System(Custody, a)}
      ensures Balance(t.books.ledger, System(Custody, a)) >= Owed(t.books, order, a)
    {
      OwedWithin(t.books, order, all, a);
    }
    ReorgAllowedIff(t.books, order);
    var b := ReorgDeposits(t.books, order).value;
    ReorgAllKeeps(t.books, order);
    HandleTracked(t, chain, a, order, b);
    StillCovered(t.books, order, b, all);
  }

  /** On the chain again, below its head: from here the convergence theorem applies with no further reorg. */
  ghost predicate Resumed(t: Tables, cfg: Config, head: Block) {
    t.store.cursor.Some? && t.store.cursor.value.height < head.Height()
      && Recoverable(t, cfg, head, t.store.cursor.value.height)
  }

  lemma OnChainIsRecoverable(t: Tables, cfg: Config, head: Block)
    requires Lineage(t.store) && OnChain(head, Tip(t.store)) && Tracked(t, cfg.chain) && Inv(t.books)
    ensures Recoverable(t, cfg, head, t.store.cursor.value.height)
  {
    assert AgreeAt(Tip(t.store), head, t.store.cursor.value.height);
  }

  /** A cut-off watcher that can recover, with custody to do so. */
  ghost predicate Recovering(t: Tables, cfg: Config, head: Block, all: seq<DepositId>) {
    && AdriftBelow(t.store, head) && CanRecover(t.store, head, cfg.scanDepth)
    && Tracked(t, cfg.chain) && Inv(t.books) && Covered(t, all)
  }

  /** Every tick of it, in whatever order the deposits come, is accepted and resumes or rewinds further. */
  lemma RecoveringTick(
      t: Tables, cfg: Config, head: Block, dir: Directory, order: seq<DepositId>, prune: bool, all: seq<DepositId>)
    requires Recovering(t, cfg, head, all) && OrderFits(t, cfg, head, order)
    ensures var r := Tick(t, cfg, head, dir, order, prune);
      && r.Ok? && r.value.1.Reorged? && r.value.0.store.cursor.Some?
      && r.value.0.store.cursor.value.height < t.store.cursor.value.height
      && (Resumed(r.value.0, cfg, head) || Recovering(r.value.0, cfg, head, all))
  {
    AdriftDetects(t.store, head, cfg.scanDepth);
    var a := Detect(t.store, head, cfg.scanDepth).value.value;
    AdriftRewinds(t.store, head, cfg.scanDepth, a);
    CoveredRewind(t, cfg.chain, a, order, all);
    var t' := Handle(t, a, order).value;
    if a in t.store.canonical {
      OnChainIsRecoverable(t', cfg, head);
    }
  }

  lemma {:induction false} Listing(ds: set<DepositId>) returns (order: seq<DepositId>)
    ensures Enumerates(order, ds)
    decreases |ds|
  {
    if ds == {} {
      order := [];
    } else {
      var d :| d in ds;
      var rest := Listing(ds - {d});
      order := rest + [d];
      assert (set x | x in order) == (set x | x in rest) + {d};
      assert forall i :: 0 <= i < |rest| ==> rest[i] in (set x | x in rest);
    }
  }

  /** Ticks on a chain that stands still, with the order of deposits each finds. */
  function TickAll(
      t: Tables, cfg: Config, head: Block, dir: Directory, prune: bool, orders: seq<seq<DepositId>>): Result<Tables>
    decreases |orders|
  {
    if orders == [] then Ok(t)
    else
      match Tick(t, cfg, head, dir, orders[0], prune)
      case Err(e) => Err(e)
      case Ok((m, _)) => TickAll(m, cfg, head, dir, prune, orders[1..])
  }

  ghost predicate AllFit(t: Tables, cfg: Config, head: Block, dir: Directory, prune: bool, orders: seq<seq<DepositId>>)
    decreases |orders|
  {
    orders == [] ||
    (&& OrderFits(t, cfg, head, orders[0])
     && match Tick(t, cfg, head, dir, orders[0], prune)
        case Err(_) => true
        case Ok((m, _)) => AllFit(m, cfg, head, dir, prune, orders[1..]))
  }

  ghost predicate Resumes(
      t: Tables, cfg: Config, head: Block, dir: Directory, prune: bool, orders: seq<seq<DepositId>>) {
    && AllFit(t, cfg, head, dir, prune, orders)
    && TickAll(t, cfg, head, dir, prune, orders).Ok?
    && Resumed(TickAll(t, cfg, head, dir, prune, orders).value, cfg, head)
  }

  lemma ResumesLater(
      t: Tables, m: Tables, cfg: Config, head: Block, dir: Directory, prune: bool, order: seq<DepositId>,
      rest: seq<seq<DepositId>>)
    requires OrderFits(t, cfg, head, order) && Tick(t, cfg, head, dir, order, prune).Ok?
    requires Tick(t, cfg, head, dir, order, prune).value.0 == m && Resumes(m, cfg, head, dir, prune, rest)
    ensures Resumes(t, cfg, head, dir, prune, [order] + rest)
  {
    assert ([order] + rest)[0] == order && ([order] + rest)[1..] == rest;
  }

  lemma {:induction false} RecoveringResumes(
      t: Tables, cfg: Config, head: Block, dir: Directory, prune: bool, all: seq<DepositId>)
    returns (orders: seq<seq<DepositId>>)
    requires Recovering(t, cfg, head, all)
    ensures Resumes(t, cfg, head, dir, prune, orders) && |orders| <= t.store.cursor.value.height
    decreases t.store.cursor.value.height
  {
    AdriftDetects(t.store, head, cfg.scanDepth);
    var order := Listing(Abandoned(t.store, Detect(t.store, head, cfg.scanDepth).value.value));
    RecoveringTick(t, cfg, head, dir, order, prune, all);
    var m := Tick(t, cfg, head, dir, order, prune).value.0;
    var rest: seq<seq<DepositId>> := [];
    if !Resumed(m, cfg, head) {
      rest := RecoveringResumes(m, cfg, head, dir, prune, all);
    }
    ResumesLater(t, m, cfg, head, dir, prune, order, rest);
    orders := [order] + rest;
  }

  lemma {:induction false} LostNeverResumes(
      t: Tables, cfg: Config, head: Block, dir: Directory, prune: bool, orders: seq<seq<DepositId>>)
    requires Lost(t.store, head, cfg.scanDepth)
    ensures !Resumes(t, cfg, head, dir, prune, orders)
    decreases |orders|
  {
    if orders != [] && Tick(t, cfg, head, dir, orders[0], prune).Ok? {
      LostTick(t, cfg, head, dir, orders[0], prune);
      LostNeverResumes(Tick(t, cfg, head, dir, orders[0], prune).value.0, cfg, head, dir, prune, orders[1..]);
    }
  }

  /**
   * On a chain that stands still, and with custody for what is taken back, a cut-off watcher gets
   * back on the chain exactly when, going down from the cursor, it meets a stored block of the
   * chain before as many stored blocks in a row that are not on it as the scan depth allows.
   */
  lemma ScansAgainIff(t: Tables, cfg: Config, head: Block, dir: Directory, prune: bool, all: seq<DepositId>)
    requires AdriftBelow(t.store, head) && Tracked(t, cfg.chain) && Inv(t.books) && Covered(t, all)
    ensures (exists orders :: Resumes(t, cfg, head, dir, prune, orders)) <==> CanRecover(t.store, head, cfg.scanDepth)
  {
    if CanRecover(t.store, head, cfg.scanDepth) {
      var orders := RecoveringResumes(t, cfg, head, dir, prune, all);
    } else {
      forall orders ensures !Resumes(t, cfg, head, dir, prune, orders) {
        LostNeverResumes(t, cfg, head, dir, prune, orders);
      }
    }
  }
}
