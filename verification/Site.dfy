/** The money system together with one chain's watcher and confirmation engine. */
module Site {
  import opened Prelude
  import opened Ledger
  import opened Books
  import opened Pipeline
  import opened Blocks
  import opened Watcher

  /** `first` and `top` remember where the watcher started and the highest height it has scanned. */
  datatype Site = Site(world: World, store: Store, first: nat, top: nat)

  const NEW_SITE: Site := Site(START, Store(map[], None, map[]), 0, 0)

  datatype Event =
    | Ticks(head: Block, dir: Directory, order: seq<DepositId>, prune: bool)
    | Confirms(headHeight: nat, claimed: seq<DepositId>)
    | Money(action: Action)

  /** The watcher alone observes, confirms and reorganises its chain's deposits. */
  predicate Foreign(chain: ChainId, action: Action) {
    match action
    case DoObserve(d, _, _, _) => d.chain != chain
    case DoConfirm(d, _) => d.chain != chain
    case DoReorg(ds) => forall d :: d in ds ==> d.chain != chain
    case _ => true
  }

  function TablesOf(s: Site): Tables { Tables(s.store, s.world.books) }

  function WithTables(s: Site, t: Tables): Site { s.(store := t.store, world := s.world.(books := t.books)) }

  predicate OrderMatches(t: Tables, cfg: Config, head: Block, order: seq<DepositId>) {
    match Detect(t.store, head, cfg.scanDepth)
    case Ok(Some(a)) => Enumerates(order, Abandoned(t.store, a))
    case _ => true
  }

  function AfterTick(s: Site, t: Tables, outcome: Outcome): Site {
    var s' := WithTables(s, t);
    match outcome
    case Initialised(at) => s'.(first := at, top := at)
    case Scanned(_, to, _) => s'.(top := if to > s.top then to else s.top)
    case _ => s'
  }

  /** A tick that fails, and a money action outside the model, leave everything as it was. */
  function NextSite(cfg: Config, s: Site, e: Event): Site {
    match e
    case Ticks(head, dir, order, prune) =>
      if !OrderMatches(TablesOf(s), cfg, head, order) then s
      else
        (match Tick(TablesOf(s), cfg, head, dir, order, prune)
         case Err(_) => s
         case Ok((t, outcome)) => AfterTick(s, t, outcome))
    case Confirms(height, claimed) => WithTables(s, ConfirmPass(TablesOf(s), cfg.required, height, claimed))
    case Money(action) => if Foreign(cfg.chain, action) then s.(world := Next(s.world, action)) else s
  }

  function SiteAfter(cfg: Config, events: seq<Event>): Site {
    if events == [] then NEW_SITE
    else NextSite(cfg, SiteAfter(cfg, events[..|events| - 1]), events[|events| - 1])
  }
}
