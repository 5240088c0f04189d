/** Pruning, the detection window it leaves, and when detection can run out of stored blocks. */
module RetentionLaws {
  import opened Prelude
  import opened Ledger
  import opened Books
  import opened BooksLaws
  import opened Blocks
  import opened Watcher
  import opened ForkLaws
  import opened WatcherLaws
  import opened Site
  import opened SiteLaws

  /** Stored: everything from the first block to the cursor, except what lies four windows below `top`. */
  ghost predicate Retained(s: Store, first: nat, top: nat, depth: nat) {
    s.cursor.Some? ==> forall h :: first <= h <= s.cursor.value.height && h + 4 * depth >= top ==> h in s.canonical
  }

  lemma HandleRetains(s: Store, a: nat, first: nat, top: nat, depth: nat)
    requires Retained(s, first, top, depth) && s.cursor.Some? && a < s.cursor.value.height
    ensures Retained(RollBack(s, a), first, top, depth)
  {}

  lemma ScanRetains(
      s: Store, grown: map<nat, Block>, head: Block, to: nat, first: nat, top: nat, depth: nat, below: nat, s': Store)
    requires s.cursor.Some? && Retained(s, first, top, depth) && s.cursor.value.height < to <= head.Height()
    requires Grown(s.canonical, grown, head, s.cursor.value.height + 1, to)
    requires s'.cursor.Some? && s'.cursor.value.height == to && below + 4 * depth <= Max(to, 4 * depth)
    requires forall h :: h in grown && h >= below ==> h in s'.canonical
    ensures Retained(s', first, Max(top, to), depth)
  {}

  lemma TickRetains(t: Tables, cfg: Config, head: Block, dir: Directory, prune: bool, first: nat, top: nat)
    requires Lineage(t.store) && Tracked(t, cfg.chain) && OnChain(head, Tip(t.store))
    requires Retained(t.store, first, top, cfg.scanDepth)
    requires Scan(t, cfg, head, dir, prune).Ok? && Scan(t, cfg, head, dir, prune).value.1.Scanned?
    ensures var (t', outcome) := Scan(t, cfg, head, dir, prune).value;
      Retained(t'.store, first, Max(top, outcome.to), cfg.scanDepth)
  {
    var (from, to) := NextRange(t.store.cursor.value.height, head.Height(), cfg.batchSize).value;
    var m := Persist(t, cfg.chain, dir, Headers(head, from, to)).value;
    PersistEffect(t, cfg.chain, dir, head, from, to, m);
    var below := if to > 4 * cfg.scanDepth then to - 4 * cfg.scanDepth else 0;
    ScanRetains(t.store, m.store.canonical, head, to, first, top, cfg.scanDepth, below,
        Scan(t, cfg, head, dir, prune).value.0.store);
  }

  lemma ReorgRetains(s: Store, head: Block, first: nat, top: nat, depth: nat, a: nat)
    requires Retained(s, first, top, depth) && s.cursor.Some? && Detect(s, head, depth) == Ok(Some(a))
    ensures Retained(RollBack(s, a), first, top, depth)
  {
    var tip := s.cursor.value.height;
    WalkBackBelow(s.canonical, head, tip, Floor(tip, depth));
    HandleRetains(s, a, first, top, depth);
  }

  lemma NextTickRetains(cfg: Config, s: Site, head: Block, dir: Directory, order: seq<DepositId>, prune: bool)
    requires Consistent(s.store) && Tracked(TablesOf(s), cfg.chain) && Retained(s.store, s.first, s.top, cfg.scanDepth)
    requires Tick(TablesOf(s), cfg, head, dir, order, prune).Ok?
    ensures var (t, outcome) := Tick(TablesOf(s), cfg, head, dir, order, prune).value;
      var s' := AfterTick(s, t, outcome); Retained(s'.store, s'.first, s'.top, cfg.scanDepth)
  {
    match Detect(s.store, head, cfg.scanDepth)
    case Err(_) =>
    case Ok(Some(a)) => ReorgRetains(s.store, head, s.first, s.top, cfg.scanDepth, a);
    case Ok(None) =>
      if s.store.cursor.Some? && s.store.cursor.value.height < head.Height() {
        NoReorgMeans(s.store, head, cfg.scanDepth);
        TickRetains(TablesOf(s), cfg, head, dir, prune, s.first, s.top);
      }
  }

  lemma EventRetains(cfg: Config, s: Site, e: Event)
    requires Watched(cfg, s) && Retained(s.store, s.first, s.top, cfg.scanDepth)
    ensures var s' := NextSite(cfg, s, e); Retained(s'.store, s'.first, s'.top, cfg.scanDepth)
  {
    match e
    case Money(_) =>
    case Confirms(height, claimed) =>
      var actions := PassIsARun(s.world, s.store, cfg.required, height, claimed, cfg.chain);
    case Ticks(head, dir, order, prune) =>
      if Tick(TablesOf(s), cfg, head, dir, order, prune).Ok? {
        NextTickRetains(cfg, s, head, dir, order, prune);
      }
  }

  /** Over every run, only blocks more than four windows below the highest scanned height are ever gone. */
  lemma {:induction false} AlwaysRetained(cfg: Config, events: seq<Event>)
    ensures var s := SiteAfter(cfg, events); Retained(s.store, s.first, s.top, cfg.scanDepth)
  {
    if events != [] {
      AlwaysRetained(cfg, events[..|events| - 1]);
      AlwaysWatched(cfg, events[..|events| - 1]);
      EventRetains(cfg, SiteAfter(cfg, events[..|events| - 1]), events[|events| - 1]);
    }
  }

  /**
   * The whole detection window is stored, as far back as the watcher's first block, unless reorgs
   * have pulled the cursor more than three windows below the highest height ever scanned.
   */
  lemma WindowStored(cfg: Config, events: seq<Event>, h: nat)
    requires var s := SiteAfter(cfg, events);
      && s.store.cursor.Some? && s.store.cursor.value.height + 3 * cfg.scanDepth >= s.top
      && s.first <= h <= s.store.cursor.value.height && Floor(s.store.cursor.value.height, cfg.scanDepth) <= h
    ensures h in SiteAfter(cfg, events).store.canonical
  {
    AlwaysRetained(cfg, events);
  }

  lemma DeadEnd(s: Store, first: nat, top: nat, depth: nat, head: Block, f: nat)
    requires Lineage(s) && Retained(s, first, top, depth) && IsFork(Tip(s), head, f)
    ensures var r := Detect(s, head, depth);
      r.Ok? && r.value.Some? && r.value.value !in s.canonical ==> f < first || s.cursor.value.height + 3 * depth < top
  {
    DetectExact(s, head, depth, f);
    var low, floor := LowestStored(s), Floor(s.cursor.value.height, depth);
    if low > 0 {
      StoredJustBelow(s, first, top, depth, low - 1);
    }
  }

  lemma StoredJustBelow(s: Store, first: nat, top: nat, depth: nat, h: nat)
    requires s.cursor.Some? && Retained(s, first, top, depth)
    ensures first <= h <= s.cursor.value.height && h + 4 * depth >= top ==> h in s.canonical
  {}

  /** Detection runs off the stored blocks only for a fork below the first block, or after such a pull-back. */
  lemma DeadEndOnlyIf(cfg: Config, events: seq<Event>, head: Block, f: nat)
    requires var s := SiteAfter(cfg, events).store;
      Lineage(s) && IsFork(Tip(s), head, f)
    ensures var s := SiteAfter(cfg, events); var r := Detect(s.store, head, cfg.scanDepth);
      r.Ok? && r.value.Some? && r.value.value !in s.store.canonical ==>
        f < s.first || s.store.cursor.value.height + 3 * cfg.scanDepth < s.top
  {
    AlwaysRetained(cfg, events);
    var s := SiteAfter(cfg, events);
    DeadEnd(s.store, s.first, s.top, cfg.scanDepth, head, f);
  }
}
