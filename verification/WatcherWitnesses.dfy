/** Runs of the watcher from a new site that reach the states where it falls short of its comments. */
module WatcherWitnesses {
  import opened Prelude
  import opened Ledger
  import opened Books
  import opened BooksLaws
  import opened RefusalLaws
  import opened Blocks
  import opened Watcher
  import opened ForkLaws
  import opened WatcherLaws
  import opened ConvergenceLaws
  import opened LimitLaws
  import opened ScanLaws
  import opened Site
  import opened SiteLaws
  import Codec

  const CFG: Config := Config(0, 1, 1, Some(1), Some(1))

  /** Everything in this world has number zero. */
  const DIR: Directory := Directory({0}, {0}, map[0 := 0], map[0 := 0])

  function Paying(amount: nat): Transfer { Transfer(0, 0, 0, 0, amount) }

  function FirstBlock(salt: nat, amount: nat): Block { Block(Genesis, salt, [Paying(amount)]) }

  function TickOn(head: Block): Event { Ticks(head, DIR, [], true) }

  lemma Extend(cfg: Config, events: seq<Event>, e: Event)
    ensures SiteAfter(cfg, events + [e]) == NextSite(cfg, SiteAfter(cfg, events), e)
  {
    assert (events + [e])[..|events + [e]| - 1] == events;
  }

  // ------------------------------------------------------------------------ a cold start ---

  const STARTED: Store := Store(map[0 := Genesis], Some(Cursor(0, Some(Genesis))), map[])

  lemma Starts()
    ensures SiteAfter(CFG, [TickOn(Genesis)]) == NEW_SITE.(store := STARTED)
  {
    Extend(CFG, [], TickOn(Genesis));
    assert [] + [TickOn(Genesis)] == [TickOn(Genesis)];
    assert SiteAfter(CFG, []) == NEW_SITE;
  }

  lemma StartedIsALineage()
    ensures Lineage(STARTED) && Consistent(STARTED) && Tracked(Tables(STARTED, NO_BOOKS), 0)
  {}

  lemma OneLog(salt: nat, amount: nat)
    ensures var b := FirstBlock(salt, amount);
      && Headers(b, 1, 1) == [b] && OnChain(b, Genesis)
      && Logs(DIR, [b]) == if Codec.Decodable(amount) then [Log(b, Paying(amount))] else []
  {
    var b, x := FirstBlock(salt, amount), Paying(amount);
    assert [b][..0] == [] && [x][..0] == [];
    assert Logs(DIR, [b]) == Logs(DIR, [b][..0]) + LogsOf(DIR, b, [x]);
    assert LogsOf(DIR, b, [x]) == LogsOf(DIR, b, [x][..0]) + if Visible(DIR, x) then [Log(b, x)] else [];
    assert HeaderAt(b, 0) == HeaderAt(Genesis, 0);
  }

  /** The first scan fails exactly for a zero-value transfer. */
  lemma FirstScan(salt: nat, amount: nat)
    ensures var r := Tick(Tables(STARTED, NO_BOOKS), CFG, FirstBlock(salt, amount), DIR, [], true);
      && (r.Err? <==> amount == 0)
      && (r.Ok? ==> r.value.1 == Scanned(1, 1, 1))
  {
    var b, t := FirstBlock(salt, amount), Tables(STARTED, NO_BOOKS);
    StartedIsALineage();
    OneLog(salt, amount);
    ScanFailsIff(t, CFG, b, DIR, [], true);
    var logs := Logs(DIR, [b]);
    if amount == 0 {
      Codec.ZeroIsDecodable();
      assert RefusedAt(t, 0, DIR, logs, 0);
    } else {
      assert forall i :: !RefusedAt(t, 0, DIR, logs, i);
      FollowingTickScans(t, CFG, b, DIR, [], true);
    }
  }

  // ------------------------------------------------------------------- a zero-value transfer ---

  /** From a new site: a block with a zero-value transfer makes every tick on it fail, however often it is tried. */
  lemma {:induction false} ZeroValueStalls(salt: nat, tries: nat) returns (events: seq<Event>)
    ensures events == [TickOn(Genesis)] + seq(tries, _ => TickOn(FirstBlock(salt, 0)))
    ensures SiteAfter(CFG, events) == NEW_SITE.(store := STARTED)
    ensures Tick(TablesOf(SiteAfter(CFG, events)), CFG, FirstBlock(salt, 0), DIR, [], true).Err?
  {
    events := [TickOn(Genesis)] + seq(tries, _ => TickOn(FirstBlock(salt, 0)));
    FirstScan(salt, 0);
    if tries == 0 {
      Starts();
      assert events == [TickOn(Genesis)];
    } else {
      var earlier := ZeroValueStalls(salt, tries - 1);
      assert events == earlier + [TickOn(FirstBlock(salt, 0))];
      Extend(CFG, earlier, TickOn(FirstBlock(salt, 0)));
    }
  }

  // ------------------------------------------------------------------ a transfer passed over ---

  /**
   * From a new site: the block of a transfer of 16^31 or more is scanned, the cursor is at it, and
   * neither a row nor a deposit was made.
   */
  lemma LargeTransferPassed(salt: nat, amount: nat)
    requires !Codec.Decodable(amount)
    ensures var s := SiteAfter(CFG, [TickOn(Genesis), TickOn(FirstBlock(salt, amount))]);
      && s.store.cursor == Some(Cursor(1, Some(FirstBlock(salt, amount))))
      && s.store.transfers == map[] && s.world.books == NO_BOOKS
  {
    var b, t := FirstBlock(salt, amount), Tables(STARTED, NO_BOOKS);
    Starts();
    Extend(CFG, [TickOn(Genesis)], TickOn(b));
    assert [TickOn(Genesis)] + [TickOn(b)] == [TickOn(Genesis), TickOn(b)];
    StartedIsALineage();
    Codec.ZeroIsDecodable();
    FirstScan(salt, amount);
    OneLog(salt, amount);
    var grown, filled := ScanParts(t, CFG, b, DIR, [], true);
    assert filled == grown;
  }

  // ------------------------------------------------------------------ a stale address snapshot ---

  /** The address is issued, and not yet in the watcher's snapshot. */
  const STALE: Directory := DIR.(tracked := {})

  lemma NoLog(salt: nat, amount: nat)
    ensures Logs(STALE, [FirstBlock(salt, amount)]) == []
  {
    var b, x := FirstBlock(salt, amount), Paying(amount);
    assert [b][..0] == [] && [x][..0] == [];
    assert Logs(STALE, [b]) == Logs(STALE, [b][..0]) + LogsOf(STALE, b, [x]);
    assert LogsOf(STALE, b, [x]) == LogsOf(STALE, b, [x][..0]) + if Visible(STALE, x) then [Log(b, x)] else [];
  }

  /** The cursor is at the block, and nothing was recorded. */
  ghost predicate PassedOver(s: Site, b: Block) {
    s.store.cursor == Some(Cursor(1, Some(b))) && s.store.transfers == map[] && s.world.books == NO_BOOKS
  }

  lemma StaleScan(salt: nat, amount: nat)
    ensures PassedOver(SiteAfter(CFG, [TickOn(Genesis), Ticks(FirstBlock(salt, amount), STALE, [], true)]),
        FirstBlock(salt, amount))
  {
    var b, t := FirstBlock(salt, amount), Tables(STARTED, NO_BOOKS);
    Starts();
    Extend(CFG, [TickOn(Genesis)], Ticks(b, STALE, [], true));
    assert [TickOn(Genesis)] + [Ticks(b, STALE, [], true)] == [TickOn(Genesis), Ticks(b, STALE, [], true)];
    StartedIsALineage();
    OneLog(salt, amount);
    NoLog(salt, amount);
    NoForkFrom(STARTED, b);
    ScanFailsIff(t, CFG, b, STALE, [], true);
    assert forall i :: !RefusedAt(t, 0, STALE, [], i);
    FollowingTickScans(t, CFG, b, STALE, [], true);
    var grown, filled := ScanParts(t, CFG, b, STALE, [], true);
    assert filled == grown;
  }

  function StaleRun(salt: nat, amount: nat, tries: nat): seq<Event> {
    [TickOn(Genesis), Ticks(FirstBlock(salt, amount), STALE, [], true)]
      + seq(tries, _ => TickOn(FirstBlock(salt, amount)))
  }

  /**
   * From a new site: a block is scanned while the snapshot lacks the address it pays. However many
   * ticks follow with the address in it, the transfer is visible to each of them and none records it.
   */
  lemma {:induction false} StaleDirectoryMisses(salt: nat, amount: nat, tries: nat)
    requires Codec.Decodable(amount)
    ensures PassedOver(SiteAfter(CFG, StaleRun(salt, amount, tries)), FirstBlock(salt, amount))
    ensures ToRecord(FirstBlock(salt, amount), DIR, 1, Paying(amount))
  {
    var b, events := FirstBlock(salt, amount), StaleRun(salt, amount, tries);
    OneLog(salt, amount);
    if tries == 0 {
      StaleScan(salt, amount);
      assert events == [TickOn(Genesis), Ticks(b, STALE, [], true)];
    } else {
      var earlier := StaleRun(salt, amount, tries - 1);
      StaleDirectoryMisses(salt, amount, tries - 1);
      assert events == earlier + [TickOn(b)];
      Extend(CFG, earlier, TickOn(b));
      IdleAtHead(TablesOf(SiteAfter(CFG, earlier)), CFG, b, DIR, [], true);
    }
  }

  // ----------------------------------------------------------- a transfer that survives a reorg ---

  const ID: DepositId := DepositId(0, 0, 0)

  /** After the first scan: one block, one row, one observed deposit. */
  ghost predicate Observing(t: Tables, b: Block, amount: nat) {
    && t.store.canonical == map[0 := Genesis, 1 := b] && t.store.cursor == Some(Cursor(1, Some(b)))
    && t.store.transfers == map[ID := TransferRow(b, false)]
    && t.books == NO_BOOKS.(deposits := map[ID := Deposit(0, 0, amount, Observed)])
  }

  lemma HeaderStored(b: Block)
    requires b.Height() == 1
    ensures PersistHeaders(STARTED.canonical, [b]) == Ok(map[0 := Genesis, 1 := b])
  {
    assert [b][..0] == [];
    assert PersistHeaders(STARTED.canonical, [b])
      == PersistHeader(PersistHeaders(STARTED.canonical, [b][..0]).value, b);
  }

  lemma TransferStored(t: Tables, b: Block, amount: nat)
    requires IsPositive(amount) && t.store.transfers == map[] && t.books == NO_BOOKS
    ensures PersistTransfers(t, 0, DIR, [Log(b, Paying(amount))]) == Ok(Tables(
      t.store.(transfers := map[ID := TransferRow(b, false)]),
          NO_BOOKS.(deposits := map[ID := Deposit(0, 0, amount, Observed)])))
  {
    var l := Log(b, Paying(amount));
    assert [l][..0] == [];
    assert PersistTransfers(t, 0, DIR, [l]) == PersistTransfer(PersistTransfers(t, 0, DIR, [l][..0]).value, 0, DIR, l);
  }

  lemma FirstPersists(salt: nat, amount: nat)
    requires amount > 0 && Codec.Decodable(amount)
    ensures var r := Persist(Tables(STARTED, NO_BOOKS), 0, DIR, [FirstBlock(salt, amount)]);
      r.Ok? && Observing(r.value, FirstBlock(salt, amount), amount)
  {
    var b := FirstBlock(salt, amount);
    OneLog(salt, amount);
    Codec.DecodableFits(amount);
    HeaderStored(b);
    TransferStored(Tables(STARTED.(canonical := map[0 := Genesis, 1 := b]), NO_BOOKS), b, amount);
  }

  lemma FirstScanObserves(salt: nat, amount: nat)
    requires amount > 0 && Codec.Decodable(amount)
    ensures var r := Tick(Tables(STARTED, NO_BOOKS), CFG, FirstBlock(salt, amount), DIR, [], true);
      r.Ok? && Observing(r.value.0, FirstBlock(salt, amount), amount)
  {
    StartedIsALineage();
    OneLog(salt, amount);
    FirstPersists(salt, amount);
    FollowingTickScans(Tables(STARTED, NO_BOOKS), CFG, FirstBlock(salt, amount), DIR, [], true);
  }

  /** After the reorg: back at the genesis block, the row orphaned and the deposit reorged. */
  ghost predicate Orphaned(t: Tables, b: Block, amount: nat) {
    && t.store == Store(map[0 := Genesis], Some(Cursor(0, Some(Genesis))), map[ID := TransferRow(b, true)])
    && t.books == NO_BOOKS.(deposits := map[ID := Deposit(0, 0, amount, DepositStatus.Reorged)])
  }

  lemma ReplacedBlock(t: Tables, b: Block, b': Block, amount: nat)
    requires Observing(t, b, amount) && b.Height() == 1 && b'.Height() == 1 && b' != b
    ensures Detect(t.store, b', CFG.scanDepth) == Ok(Some(0))
    ensures Abandoned(t.store, 0) == {ID} && Enumerates([ID], Abandoned(t.store, 0))
    ensures var r := Tick(t, CFG, b', DIR, [ID], true);
      r.Ok? && r.value.1 == Outcome.Reorged(0) && Orphaned(r.value.0, b, amount)
  {
    assert HeaderAt(b', 0) == Some(Genesis) by { GenesisIsShared(b'); }
    assert t.store.canonical[1] == b;
    assert OrphanedBlocks(t.store.canonical, 0) == {b};
    assert (set d | d in [ID]) == {ID};
    assert [ID][..0] == [];
    assert ReorgDeposits(t.books, [ID]) == ReorgDeposit(ReorgDeposits(t.books, [ID][..0]).value, ID);
    assert Kept(t.store.canonical, 0) == map[0 := Genesis];
  }

  lemma OrphanedIsTracked(t: Tables, salt: nat, amount: nat)
    requires Orphaned(t, FirstBlock(salt, amount), amount)
    ensures Lineage(t.store) && Consistent(t.store) && Tracked(t, 0)
  {
    assert Paying(amount) in FirstBlock(salt, amount).Logs();
    assert Carries(FirstBlock(salt, amount), 0, ID, amount);
  }

  /** The tick after the reorg scans the replacing block, and finds the transfer recorded. */
  lemma RescanFindsDuplicate(t: Tables, salt: nat, salt': nat, amount: nat)
    requires amount > 0 && Codec.Decodable(amount) && Orphaned(t, FirstBlock(salt, amount), amount)
    ensures var r := Tick(t, CFG, FirstBlock(salt', amount), DIR, [], true);
      && r.Ok? && r.value.1 == Scanned(1, 1, 1)
      && r.value.0.store.cursor == Some(Cursor(1, Some(FirstBlock(salt', amount))))
      && ID in r.value.0.books.deposits && r.value.0.books.deposits[ID].status.Reorged?
  {
    var b := FirstBlock(salt', amount);
    OrphanedIsTracked(t, salt, amount);
    OneLog(salt', amount);
    ScanFailsIff(t, CFG, b, DIR, [], true);
    FollowingTickScans(t, CFG, b, DIR, [], true);
    assert forall i :: !RefusedAt(t, 0, DIR, Logs(DIR, [b]), i);
    var grown, filled := ScanParts(t, CFG, b, DIR, [], true);
    assert ToRecord(b, DIR, 1, Paying(amount));
    LiveAfterScanIff(t, CFG, b, DIR, [], true, 1, Paying(amount));
  }

  function SurvivorRun(salt: nat, salt': nat, amount: nat): seq<Event> {
    [TickOn(Genesis), TickOn(FirstBlock(salt, amount)), Ticks(FirstBlock(salt', amount), DIR, [ID], true),
        TickOn(FirstBlock(salt', amount))]
  }

  /**
   * From a new site: a block with a transfer is scanned, replaced by another block with the same
   * transfer, and that one is scanned too. The cursor is the head, the head carries the transfer,
   * and its deposit is reorged.
   */
  lemma SurvivorReorgedInARun(salt: nat, salt': nat, amount: nat)
    requires salt != salt' && amount > 0 && Codec.Decodable(amount)
    ensures var s, head := SiteAfter(CFG, SurvivorRun(salt, salt', amount)), FirstBlock(salt', amount);
      && s.store.cursor == Some(Cursor(1, Some(head))) && ToRecord(head, DIR, 1, Paying(amount))
      && IdOf(0, Paying(amount)) == ID
      && ID in s.world.books.deposits && s.world.books.deposits[ID].status.Reorged?
  {
    var b' := FirstBlock(salt', amount);
    var three := [TickOn(Genesis), TickOn(FirstBlock(salt, amount)), Ticks(b', DIR, [ID], true)];
    ThenOrphaned(salt, salt', amount);
    var t := TablesOf(SiteAfter(CFG, three));
    RescanFindsDuplicate(t, salt, salt', amount);
    NoForkFrom(t.store, b');
    Extend(CFG, three, TickOn(b'));
    assert three + [TickOn(b')] == SurvivorRun(salt, salt', amount);
    OneLog(salt', amount);
  }

  lemma ThenObserving(salt: nat, amount: nat)
    requires amount > 0 && Codec.Decodable(amount)
    ensures Observing(TablesOf(SiteAfter(CFG, [TickOn(Genesis), TickOn(FirstBlock(salt, amount))])),
        FirstBlock(salt, amount), amount)
  {
    var b := FirstBlock(salt, amount);
    Starts();
    FirstScan(salt, amount);
    FirstScanObserves(salt, amount);
    Extend(CFG, [TickOn(Genesis)], TickOn(b));
    assert [TickOn(Genesis)] + [TickOn(b)] == [TickOn(Genesis), TickOn(b)];
    NoForkFrom(STARTED, b);
  }

  lemma ThenOrphaned(salt: nat, salt': nat, amount: nat)
    requires salt != salt' && amount > 0 && Codec.Decodable(amount)
    ensures var events := [TickOn(Genesis), TickOn(FirstBlock(salt, amount)),
        Ticks(FirstBlock(salt', amount), DIR, [ID], true)];
      Orphaned(TablesOf(SiteAfter(CFG, events)), FirstBlock(salt, amount), amount)
  {
    var b, b' := FirstBlock(salt, amount), FirstBlock(salt', amount);
    var two := [TickOn(Genesis), TickOn(b)];
    ThenObserving(salt, amount);
    ReplacedBlock(TablesOf(SiteAfter(CFG, two)), b, b', amount);
    Extend(CFG, two, Ticks(b', DIR, [ID], true));
    assert two + [Ticks(b', DIR, [ID], true)] == [TickOn(Genesis), TickOn(b), Ticks(b', DIR, [ID], true)];
  }

  lemma NoForkFrom(s: Store, b: Block)
    requires s.cursor == Some(Cursor(0, Some(Genesis)))
    ensures Detect(s, b, 1) == Ok(None)
  {
    GenesisIsShared(b);
  }

  // ------------------------------------------------------------------------------ stranded ---

  /** Starts at height three, and looks one block back. */
  const LATE: Config := Config(0, 1, 1, Some(4), Some(1))

  function Tower(salt: nat): Block { Block(Block(Block(Genesis, salt, []), salt, []), salt, []) }

  lemma TowerHeight(salt: nat)
    ensures Tower(salt).Height() == 3 && HeaderAt(Tower(salt), 3) == Some(Tower(salt))
  {
    var one := Block(Genesis, salt, []);
    var two := Block(one, salt, []);
    assert Genesis.Height() == 0;
    assert one.Height() == 1;
    assert two.Height() == 2;
    assert Block(two, salt, []).Height() == 3;
  }

  /**
   * From a new site: the first stored block is replaced, and the watcher is left with a zero hash and
   * no block at all.
   */
  lemma StrandedInARun(salt: nat, salt': nat)
    requires salt != salt'
    ensures var s := SiteAfter(LATE, [TickOn(Tower(salt)), TickOn(Tower(salt'))]);
      Stranded(Progress(TablesOf(s), [])) && s.store.cursor.value.height == 2
  {
    var a, b := Tower(salt), Tower(salt');
    TowerHeight(salt);
    TowerHeight(salt');
    Extend(LATE, [], TickOn(a));
    assert [] + [TickOn(a)] == [TickOn(a)];
    var s := SiteAfter(LATE, [TickOn(a)]);
    assert SiteAfter(LATE, []) == NEW_SITE;
    assert s.store == Store(map[3 := a], Some(Cursor(3, Some(a))), map[]);
    Extend(LATE, [TickOn(a)], TickOn(b));
    assert [TickOn(a)] + [TickOn(b)] == [TickOn(a), TickOn(b)];
    assert Detect(s.store, b, 1) == Ok(Some(2));
    assert Abandoned(s.store, 2) == {};
    assert Enumerates([], Abandoned(s.store, 2));
    assert Kept(s.store.canonical, 2) == map[];
  }
}
