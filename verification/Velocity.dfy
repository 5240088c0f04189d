/** The withdrawal policy and the rolling limits it enforces. */
module Velocity {
  import opened Prelude
  import opened Ledger

  /** A limit table is keyed by chain and symbol, with the bare symbol as fallback. */
  datatype LimitKey = OnChain(chain: string, symbol: string) | Everywhere(symbol: string)

  datatype RiskConfig = RiskConfig(
    maintenance: bool, allowedChains: set<string>, denylist: set<string>,
    minPerRequest: map<LimitKey, int>, maxPerRequest: map<LimitKey, int>, maxPerDay: map<LimitKey, int>,
    maxCountPerDay: Option<nat>, manualThreshold: map<LimitKey, int>)

  datatype RiskInput = RiskInput(
    chain: string, symbol: string, amount: int, destination: string, hotWallet: Option<string>,
    available: int, dailyTotal: int, dailyCount: nat, foreignDeposit: bool, enabled: bool)

  datatype DenyCode =
    | MaintenanceMode | InvalidAmountCode | AssetDisabled | ChainNotAllowed | Denylisted | HotWallet
    | InternalDestination
    | BelowMinimum | AboveMaximum | DailyCountExceeded | DailyLimitExceeded | AmountOverflowed | BalanceTooLow

  datatype RiskDecision = Allow | ManualApproval | Deny(code: DenyCode)

  function Limit(table: map<LimitKey, int>, chain: string, symbol: string): Option<int> {
    if OnChain(chain, symbol) in table then Some(table[OnChain(chain, symbol)])
    else if Everywhere(symbol) in table then Some(table[Everywhere(symbol)])
    else None
  }

  /** The velocity rules of `evaluate`. */
  function VelocityDenial(cfg: RiskConfig, i: RiskInput): Option<DenyCode> {
    if cfg.maxCountPerDay.Some? && i.dailyCount >= cfg.maxCountPerDay.value then Some(DailyCountExceeded)
    else
      match Limit(cfg.maxPerDay, i.chain, i.symbol)
      case None => None
      case Some(cap) =>
        if !Fits(i.dailyTotal + i.amount) then Some(AmountOverflowed)
        else if i.dailyTotal + i.amount > cap then Some(DailyLimitExceeded)
        else None
  }

  /** `RiskEngine::evaluate`: the first rule that objects decides. */
  function Evaluate(cfg: RiskConfig, i: RiskInput): RiskDecision {
    var min, max := Limit(cfg.minPerRequest, i.chain, i.symbol), Limit(cfg.maxPerRequest, i.chain, i.symbol);
    var threshold := Limit(cfg.manualThreshold, i.chain, i.symbol);
    if cfg.maintenance then Deny(MaintenanceMode)
    else if i.amount <= 0 then Deny(InvalidAmountCode)
    else if !i.enabled then Deny(AssetDisabled)
    else if cfg.allowedChains != {} && i.chain !in cfg.allowedChains then Deny(ChainNotAllowed)
    else if i.destination in cfg.denylist then Deny(Denylisted)
    else if i.hotWallet == Some(i.destination) then Deny(HotWallet)
    else if i.foreignDeposit then Deny(InternalDestination)
    else if min.Some? && i.amount < min.value then Deny(BelowMinimum)
    else if max.Some? && i.amount > max.value then Deny(AboveMaximum)
    else if VelocityDenial(cfg, i).Some? then Deny(VelocityDenial(cfg, i).value)
    else if i.available < i.amount then Deny(BalanceTooLow)
    else if threshold.Some? && i.amount > threshold.value then ManualApproval
    else Allow
  }

  // -------------------------------------------------------------- creating withdrawals ---

  const DAY: int := 24 * 60 * 60 * 1_000_000

  /** A withdrawal row as far as the limits see it; `live` is neither failed nor cancelled. */
  datatype Row = Row(user: UserId, asset: AssetId, amount: int, createdAt: nat, live: bool)

  type Table = map<WithdrawalId, Row>

  /** The facts of a request the policy looks at besides the user's history. */
  datatype Facts = Facts(
    chain: string, symbol: string, destination: string, hotWallet: Option<string>, available: int, foreignDeposit: bool,
    enabled: bool)

  /** One user's live withdrawals of an asset created from `from` to `until`, both included. */
  ghost function InWindow(u: UserId, a: AssetId, from: int, until: int, count: bool): (WithdrawalId, Row) -> int {
    (id: WithdrawalId, r: Row) =>
      if r.user == u && r.asset == a && r.live && from <= r.createdAt <= until
      then (if count then 1 else r.amount) else 0
  }

  ghost function WindowSum(t: Table, u: UserId, a: AssetId, from: int, until: int): int {
    SumMap(t, InWindow(u, a, from, until, false))
  }

  ghost function WindowCount(t: Table, u: UserId, a: AssetId, from: int, until: int): int {
    SumMap(t, InWindow(u, a, from, until, true))
  }

  function Inserted(t: Table, now: nat, id: WithdrawalId, u: UserId, a: AssetId, amount: int): Table {
    t[id := Row(u, a, amount, now, true)]
  }

  /** What the policy is shown: the last day's sums with the new row in them, less the row itself. */
  ghost function InputOf(
      t: Table, now: nat, id: WithdrawalId, u: UserId, a: AssetId, amount: int, facts: Facts): RiskInput {
    var total := WindowSum(Inserted(t, now, id, u, a, amount), u, a, now - DAY, now);
    var count := WindowCount(Inserted(t, now, id, u, a, amount), u, a, now - DAY, now);
    RiskInput(facts.chain, facts.symbol, amount, facts.destination, facts.hotWallet, facts.available,
              total - amount, if count > 0 then count - 1 else 0, facts.foreignDeposit, facts.enabled)
  }

  /**
   * The velocity part of `create` at time `now`: insert the row, sum the last day including it,
   * take the row itself out again, evaluate, and keep the row as failed when denied.
   */
  ghost function Create(
      cfg: RiskConfig, t: Table, now: nat, id: WithdrawalId, u: UserId, a: AssetId, amount: int, facts: Facts): Table {
    if id in t || !IsPositive(amount) then t
    else if !Fits(WindowSum(Inserted(t, now, id, u, a, amount), u, a, now - DAY, now)) then t
    else if Evaluate(cfg, InputOf(t, now, id, u, a, amount, facts)).Deny? then t[id := Row(u, a, amount, now, false)]
    else Inserted(t, now, id, u, a, amount)
  }

  datatype Step =
    | Creates(now: nat, id: WithdrawalId, user: UserId, asset: AssetId, amount: int, facts: Facts)
    | Ends(id: WithdrawalId)          // the withdrawal failed or was cancelled

  ghost function Next(cfg: RiskConfig, t: Table, step: Step): Table {
    match step
    case Creates(now, id, u, a, amount, facts) => Create(cfg, t, now, id, u, a, amount, facts)
    case Ends(id) => if id in t then t[id := t[id].(live := false)] else t
  }

  ghost function Run(cfg: RiskConfig, steps: seq<Step>): Table {
    if steps == [] then map[] else Next(cfg, Run(cfg, steps[..|steps| - 1]), steps[|steps| - 1])
  }

  /** One monotone clock. */
  ghost predicate Clocked(steps: seq<Step>) {
    forall i, j :: 0 <= i < j < |steps| && steps[i].Creates? && steps[j].Creates? ==> steps[i].now <= steps[j].now
  }

  /** Requests for an asset name the chain and symbol of that asset. */
  ghost predicate Named(steps: seq<Step>, a: AssetId, chain: string, symbol: string) {
    forall i :: 0 <= i < |steps| && steps[i].Creates? && steps[i].asset == a ==>
      steps[i].facts.chain == chain && steps[i].facts.symbol == symbol
  }

  // ------------------------------------------------------------------- the rolling limit ---

  /** The day-long window that starts at `from`, both ends included. */
  ghost function DayFrom(u: UserId, a: AssetId, from: int, count: bool): (WithdrawalId, Row) -> int {
    InWindow(u, a, from, from + DAY, count)
  }

  ghost predicate Capped(t: Table, u: UserId, a: AssetId, cap: int, count: bool) {
    forall from: int {:trigger DayFrom(u, a, from, count)} :: SumMap(t, DayFrom(u, a, from, count)) <= cap
  }

  ghost predicate Past(t: Table, now: int) {
    forall id :: id in t ==> t[id].createdAt <= now && IsPositive(t[id].amount)
  }

  /** Any day-long window that reaches `now` sees no more than the last day does. */
  lemma WindowWithinLastDay(t: Table, now: nat, u: UserId, a: AssetId, from: int, count: bool)
    requires Past(t, now) && from <= now <= from + DAY
    ensures SumMap(t, DayFrom(u, a, from, count)) <= SumMap(t, InWindow(u, a, now - DAY, now, count))
  {
    var f, g := DayFrom(u, a, from, count), InWindow(u, a, now - DAY, now, count);
    forall id | id in t ensures f(id, t[id]) <= g(id, t[id]) {}
    SumMapLe(t, f, g);
  }

  /** A row added now keeps every window under a cap that the last day keeps. */
  lemma AddedRow(t: Table, id: WithdrawalId, row: Row, u: UserId, a: AssetId, cap: int, count: bool)
    requires id !in t && Capped(t, u, a, cap, count) && Past(t[id := row], row.createdAt)
    requires row.user == u && row.asset == a && row.live ==>
      SumMap(t[id := row], InWindow(u, a, row.createdAt - DAY, row.createdAt, count)) <= cap
    ensures Capped(t[id := row], u, a, cap, count)
  {
    forall from: int {:trigger DayFrom(u, a, from, count)}
      ensures SumMap(t[id := row], DayFrom(u, a, from, count)) <= cap
    {
      var f := DayFrom(u, a, from, count);
      SumMapUpdate(t, f, id, row);
      if f(id, row) != 0 {
        WindowWithinLastDay(t[id := row], row.createdAt, u, a, from, count);
      }
    }
  }

  lemma EndedRow(t: Table, id: WithdrawalId, u: UserId, a: AssetId, cap: int, count: bool)
    requires id in t && IsPositive(t[id].amount) && Capped(t, u, a, cap, count)
    ensures Capped(t[id := t[id].(live := false)], u, a, cap, count)
  {
    forall from: int {:trigger DayFrom(u, a, from, count)}
      ensures SumMap(t[id := t[id].(live := false)], DayFrom(u, a, from, count)) <= cap
    {
      SumMapUpdate(t, DayFrom(u, a, from, count), id, t[id].(live := false));
    }
  }

  // ---------------------------------------------------------------------------- the rules ---

  /** The entry of a limit table that decides: the chain's own, or the bare symbol's where the chain has none. */
  predicate Governs(table: map<LimitKey, int>, chain: string, symbol: string, limit: int) {
    if OnChain(chain, symbol) in table then table[OnChain(chain, symbol)] == limit
    else Everywhere(symbol) in table && table[Everywhere(symbol)] == limit
  }

  lemma LimitGoverns(table: map<LimitKey, int>, chain: string, symbol: string)
    ensures Limit(table, chain, symbol).None? <==> OnChain(chain, symbol) !in table && Everywhere(symbol) !in table
    ensures match Limit(table, chain, symbol)
      case None => forall limit :: !Governs(table, chain, symbol, limit)
      case Some(x) =>
        Governs(table, chain, symbol, x) && forall limit :: Governs(table, chain, symbol, limit) ==> limit == x
  {}

  /** What each rule objects to. */
  ghost predicate Breaks(cfg: RiskConfig, i: RiskInput, code: DenyCode) {
    match code
    case MaintenanceMode => cfg.maintenance
    case InvalidAmountCode => i.amount <= 0
    case AssetDisabled => !i.enabled
    case ChainNotAllowed => cfg.allowedChains != {} && i.chain !in cfg.allowedChains
    case Denylisted => i.destination in cfg.denylist
    case HotWallet => i.hotWallet == Some(i.destination)
    case InternalDestination => i.foreignDeposit
    case BelowMinimum => exists min :: Governs(cfg.minPerRequest, i.chain, i.symbol, min) && i.amount < min
    case AboveMaximum => exists max :: Governs(cfg.maxPerRequest, i.chain, i.symbol, max) && i.amount > max
    case DailyCountExceeded => cfg.maxCountPerDay.Some? && i.dailyCount >= cfg.maxCountPerDay.value
    case AmountOverflowed =>
      (exists cap :: Governs(cfg.maxPerDay, i.chain, i.symbol, cap)) && !Fits(i.dailyTotal + i.amount)
    case DailyLimitExceeded =>
      exists cap :: Governs(cfg.maxPerDay, i.chain, i.symbol, cap) && i.dailyTotal + i.amount > cap
    case BalanceTooLow => i.available < i.amount
  }

  /** The order in which the rules are asked. */
  function Rank(code: DenyCode): nat {
    match code
    case MaintenanceMode => 0
    case InvalidAmountCode => 1
    case AssetDisabled => 2
    case ChainNotAllowed => 3
    case Denylisted => 4
    case HotWallet => 5
    case InternalDestination => 6
    case BelowMinimum => 7
    case AboveMaximum => 8
    case DailyCountExceeded => 9
    case AmountOverflowed => 10
    case DailyLimitExceeded => 11
    case BalanceTooLow => 12
  }

  /**
   * The decision, read off the tables: the denial names the first rule that is broken, a request that
   * breaks none is held exactly when it is above the governing manual threshold, and allowed otherwise.
   */
  lemma DecidedByTheTables(cfg: RiskConfig, i: RiskInput, code: DenyCode)
    ensures Evaluate(cfg, i) == Deny(code) <==>
      Breaks(cfg, i, code) && forall c :: Breaks(cfg, i, c) ==> Rank(c) >= Rank(code)
    ensures Evaluate(cfg, i).ManualApproval? <==>
      && (forall c :: !Breaks(cfg, i, c))
      && exists limit :: Governs(cfg.manualThreshold, i.chain, i.symbol, limit) && i.amount > limit
  {
    FirstBroken(cfg, i);
    if !Evaluate(cfg, i).Deny? {
      ThresholdDecides(cfg, i);
    }
  }

  lemma FirstBroken(cfg: RiskConfig, i: RiskInput)
    ensures match Evaluate(cfg, i)
      case Deny(code) => Breaks(cfg, i, code) && forall c :: Breaks(cfg, i, c) ==> Rank(c) >= Rank(code)
      case _ => forall c :: !Breaks(cfg, i, c)
  {
    LimitGoverns(cfg.minPerRequest, i.chain, i.symbol);
    LimitGoverns(cfg.maxPerRequest, i.chain, i.symbol);
    LimitGoverns(cfg.maxPerDay, i.chain, i.symbol);
  }

  lemma ThresholdDecides(cfg: RiskConfig, i: RiskInput)
    requires !Evaluate(cfg, i).Deny?
    ensures Evaluate(cfg, i).ManualApproval? <==>
      exists limit :: Governs(cfg.manualThreshold, i.chain, i.symbol, limit) && i.amount > limit
  {
    LimitGoverns(cfg.manualThreshold, i.chain, i.symbol);
  }

  /** Every rule of the policy is met. */
  ghost predicate Acceptable(cfg: RiskConfig, i: RiskInput) {
    && !cfg.maintenance && i.amount > 0 && i.enabled
    && (cfg.allowedChains == {} || i.chain in cfg.allowedChains)
    && i.destination !in cfg.denylist && i.hotWallet != Some(i.destination) && !i.foreignDeposit
    && (forall min :: Governs(cfg.minPerRequest, i.chain, i.symbol, min) ==> min <= i.amount)
    && (forall max :: Governs(cfg.maxPerRequest, i.chain, i.symbol, max) ==> i.amount <= max)
    && (cfg.maxCountPerDay.Some? ==> i.dailyCount < cfg.maxCountPerDay.value)
    && (forall cap :: Governs(cfg.maxPerDay, i.chain, i.symbol, cap) ==> i.dailyTotal + i.amount <= cap)
    && i.amount <= i.available
  }

  /** A request is denied exactly when it breaks some rule, whichever speaks first; caps are 128-bit amounts. */
  lemma DeniedIff(cfg: RiskConfig, i: RiskInput)
    requires i.dailyTotal >= 0 && forall k :: k in cfg.maxPerDay ==> Fits(cfg.maxPerDay[k])
    ensures Evaluate(cfg, i).Deny? <==> !Acceptable(cfg, i)
  {
    LimitGoverns(cfg.minPerRequest, i.chain, i.symbol);
    LimitGoverns(cfg.maxPerRequest, i.chain, i.symbol);
    LimitGoverns(cfg.maxPerDay, i.chain, i.symbol);
  }

  /** A request that is not denied leaves the last day within the caps. */
  lemma NotDenied(cfg: RiskConfig, i: RiskInput, cap: int)
    requires !Evaluate(cfg, i).Deny?
    ensures Governs(cfg.maxPerDay, i.chain, i.symbol, cap) ==> i.dailyTotal + i.amount <= cap
    ensures cfg.maxCountPerDay.Some? ==> i.dailyCount < cfg.maxCountPerDay.value
  {
    LimitGoverns(cfg.maxPerDay, i.chain, i.symbol);
  }

  ghost predicate WithinCap(cfg: RiskConfig, chain: string, symbol: string, cap: int, count: bool) {
    if count then cfg.maxCountPerDay.Some? && cap == cfg.maxCountPerDay.value
    else Governs(cfg.maxPerDay, chain, symbol, cap)
  }

  // ----------------------------------------------------------------- what the policy is shown ---

  /** The totals the policy sees are those of the earlier withdrawals: the new row is in neither. */
  lemma HistoryOnly(t: Table, now: nat, id: WithdrawalId, u: UserId, a: AssetId, amount: int, facts: Facts)
    requires id !in t
    ensures var i := InputOf(t, now, id, u, a, amount, facts);
      && i.dailyTotal == WindowSum(t, u, a, now - DAY, now) && i.dailyCount == WindowCount(t, u, a, now - DAY, now)
      && i.amount == amount && i.available == facts.available && i.chain == facts.chain && i.symbol == facts.symbol
      && i.destination == facts.destination && i.hotWallet == facts.hotWallet
      && i.foreignDeposit == facts.foreignDeposit && i.enabled == facts.enabled
  {
    SumMapUpdate(t, InWindow(u, a, now - DAY, now, false), id, Row(u, a, amount, now, true));
    SumMapUpdate(t, InWindow(u, a, now - DAY, now, true), id, Row(u, a, amount, now, true));
    SumMapNonNegative(t, InWindow(u, a, now - DAY, now, true));
  }

  /**
   * A new request is live afterwards exactly when it meets every rule with the last day's earlier
   * withdrawals, so one within what remains of the cap and the count is let through.
   */
  lemma LiveIffAcceptable(
      cfg: RiskConfig, t: Table, now: nat, id: WithdrawalId, u: UserId, a: AssetId, amount: int, facts: Facts)
    requires id !in t && IsPositive(amount) && forall k :: k in cfg.maxPerDay ==> Fits(cfg.maxPerDay[k])
    requires 0 <= WindowSum(t, u, a, now - DAY, now) <= MAX_AMOUNT - amount
    ensures var t', i := Create(cfg, t, now, id, u, a, amount, facts), InputOf(t, now, id, u, a, amount, facts);
      && id in t' && t' == t[id := Row(u, a, amount, now, t'[id].live)] && (t'[id].live <==> Acceptable(cfg, i))
      && i.dailyTotal == WindowSum(t, u, a, now - DAY, now) && i.dailyCount == WindowCount(t, u, a, now - DAY, now)
  {
    HistoryOnly(t, now, id, u, a, amount, facts);
    DeniedIff(cfg, InputOf(t, now, id, u, a, amount, facts));
  }

  lemma CreateKeeps(
      cfg: RiskConfig, t: Table, step: Step, u: UserId, a: AssetId, chain: string, symbol: string, cap: int,
      count: bool)
    requires step.Creates? && (!count && step.asset == a ==> step.facts.chain == chain && step.facts.symbol == symbol)
    requires WithinCap(cfg, chain, symbol, cap, count) && cap >= 0
    requires Past(t, step.now) && Capped(t, u, a, cap, count)
    ensures Past(Next(cfg, t, step), step.now) && Capped(Next(cfg, t, step), u, a, cap, count)
  {
    var t', id := Next(cfg, t, step), step.id;
    if t' != t && id !in t && IsPositive(step.amount) {
      var inserted := t[id := Row(step.user, step.asset, step.amount, step.now, true)];
      NewRowCounts(t, id, Row(step.user, step.asset, step.amount, step.now, true));
      if t' == inserted && step.user == u && step.asset == a {
        LastDayWithinCap(cfg, t, step, cap, count);
      }
      AddedRow(t, id, t'[id], u, a, cap, count);
    }
  }

  lemma NewRowCounts(t: Table, id: WithdrawalId, row: Row)
    requires id !in t && row.live
    ensures WindowCount(t[id := row], row.user, row.asset, row.createdAt - DAY, row.createdAt) > 0
  {
    var f := InWindow(row.user, row.asset, row.createdAt - DAY, row.createdAt, true);
    var inserted := t[id := row];
    assert forall j :: j in inserted ==> f(j, inserted[j]) >= 0;
    SumMapAtLeast(inserted, f, id);
  }

  lemma LastDayWithinCap(cfg: RiskConfig, t: Table, step: Step, cap: int, count: bool)
    requires step.Creates? && step.id !in t && IsPositive(step.amount)
    requires WithinCap(cfg, step.facts.chain, step.facts.symbol, cap, count)
    requires var inserted := t[step.id := Row(step.user, step.asset, step.amount, step.now, true)];
      Next(cfg, t, step) == inserted && WindowCount(inserted, step.user, step.asset, step.now - DAY, step.now) > 0
    ensures SumMap(Next(cfg, t, step), InWindow(step.user, step.asset, step.now - DAY, step.now, count)) <= cap
  {
    var inserted := t[step.id := Row(step.user, step.asset, step.amount, step.now, true)];
    var input := InputOf(t, step.now, step.id, step.user, step.asset, step.amount, step.facts);
    assert step.id !in t && inserted[step.id].live;
    assert !Evaluate(cfg, input).Deny?;
    NotDenied(cfg, input, cap);
  }

  ghost function Clock(steps: seq<Step>): nat {
    if steps == [] then 0
    else if steps[|steps| - 1].Creates? then steps[|steps| - 1].now
    else Clock(steps[..|steps| - 1])
  }

  lemma {:induction false} ClockIsLatest(steps: seq<Step>, step: Step)
    requires Clocked(steps + [step]) && step.Creates?
    ensures Clock(steps) <= step.now
  {
    if steps != [] {
      var front, last := steps[..|steps| - 1], steps[|steps| - 1];
      if last.Creates? {
        assert (steps + [step])[|steps| - 1] == last && (steps + [step])[|steps|] == step;
      } else {
        assert Clocked(front + [step]) by {
          forall i, j | 0 <= i < j < |front + [step]| && (front + [step])[i].Creates? && (front + [step])[j].Creates?
            ensures (front + [step])[i].now <= (front + [step])[j].now
          {
            assert (front + [step])[i] == (steps + [step])[i];
            assert (front + [step])[j] == (steps + [step])[if j == |front| then |steps| else j];
          }
        }
        ClockIsLatest(front, step);
      }
    }
  }

  /**
   * The rolling limits, over every run: at every moment, and for every 24-hour window, a user's
   * live withdrawals of an asset created in that window sum to at most the configured cap, and
   * there are at most as many of that asset as the configured count.
   */
  lemma {:induction false} RollingLimit(
    cfg: RiskConfig, steps: seq<Step>, u: UserId, a: AssetId, chain: string, symbol: string, cap: int, count: bool)
    requires Clocked(steps) && (!count ==> Named(steps, a, chain, symbol)) && WithinCap(cfg, chain, symbol, cap, count)
    requires cap >= 0
    ensures Past(Run(cfg, steps), Clock(steps)) && Capped(Run(cfg, steps), u, a, cap, count)
  {
    if steps == [] {
      forall from: int {:trigger DayFrom(u, a, from, count)}
        ensures SumMap(Run(cfg, steps), DayFrom(u, a, from, count)) <= cap
      {
        SumMapZero(Run(cfg, steps), DayFrom(u, a, from, count));
      }
    } else {
      var front, last := steps[..|steps| - 1], steps[|steps| - 1];
      assert steps == front + [last];
      RollingLimit(cfg, front, u, a, chain, symbol, cap, count);
      if last.Creates? {
        ClockIsLatest(front, last);
        CreateKeeps(cfg, Run(cfg, front), last, u, a, chain, symbol, cap, count);
      } else if last.id in Run(cfg, front) {
        EndedRow(Run(cfg, front), last.id, u, a, cap, count);
      }
    }
  }

  // ------------------------------------------------------------------ the count per user ---

  /** A user's live withdrawals of some assets created in the day from `from`. */
  ghost function DayOf(u: UserId, assets: set<AssetId>, from: int): (WithdrawalId, Row) -> int {
    (id: WithdrawalId, r: Row) =>
      if r.user == u && r.asset in assets && r.live && from <= r.createdAt <= from + DAY then 1 else 0
  }

  /** The same over all assets: what the configured count is called after. */
  ghost function UserDay(u: UserId, from: int): (WithdrawalId, Row) -> int {
    (id: WithdrawalId, r: Row) => if r.user == u && r.live && from <= r.createdAt <= from + DAY then 1 else 0
  }

  lemma {:induction false} CountByAsset(t: Table, u: UserId, assets: set<AssetId>, from: int, cap: int)
    requires forall a :: a in assets ==> Capped(t, u, a, cap, true)
    ensures SumMap(t, DayOf(u, assets, from)) <= cap * |assets|
    decreases |assets|
  {
    if assets == {} {
      SumMapZero(t, DayOf(u, assets, from));
    } else {
      var a :| a in assets;
      CountByAsset(t, u, assets - {a}, from, cap);
      SumMapAdd(t, DayOf(u, assets, from), DayOf(u, assets - {a}, from), DayFrom(u, a, from, true));
      assert Capped(t, u, a, cap, true);
      assert cap * |assets| == cap * (|assets| - 1) + cap;
    }
  }

  /** Every request is for one of these assets. */
  ghost predicate OnlyAssets(steps: seq<Step>, assets: set<AssetId>) {
    forall i :: 0 <= i < |steps| && steps[i].Creates? ==> steps[i].asset in assets
  }

  lemma {:induction false} RowsOfAssets(cfg: RiskConfig, steps: seq<Step>, assets: set<AssetId>, id: WithdrawalId)
    requires OnlyAssets(steps, assets) && id in Run(cfg, steps)
    ensures Run(cfg, steps)[id].asset in assets
  {
    var front := steps[..|steps| - 1];
    if id in Run(cfg, front) {
      RowsOfAssets(cfg, front, assets, id);
    }
  }

  /**
   * The count over all assets: in every 24-hour window a user has at most the configured count
   * times the number of assets in use, so with one asset the configured count itself is kept.
   */
  lemma PerUserCount(cfg: RiskConfig, steps: seq<Step>, assets: set<AssetId>, u: UserId, from: int)
    requires Clocked(steps) && OnlyAssets(steps, assets) && cfg.maxCountPerDay.Some?
    ensures SumMap(Run(cfg, steps), UserDay(u, from)) <= cfg.maxCountPerDay.value * |assets|
    ensures |assets| <= 1 ==> SumMap(Run(cfg, steps), UserDay(u, from)) <= cfg.maxCountPerDay.value
  {
    var t, cap := Run(cfg, steps), cfg.maxCountPerDay.value;
    forall a | a in assets ensures Capped(t, u, a, cap, true) {
      RollingLimit(cfg, steps, u, a, "", "", cap, true);
    }
    CountByAsset(t, u, assets, from, cap);
    forall id | id in t ensures UserDay(u, from)(id, t[id]) <= DayOf(u, assets, from)(id, t[id]) {
      RowsOfAssets(cfg, steps, assets, id);
    }
    SumMapLe(t, UserDay(u, from), DayOf(u, assets, from));
    if |assets| == 0 {
      assert cap * |assets| == 0;
    } else if |assets| == 1 {
      assert cap * |assets| == cap;
    }
  }

  /** A policy with a daily count and no other rule. */
  function CountOnly(cap: nat): RiskConfig { RiskConfig(false, {}, {}, map[], map[], map[], Some(cap), map[]) }

  const PLAIN: Facts := Facts("", "", "", None, 1, false, true)

  function Asking(id: nat, u: UserId, a: AssetId): Step { Creates(0, id, u, a, 1, PLAIN) }

  /** `n` requests for one asset at one time. */
  function Burst(n: nat, u: UserId, a: AssetId): seq<Step> { seq(n, (i: nat) => Asking(i, u, a)) }

  /** The table holds `n` live rows, and every count of them is `n`. */
  ghost predicate Holds(t: Table, n: nat, u: UserId, a: AssetId) {
    && (forall id :: id in t ==> id < n)
    && SumMap(t, InWindow(u, a, -DAY, 0, true)) == n && SumMap(t, InWindow(u, a, -DAY, 0, false)) == n
    && SumMap(t, UserDay(u, -DAY)) == n
  }

  lemma AskingAccepted(cap: nat, t: Table, n: nat, u: UserId, a: AssetId, held: nat)
    requires n !in t && held < cap <= 0xFFFF_FFFF
    requires SumMap(t, InWindow(u, a, -DAY, 0, true)) == held && SumMap(t, InWindow(u, a, -DAY, 0, false)) == held
    ensures Next(CountOnly(cap), t, Asking(n, u, a)) == t[n := Row(u, a, 1, 0, true)]
    ensures SumMap(t[n := Row(u, a, 1, 0, true)], InWindow(u, a, -DAY, 0, true)) == held + 1
    ensures SumMap(t[n := Row(u, a, 1, 0, true)], InWindow(u, a, -DAY, 0, false)) == held + 1
    ensures SumMap(t[n := Row(u, a, 1, 0, true)], UserDay(u, -DAY)) == SumMap(t, UserDay(u, -DAY)) + 1
  {
    var row := Row(u, a, 1, 0, true);
    SumMapUpdate(t, InWindow(u, a, -DAY, 0, true), n, row);
    SumMapUpdate(t, InWindow(u, a, -DAY, 0, false), n, row);
    SumMapUpdate(t, UserDay(u, -DAY), n, row);
  }

  lemma {:induction false} BurstFills(cap: nat, n: nat, u: UserId, a: AssetId)
    requires n <= cap <= 0xFFFF_FFFF
    ensures Holds(Run(CountOnly(cap), Burst(n, u, a)), n, u, a)
  {
    if n > 0 {
      var t := Run(CountOnly(cap), Burst(n - 1, u, a));
      BurstFills(cap, n - 1, u, a);
      BurstStep(cap, n, u, a);
      AskingAccepted(cap, t, n - 1, u, a, n - 1);
    }
  }

  lemma BurstStep(cap: nat, n: nat, u: UserId, a: AssetId)
    requires n > 0
    ensures Run(CountOnly(cap), Burst(n, u, a))
      == Next(CountOnly(cap), Run(CountOnly(cap), Burst(n - 1, u, a)), Asking(n - 1, u, a))
  {
    var steps := Burst(n, u, a);
    assert steps[..|steps| - 1] == Burst(n - 1, u, a) && steps[|steps| - 1] == Asking(n - 1, u, a);
  }

  lemma OtherAssetUnused(cap: nat, n: nat, u: UserId, a: AssetId, b: AssetId)
    requires a != b
    ensures var t := Run(CountOnly(cap), Burst(n, u, a));
      SumMap(t, InWindow(u, b, -DAY, 0, true)) == 0 && SumMap(t, InWindow(u, b, -DAY, 0, false)) == 0
  {
    var t := Run(CountOnly(cap), Burst(n, u, a));
    forall id | id in t ensures t[id].asset == a { RowsOfAssets(CountOnly(cap), Burst(n, u, a), {a}, id); }
    SumMapZero(t, InWindow(u, b, -DAY, 0, true));
    SumMapZero(t, InWindow(u, b, -DAY, 0, false));
  }

  /** With two assets one day holds one withdrawal more than the configured count of a user. */
  lemma CountExceeded(cap: nat, u: UserId, a: AssetId, b: AssetId)
    requires a != b && 1 <= cap <= 0xFFFF_FFFF
    ensures var steps := Burst(cap, u, a) + [Asking(cap, u, b)];
      && Clocked(steps) && OnlyAssets(steps, {a, b})
      && SumMap(Run(CountOnly(cap), steps), UserDay(u, -DAY)) == cap + 1
  {
    var burst := Burst(cap, u, a);
    var steps := burst + [Asking(cap, u, b)];
    assert steps[..|steps| - 1] == burst;
    BurstFills(cap, cap, u, a);
    OtherAssetUnused(cap, cap, u, a, b);
    AskingAccepted(cap, Run(CountOnly(cap), burst), cap, u, b, 0);
  }

  /** The user's count is kept in every window of every run over some assets. */
  ghost predicate KeepsUserCount(cap: nat, assets: set<AssetId>) {
    forall steps, u, from {:trigger Run(CountOnly(cap), steps), UserDay(u, from)} ::
      Clocked(steps) && OnlyAssets(steps, assets) ==> SumMap(Run(CountOnly(cap), steps), UserDay(u, from)) <= cap
  }

  /**
   * The configured count per user is kept over a set of assets exactly when that set has at most
   * one asset, or the count is zero.
   */
  lemma UserCountKeptIff(cap: nat, assets: set<AssetId>)
    requires cap <= 0xFFFF_FFFF
    ensures KeepsUserCount(cap, assets) <==> cap == 0 || |assets| <= 1
  {
    if cap == 0 || |assets| <= 1 {
      forall steps, u, from {:trigger Run(CountOnly(cap), steps), UserDay(u, from)}
        | Clocked(steps) && OnlyAssets(steps, assets)
        ensures SumMap(Run(CountOnly(cap), steps), UserDay(u, from)) <= cap
      {
        PerUserCount(CountOnly(cap), steps, assets, u, from);
        assert cap == 0 ==> cap * |assets| == 0;
      }
    } else {
      var a :| a in assets;
      assert assets - {a} != {} by { assert |assets - {a}| == |assets| - 1; }
      var b :| b in assets - {a};
      CountExceeded(cap, 0, a, b);
      var steps := Burst(cap, 0, a) + [Asking(cap, 0, b)];
      assert OnlyAssets(steps, assets);
      assert SumMap(Run(CountOnly(cap), steps), UserDay(0, -DAY)) == cap + 1;
    }
  }
}
