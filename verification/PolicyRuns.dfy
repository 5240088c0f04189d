/** The rolling limits on the withdrawal rows themselves, over runs of the whole money system with a clock. */
module PolicyRuns {
  import opened Prelude
  import opened Ledger
  import opened Books
  import opened BooksLaws
  import opened Pipeline
  import opened PipelineLaws
  import opened RunLaws
  import opened PolicyLaws
  import Velocity

  /** `created` is the creation time column of the withdrawal rows. */
  datatype Timed = Timed(world: World, created: map<WithdrawalId, nat>)

  datatype TimedStep =
    | Requests(now: nat, id: WithdrawalId, request: Request, facts: Velocity.Facts)
    | Acts(action: Action)

  function RowOf(w: Withdrawal, created: nat): Velocity.Row {
    Velocity.Row(w.user, w.asset, w.amount, created, !w.status.Failed? && !w.status.Cancelled?)
  }

  function TableOf(b: Books, created: map<WithdrawalId, nat>): Velocity.Table {
    map id | id in b.withdrawals && id in created :: RowOf(b.withdrawals[id], created[id])
  }

  /** The decision `create` computes from the rows and the ledger. */
  ghost function Judgement(cfg: Velocity.RiskConfig, s: Timed, step: TimedStep): Decision
    requires step.Requests?
  {
    var q := step.request;
    var facts := step.facts.(available := Balance(s.world.books.ledger, User(Available, q.user, q.asset)));
    DecisionOf(Velocity.Evaluate(cfg,
        Velocity.InputOf(TableOf(s.world.books, s.created), step.now, step.id, q.user, q.asset, q.amount, facts)))
  }

  /** Reading back a day's sum beyond 128 bits fails, and with it the request. */
  ghost predicate SumReadable(s: Timed, step: TimedStep)
    requires step.Requests?
  {
    var q := step.request;
    var t := Velocity.Inserted(TableOf(s.world.books, s.created), step.now, step.id, q.user, q.asset, q.amount);
    Fits(Velocity.WindowSum(t, q.user, q.asset, step.now - Velocity.DAY, step.now))
  }

  ghost function NextTimed(cfg: Velocity.RiskConfig, s: Timed, step: TimedStep): Timed {
    match step
    case Requests(now, id, q, _) =>
      if !SumReadable(s, step) then s
      else
        var w := Next(s.world, DoCreate(id, q, Judgement(cfg, s, step)));
        var isNew := id in w.books.withdrawals && id !in s.world.books.withdrawals;
        Timed(w, if isNew then s.created[id := now] else s.created)
    case Acts(action) => if action.DoCreate? then s else s.(world := Next(s.world, action))
  }

  ghost function RunTimed(cfg: Velocity.RiskConfig, steps: seq<TimedStep>): Timed {
    if steps == [] then Timed(START, map[]) else NextTimed(cfg, RunTimed(cfg, steps[..|steps| - 1]), steps[|steps| - 1])
  }

  // ------------------------------------------------------------------- the rows of a step ---

  lemma CancelKeys(b: Books, id: WithdrawalId)
    ensures Cancel(b, id).Ok? ==> Cancel(b, id).value.withdrawals.Keys == b.withdrawals.Keys
  {}

  lemma FailKeys(b: Books, id: WithdrawalId)
    ensures FailAndRelease(b, id).Ok? ==> FailAndRelease(b, id).value.withdrawals.Keys == b.withdrawals.Keys
  {}

  lemma BroadcastKeys(b: Books, id: WithdrawalId)
    ensures MarkBroadcast(b, id).Ok? ==> MarkBroadcast(b, id).value.withdrawals.Keys == b.withdrawals.Keys
  {}

  lemma SettleKeys(b: Books, id: WithdrawalId, native: Option<AssetId>, fee: nat)
    ensures SettleSuccess(b, id, native, fee).Ok? ==>
      SettleSuccess(b, id, native, fee).value.withdrawals.Keys == b.withdrawals.Keys
    ensures SettleFailure(b, id, native, fee).Ok? ==>
      SettleFailure(b, id, native, fee).value.withdrawals.Keys == b.withdrawals.Keys
  {}

  /** Only a request adds a row. */
  lemma SameKeys(s: World, action: Action)
    requires !action.DoCreate?
    ensures Next(s, action).books.withdrawals.Keys == s.books.withdrawals.Keys
  {
    match action
    case DoCancel(id) => CancelKeys(s.books, id);
    case DoRecord => if s.worker.Sent? { BroadcastKeys(s.books, s.worker.id); }
    case DoRelease => if s.worker.Releasing? { FailKeys(s.books, s.worker.id); }
    case DoRecover(id, status, fee) => BroadcastKeys(s.books, id);
    case DoInFlight(id, status, native, fee) => SettleKeys(s.books, id, native, fee);
    case DoReorg(ds) => if ReorgDeposits(s.books, ds).Ok? { ReorgLeavesWithdrawals(s.books, ds); }
    case DoCredit(d) =>
      if CreditConfirmed(s.books, d).Ok? { CreditLeavesWithdrawals(s.books, d, CreditConfirmed(s.books, d).value); }
    case _ =>
  }

  /** Rows that only evolve are counted no more than before. */
  lemma EvolvedCapped(
      b: Books, b': Books, created: map<WithdrawalId, nat>, u: UserId, a: AssetId, cap: int, count: bool, now: int)
    requires RowsEvolve(b, b') && b'.withdrawals.Keys == b.withdrawals.Keys
    requires Velocity.Past(TableOf(b, created), now) && Velocity.Capped(TableOf(b, created), u, a, cap, count)
    ensures Velocity.Past(TableOf(b', created), now) && Velocity.Capped(TableOf(b', created), u, a, cap, count)
  {
    var t, t' := TableOf(b, created), TableOf(b', created);
    forall id | id in t ensures id in t' && t'[id] == t[id].(live := t'[id].live) && (t'[id].live ==> t[id].live) {
      assert Evolves(b.withdrawals[id], b'.withdrawals[id]);
    }
    assert t'.Keys == t.Keys;
    forall from: int {:trigger Velocity.DayFrom(u, a, from, count)}
      ensures SumMap(t', Velocity.DayFrom(u, a, from, count)) <= cap
    {
      var f := Velocity.DayFrom(u, a, from, count);
      forall id | id in t ensures f(id, t'[id]) <= f(id, t[id]) {}
      SumMapShrinks(t, t', f);
    }
  }

  /** A request that makes a row makes the row the limits see. */
  lemma RequestedRow(cfg: Velocity.RiskConfig, s: Timed, step: TimedStep)
    requires step.Requests? && SumReadable(s, step) && s.created.Keys == s.world.books.withdrawals.Keys
    ensures var s', q := NextTimed(cfg, s, step), step.request;
      var facts := step.facts.(available := Balance(s.world.books.ledger, User(Available, q.user, q.asset)));
      var t, t' := TableOf(s.world.books, s.created), TableOf(s'.world.books, s'.created);
      && s'.created.Keys == s'.world.books.withdrawals.Keys
      && (t' == t || t' == Velocity.Next(cfg, t, Velocity.Creates(step.now, step.id, q.user, q.asset, q.amount, facts)))
  {
    var b, q, decision := s.world.books, step.request, Judgement(cfg, s, step);
    var made := Create(b, step.id, q, decision);
    if made.Ok? && !made.value.1.Existing? {
      MadeRow(b, step.id, q, decision, made.value.0);
      TableWith(b, made.value.0, s.created, step.id, step.now,
          Velocity.Row(q.user, q.asset, q.amount, step.now, !decision.Deny?));
    } else {
      UnmadeRow(b, step.id, q, decision);
    }
  }

  lemma UnmadeRow(b: Books, id: WithdrawalId, q: Request, decision: Decision)
    ensures var made := Create(b, id, q, decision); made.Ok? && made.value.1.Existing? ==> made.value.0 == b
  {}

  lemma TableWith(b: Books, b': Books, created: map<WithdrawalId, nat>, id: WithdrawalId, now: nat, row: Velocity.Row)
    requires created.Keys == b.withdrawals.Keys && id !in b.withdrawals && id in b'.withdrawals
    requires b'.withdrawals == b.withdrawals[id := b'.withdrawals[id]] && RowOf(b'.withdrawals[id], now) == row
    ensures TableOf(b', created[id := now]) == TableOf(b, created)[id := row]
    ensures created[id := now].Keys == b'.withdrawals.Keys
  {}

  lemma MadeRow(b: Books, id: WithdrawalId, q: Request, decision: Decision, b': Books)
    requires Create(b, id, q, decision).Ok? && !Create(b, id, q, decision).value.1.Existing?
    requires Create(b, id, q, decision).value.0 == b'
    ensures id !in b.withdrawals && IsPositive(q.amount)
    ensures id in b'.withdrawals && b'.withdrawals == b.withdrawals[id := b'.withdrawals[id]]
    ensures forall now :: RowOf(b'.withdrawals[id], now) == Velocity.Row(q.user, q.asset, q.amount, now,
        !decision.Deny?)
  {}

  // --------------------------------------------------------------- what becomes of a request ---

  /** A user's withdrawals of an asset created in the 24 hours from `from` on that are neither failed nor cancelled. */
  ghost function DayOf(
      created: map<WithdrawalId, nat>, u: UserId, a: AssetId, from: int, count: bool)
      : (WithdrawalId, Withdrawal) -> int {
    (id: WithdrawalId, w: Withdrawal) =>
      if id in created && w.user == u && w.asset == a && !w.status.Failed? && !w.status.Cancelled?
         && from <= created[id] <= from + 86_400_000_000
      then (if count then 1 else w.amount) else 0
  }

  /** The limits' view of the rows counts what is in them. */
  lemma DayIsOfRows(b: Books, created: map<WithdrawalId, nat>, u: UserId, a: AssetId, from: int, count: bool)
    requires created.Keys == b.withdrawals.Keys
    ensures SumMap(TableOf(b, created), Velocity.DayFrom(u, a, from, count))
         == SumMap(b.withdrawals, DayOf(created, u, a, from, count))
  {
    SumMapSame(
      TableOf(b, created), b.withdrawals, Velocity.DayFrom(u, a, from, count), DayOf(created, u, a, from, count));
  }

  /** What the policy has to go by: the request, its facts, the ledger's balance and the user's last day. */
  ghost function Known(s: Timed, step: TimedStep): Velocity.RiskInput
    requires step.Requests?
  {
    var q, f, from := step.request, step.facts, step.now - 86_400_000_000;
    Velocity.RiskInput(f.chain, f.symbol, q.amount, f.destination, f.hotWallet,
      Balance(s.world.books.ledger, User(Available, q.user, q.asset)),
      SumMap(s.world.books.withdrawals, DayOf(s.created, q.user, q.asset, from, false)),
      LastDayCount(s, q, from), f.foreignDeposit, f.enabled)
  }

  ghost function LastDayCount(s: Timed, q: Request, from: int): nat {
    var f := DayOf(s.created, q.user, q.asset, from, true);
    SumMapNonNegative(s.world.books.withdrawals, f);
    SumMap(s.world.books.withdrawals, f)
  }

  lemma JudgedOnHistory(s: Timed, step: TimedStep)
    requires step.Requests? && step.id !in s.world.books.withdrawals && s.created.Keys == s.world.books.withdrawals.Keys
    ensures var q := step.request;
      var facts := step.facts.(available := Balance(s.world.books.ledger, User(Available, q.user, q.asset)));
      Velocity.InputOf(TableOf(s.world.books, s.created), step.now, step.id, q.user, q.asset, q.amount, facts)
      == Known(s, step)
  {
    var b, q, t, from := s.world.books, step.request, TableOf(s.world.books, s.created), step.now - Velocity.DAY;
    var facts := step.facts.(available := Balance(b.ledger, User(Available, q.user, q.asset)));
    Velocity.HistoryOnly(t, step.now, step.id, q.user, q.asset, q.amount, facts);
    assert from + Velocity.DAY == step.now;
    DayIsOfRows(b, s.created, q.user, q.asset, from, false);
    DayIsOfRows(b, s.created, q.user, q.asset, from, true);
  }

  /** A day's sum is never negative. */
  lemma DaySumNonNegative(b: Books, created: map<WithdrawalId, nat>, u: UserId, a: AssetId, from: int)
    requires Inv(b)
    ensures SumMap(b.withdrawals, DayOf(created, u, a, from, false)) >= 0
  {
    var f := DayOf(created, u, a, from, false);
    forall id | id in b.withdrawals ensures f(id, b.withdrawals[id]) >= 0 {
      RowFact(b, id);
    }
    SumMapNonNegative(b.withdrawals, f);
  }

  /**
   * A new request in any state of the money system: judged on the ledger's balance and the rows of the
   * last day, it is failed exactly when it breaks a rule, held exactly when it is above the governing
   * manual threshold, approved otherwise, and stamped with the time it came.
   */
  lemma RequestOutcome(cfg: Velocity.RiskConfig, s: Timed, step: TimedStep)
    requires step.Requests? && Inv(s.world.books) && step.id !in s.world.books.withdrawals
    requires s.created.Keys == s.world.books.withdrawals.Keys
    requires (step.request.user, step.request.idempotencyKey) !in s.world.books.byKey
    requires 8 <= |step.request.idempotencyKey| <= 128 && IsPositive(step.request.amount)
    requires Known(s, step).dailyTotal + step.request.amount <= MAX_AMOUNT
    requires forall k :: k in cfg.maxPerDay ==> Fits(cfg.maxPerDay[k])
    ensures var s', i := NextTimed(cfg, s, step), Known(s, step);
      && step.id in s'.world.books.withdrawals && s'.created == s.created[step.id := step.now]
      && var w := s'.world.books.withdrawals[step.id];
         w.status == if !Velocity.Acceptable(cfg, i) then WithdrawalStatus.Failed
                     else if Above(cfg.manualThreshold, i) then Validated else Approved
  {
    var b, q, i := s.world.books, step.request, Known(s, step);
    JudgedOnHistory(s, step);
    DaySumNonNegative(b, s.created, q.user, q.asset, step.now - 86_400_000_000);
    ReadableSum(s, step);
    Velocity.DeniedIff(cfg, i);
    JudgedRequest(cfg, b, step.id, q, i);
    FirstStatus(b, step.id, q, DecisionOf(Velocity.Evaluate(cfg, i)));
  }

  lemma ReadableSum(s: Timed, step: TimedStep)
    requires step.Requests? && step.id !in s.world.books.withdrawals && step.request.amount > 0
    requires s.created.Keys == s.world.books.withdrawals.Keys
    requires 0 <= Known(s, step).dailyTotal <= MAX_AMOUNT - step.request.amount
    ensures SumReadable(s, step)
  {
    var q, t := step.request, TableOf(s.world.books, s.created);
    var f := Velocity.InWindow(q.user, q.asset, step.now - Velocity.DAY, step.now, false);
    SumMapUpdate(t, f, step.id, Velocity.Row(q.user, q.asset, q.amount, step.now, true));
    var from := step.now - Velocity.DAY;
    assert from + Velocity.DAY == step.now;
    DayIsOfRows(s.world.books, s.created, q.user, q.asset, from, false);
  }

  lemma FirstStatus(b: Books, id: WithdrawalId, q: Request, decision: Decision)
    requires id !in b.withdrawals && (q.user, q.idempotencyKey) !in b.byKey && Create(b, id, q, decision).Ok?
    ensures var b' := Create(b, id, q, decision).value.0;
      id in b'.withdrawals && (b'.withdrawals[id].status == match decision
        case Deny => WithdrawalStatus.Failed
        case ManualApproval => Validated
        case Allow => Approved)
  {}

  // --------------------------------------------------------------------------- the limit ---

  ghost predicate Clocked(steps: seq<TimedStep>) {
    forall i, j :: 0 <= i < j < |steps| && steps[i].Requests? && steps[j].Requests? ==> steps[i].now <= steps[j].now
  }

  ghost predicate Named(steps: seq<TimedStep>, a: AssetId, chain: string, symbol: string) {
    forall i :: 0 <= i < |steps| && steps[i].Requests? && steps[i].request.asset == a ==>
      steps[i].facts.chain == chain && steps[i].facts.symbol == symbol
  }

  ghost predicate Limited(s: Timed, now: int, u: UserId, a: AssetId, cap: int, count: bool) {
    && Safe(s.world) && s.created.Keys == s.world.books.withdrawals.Keys
    && Velocity.Past(TableOf(s.world.books, s.created), now)
    && Velocity.Capped(TableOf(s.world.books, s.created), u, a, cap, count)
  }

  lemma ActLimited(s: Timed, action: Action, now: int, u: UserId, a: AssetId, cap: int, count: bool)
    requires Limited(s, now, u, a, cap, count) && !action.DoCreate?
    ensures Limited(s.(world := Next(s.world, action)), now, u, a, cap, count)
  {
    NextSafe(s.world, action);
    NextSteps(s.world, action);
    SameKeys(s.world, action);
    EvolvedCapped(s.world.books, Next(s.world, action).books, s.created, u, a, cap, count, now);
  }

  lemma PastLater(t: Velocity.Table, now: int, later: int)
    requires Velocity.Past(t, now) && now <= later
    ensures Velocity.Past(t, later)
  {}

  lemma RequestLimited(
    cfg: Velocity.RiskConfig, s: Timed, step: TimedStep, now: int, u: UserId, a: AssetId, chain: string, symbol: string,
    cap: int, count: bool)
    requires step.Requests? && now <= step.now && Limited(s, now, u, a, cap, count) && cap >= 0
    requires Velocity.WithinCap(cfg, chain, symbol, cap, count)
    requires !count && step.request.asset == a ==> step.facts.chain == chain && step.facts.symbol == symbol
    ensures Limited(NextTimed(cfg, s, step), step.now, u, a, cap, count)
  {
    var t, q := TableOf(s.world.books, s.created), step.request;
    PastLater(t, now, step.now);
    if SumReadable(s, step) {
      NextSafe(s.world, DoCreate(step.id, q, Judgement(cfg, s, step)));
      RequestedRow(cfg, s, step);
      var facts := step.facts.(available := Balance(s.world.books.ledger, User(Available, q.user, q.asset)));
      Velocity.CreateKeeps(
        cfg, t, Velocity.Creates(step.now, step.id, q.user, q.asset, q.amount, facts), u, a, chain, symbol, cap, count);
    }
  }

  ghost function Clock(steps: seq<TimedStep>): nat {
    if steps == [] then 0
    else if steps[|steps| - 1].Requests? then steps[|steps| - 1].now
    else Clock(steps[..|steps| - 1])
  }

  lemma {:induction false} ClockAt(steps: seq<TimedStep>) returns (i: int)
    ensures Clock(steps) == 0 || (0 <= i < |steps| && steps[i].Requests? && steps[i].now == Clock(steps))
  {
    i := |steps| - 1;
    if steps != [] && !steps[i].Requests? {
      i := ClockAt(steps[..|steps| - 1]);
    }
  }

  /**
   * The rolling limits over every run of the money system, with each decision computed from the
   * rows and balances it finds: at every moment and in every 24-hour window, a user's withdrawals of
   * an asset that are neither failed nor cancelled sum to at most the cap, and number at most the count.
   */
  lemma {:induction false} LimitsAlwaysHold(
    cfg: Velocity.RiskConfig, steps: seq<TimedStep>, u: UserId, a: AssetId, chain: string, symbol: string, cap: int,
    count: bool)
    requires Clocked(steps) && (!count ==> Named(steps, a, chain, symbol))
    requires Velocity.WithinCap(cfg, chain, symbol, cap, count) && cap >= 0
    ensures Limited(RunTimed(cfg, steps), Clock(steps), u, a, cap, count)
  {
    if steps == [] {
      StartSafe();
      var t := TableOf(START.books, map[]);
      forall from: int {:trigger Velocity.DayFrom(u, a, from, count)}
        ensures SumMap(t, Velocity.DayFrom(u, a, from, count)) <= cap
      {
        SumMapZero(t, Velocity.DayFrom(u, a, from, count));
      }
    } else {
      var front, last := steps[..|steps| - 1], steps[|steps| - 1];
      LimitsAlwaysHold(cfg, front, u, a, chain, symbol, cap, count);
      match last
      case Requests(_, _, _, _) =>
        var i := ClockAt(front);
        assert Clock(front) <= last.now;
        RequestLimited(cfg, RunTimed(cfg, front), last, Clock(front), u, a, chain, symbol, cap, count);
      case Acts(action) =>
        if !action.DoCreate? {
          ActLimited(RunTimed(cfg, front), action, Clock(front), u, a, cap, count);
        }
    }
  }

  /**
   * The same read off the rows: in no run does a 24-hour window hold more of a user's withdrawals of an
   * asset, neither failed nor cancelled, than the governing cap or the count allows.
   */
  lemma LimitsOnTheRows(
    cfg: Velocity.RiskConfig, steps: seq<TimedStep>, u: UserId, a: AssetId, chain: string, symbol: string, cap: int,
    count: bool, from: int)
    requires Clocked(steps) && (!count ==> Named(steps, a, chain, symbol))
    requires Velocity.WithinCap(cfg, chain, symbol, cap, count) && cap >= 0
    ensures var s := RunTimed(cfg, steps); SumMap(s.world.books.withdrawals, DayOf(s.created, u, a, from, count)) <= cap
  {
    var s := RunTimed(cfg, steps);
    LimitsAlwaysHold(cfg, steps, u, a, chain, symbol, cap, count);
    DayIsOfRows(s.world.books, s.created, u, a, from, count);
    assert SumMap(TableOf(s.world.books, s.created), Velocity.DayFrom(u, a, from, count)) <= cap;
  }
}
