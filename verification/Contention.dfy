/** Any number of concurrent reservations against one user's spendable balance, step by step. */
module Contention {
  import opened Prelude
  import opened Ledger
  import opened LedgerLaws
  import opened RefusalLaws

  /** Where one transaction is: before its row lock, holding it, or over. */
  datatype Phase =
    | Waiting
    | Locked(current: int)          // has the row lock and has read the balance
    | Posted(pending: Ledger)       // the entries are written, not yet committed
    | Denied                        // the check failed, not yet rolled back
    | Reserved
    | Refused
    | Aborted
  {
    predicate Holds() { Locked? || Posted? || Denied? }
  }

  datatype Contender = Contender(amount: int, phase: Phase)

  datatype Race = Race(ledger: Ledger, lock: Option<WithdrawalId>, contenders: map<WithdrawalId, Contender>)

  datatype Step = Lock(id: WithdrawalId) | Check(id: WithdrawalId) | Finish(id: WithdrawalId) | Crash(id: WithdrawalId)

  function Set(r: Race, id: WithdrawalId, phase: Phase): Race
    requires id in r.contenders
  {
    r.(contenders := r.contenders[id := r.contenders[id].(phase := phase)])
  }

  /** The check uses the balance read under the lock; the posting meets the balance trigger. */
  function Attempt(l: Ledger, id: WithdrawalId, u: UserId, a: AssetId, amount: int, current: int): Phase {
    if !IsPositive(amount) || current < amount then Denied
    else
      match PostPair(l, ReserveKey(id), User(Available, u, a), User(UserKind.Reserved, u, a), amount)
      case Err(_) => Denied
      case Ok(l') => Posted(l')
  }

  /** A step that is not enabled, such as locking a locked row, waits. */
  function Next(r: Race, u: UserId, a: AssetId, step: Step): Race {
    if step.id !in r.contenders then r
    else
      var c := r.contenders[step.id];
      match step
      case Lock(id) =>
        if c.phase.Waiting? && r.lock.None?
        then Set(r, id, Locked(Balance(r.ledger, User(Available, u, a)))).(lock := Some(id)) else r
      case Check(id) =>
        if c.phase.Locked? then Set(r, id, Attempt(r.ledger, id, u, a, c.amount, c.phase.current)) else r
      case Finish(id) =>
        if c.phase.Posted? then Set(r, id, Phase.Reserved).(ledger := c.phase.pending, lock := None)
        else if c.phase.Denied? then Set(r, id, Refused).(lock := None)
        else r
      case Crash(id) =>
        if c.phase.Holds() then Set(r, id, Aborted).(lock := None) else r
  }

  function Run(r: Race, u: UserId, a: AssetId, steps: seq<Step>): Race {
    if steps == [] then r else Next(Run(r, u, a, steps[..|steps| - 1]), u, a, steps[|steps| - 1])
  }

  // ---------------------------------------------------------------------- the invariant ---

  ghost function Won(): (WithdrawalId, Contender) -> int {
    (id: WithdrawalId, c: Contender) => if c.phase.Reserved? then c.amount else 0
  }

  function Spendable(l: Ledger, u: UserId, a: AssetId): int { Balance(l, User(Available, u, a)) }

  /** What the entries of a posted reservation did to the ledger it started from. */
  ghost predicate Reserves(l: Ledger, l': Ledger, id: WithdrawalId, u: UserId, a: AssetId, amount: int) {
    && Sound(l') && l'.posted.Keys == l.posted.Keys + {ReserveKey(id)}
    && Spendable(l', u, a) == Spendable(l, u, a) - amount >= 0
  }

  ghost predicate ContenderOk(r: Race, u: UserId, a: AssetId, id: WithdrawalId, c: Contender) {
    && IsPositive(c.amount)
    && (c.phase.Holds() <==> r.lock == Some(id))
    && (ReserveKey(id) in r.ledger.posted.Keys <==> c.phase.Reserved?)
    && (c.phase.Locked? ==> c.phase.current == Spendable(r.ledger, u, a))
    && (c.phase.Posted? ==> Reserves(r.ledger, c.phase.pending, id, u, a, c.amount))
    && (c.phase.Denied? || c.phase.Refused? ==> Spendable(r.ledger, u, a) < c.amount)
  }

  ghost predicate Orderly(r: Race, u: UserId, a: AssetId, start: int) {
    && Sound(r.ledger)
    && (forall id :: id in r.contenders ==> ContenderOk(r, u, a, id, r.contenders[id]))
    && (r.lock.Some? ==> r.lock.value in r.contenders)
    && Spendable(r.ledger, u, a) + SumMap(r.contenders, Won()) == start
  }

  /** Everyone waiting, nobody's key used. */
  ghost predicate Fresh(r: Race) {
    && Sound(r.ledger) && r.lock.None?
    && forall id :: id in r.contenders ==>
         IsPositive(r.contenders[id].amount) && r.contenders[id].phase.Waiting?
           && ReserveKey(id) !in r.ledger.posted.Keys
  }

  lemma FreshIsOrderly(r: Race, u: UserId, a: AssetId)
    requires Fresh(r)
    ensures Orderly(r, u, a, Spendable(r.ledger, u, a))
  {
    SumMapZero(r.contenders, Won());
  }

  /** One contender's phase changed without touching the committed ledger or winning. */
  lemma PhaseStep(r: Race, r': Race, u: UserId, a: AssetId, start: int, id: WithdrawalId, phase: Phase)
    requires Orderly(r, u, a, start) && id in r.contenders
    requires r'.contenders == r.contenders[id := r.contenders[id].(phase := phase)] && r'.ledger == r.ledger
    requires !r.contenders[id].phase.Reserved? && !phase.Reserved?
    requires r'.lock == if phase.Holds() then Some(id) else if r.contenders[id].phase.Holds() then None else r.lock
    requires phase.Holds() ==> r.lock.None? || r.lock == Some(id)
    requires ContenderOk(r', u, a, id, r'.contenders[id])
    ensures Orderly(r', u, a, start)
  {
    SumMapUpdate(r.contenders, Won(), id, r.contenders[id].(phase := phase));
    forall j | j in r'.contenders && j != id ensures ContenderOk(r', u, a, j, r'.contenders[j]) {
      assert ContenderOk(r, u, a, j, r.contenders[j]);
    }
  }

  lemma PostingReserves(l: Ledger, id: WithdrawalId, u: UserId, a: AssetId, amount: int)
    requires Sound(l) && ReserveKey(id) !in l.posted.Keys && IsPositive(amount)
    ensures var phase := Attempt(l, id, u, a, amount, Spendable(l, u, a));
      && (phase.Posted? <==> Spendable(l, u, a) >= amount)
      && (phase.Posted? ==> Reserves(l, phase.pending, id, u, a, amount))
      && (phase.Posted? || phase.Denied?)
  {
    ReserveAllowedIff(l, id, u, a, amount);
    PairEffect(l, ReserveKey(id), User(Available, u, a), User(UserKind.Reserved, u, a), amount);
    assert forall l' :: Sound(l') ==> Balance(l', User(Available, u, a)) >= 0;
  }

  lemma CheckStep(r: Race, u: UserId, a: AssetId, start: int, id: WithdrawalId)
    requires Orderly(r, u, a, start) && id in r.contenders && r.contenders[id].phase.Locked?
    ensures Orderly(Next(r, u, a, Check(id)), u, a, start)
  {
    var c := r.contenders[id];
    assert ContenderOk(r, u, a, id, c);
    PostingReserves(r.ledger, id, u, a, c.amount);
    var phase := Attempt(r.ledger, id, u, a, c.amount, c.phase.current);
    PhaseStep(r, Next(r, u, a, Check(id)), u, a, start, id, phase);
  }

  /** A commit by the lock holder: every other contender's view of the world still fits. */
  lemma CommitStep(r: Race, r': Race, u: UserId, a: AssetId, start: int, id: WithdrawalId)
    requires Orderly(r, u, a, start) && id in r.contenders && r.contenders[id].phase.Posted?
    requires r' == Set(r, id, Phase.Reserved).(ledger := r.contenders[id].phase.pending, lock := None)
    ensures Orderly(r', u, a, start)
  {
    var c := r.contenders[id];
    assert ContenderOk(r, u, a, id, c);
    SumMapUpdate(r.contenders, Won(), id, c.(phase := Phase.Reserved));
    forall j | j in r'.contenders ensures ContenderOk(r', u, a, j, r'.contenders[j]) {
      assert ContenderOk(r, u, a, j, r.contenders[j]);
    }
  }

  lemma StepOrderly(r: Race, u: UserId, a: AssetId, start: int, step: Step)
    requires Orderly(r, u, a, start)
    ensures Orderly(Next(r, u, a, step), u, a, start)
  {
    var r', id := Next(r, u, a, step), step.id;
    if r' != r {
      var c := r.contenders[id];
      assert ContenderOk(r, u, a, id, c);
      match step
      case Lock(_) => PhaseStep(r, r', u, a, start, id, Locked(Spendable(r.ledger, u, a)));
      case Check(_) => CheckStep(r, u, a, start, id);
      case Finish(_) =>
        if c.phase.Posted? { CommitStep(r, r', u, a, start, id); } else { PhaseStep(r, r', u, a, start, id, Refused); }
      case Crash(_) => PhaseStep(r, r', u, a, start, id, Aborted);
    }
  }

  lemma {:induction false} RunOrderly(r: Race, u: UserId, a: AssetId, start: int, steps: seq<Step>)
    requires Orderly(r, u, a, start)
    ensures Orderly(Run(r, u, a, steps), u, a, start)
  {
    if steps != [] {
      RunOrderly(r, u, a, start, steps[..|steps| - 1]);
      StepOrderly(Run(r, u, a, steps[..|steps| - 1]), u, a, start, steps[|steps| - 1]);
    }
  }

  /**
   * However the lock, check, post and commit steps of the transactions interleave, and wherever
   * they crash, the spendable balance never goes negative and what was reserved plus what remains
   * is what there was.
   */
  lemma NeverOverdrawn(r: Race, u: UserId, a: AssetId, steps: seq<Step>)
    requires Fresh(r)
    ensures var r' := Run(r, u, a, steps);
      && Spendable(r'.ledger, u, a) >= 0
      && Spendable(r'.ledger, u, a) + SumMap(r'.contenders, Won()) == Spendable(r.ledger, u, a)
  {
    FreshIsOrderly(r, u, a);
    RunOrderly(r, u, a, Spendable(r.ledger, u, a), steps);
    assert Balance(Run(r, u, a, steps).ledger, User(Available, u, a)) >= 0;
  }

  // ---------------------------------------------------------------------- how many succeed ---

  ghost function Winner(): (WithdrawalId, Contender) -> int {
    (id: WithdrawalId, c: Contender) => if c.phase.Reserved? then 1 else 0
  }

  ghost function Winners(r: Race): int { SumMap(r.contenders, Winner()) }

  ghost predicate AllAsk(cs: map<WithdrawalId, Contender>, amount: int) {
    forall id :: id in cs ==> cs[id].amount == amount
  }

  lemma {:induction false} EqualShares(cs: map<WithdrawalId, Contender>, amount: int)
    requires AllAsk(cs, amount)
    ensures SumMap(cs, Won()) == amount * SumMap(cs, Winner())
    ensures 0 <= SumMap(cs, Winner()) <= |cs|
    ensures (forall id :: id in cs ==> cs[id].phase.Reserved?) ==> SumMap(cs, Winner()) == |cs|
    decreases |cs|
  {
    if cs != map[] {
      var id :| id in cs;
      SumMapRemove(cs, Won(), id);
      SumMapRemove(cs, Winner(), id);
      EqualShares(cs - {id}, amount);
      assert |cs - {id}| == |cs| - 1 by { SmallerMap(cs, id); }
    }
  }

  lemma SmallerMap(cs: map<WithdrawalId, Contender>, id: WithdrawalId)
    requires id in cs
    ensures |cs - {id}| == |cs| - 1
  {
    assert cs == (cs - {id})[id := cs[id]];
  }

  lemma {:induction false} AsksNeverChange(r: Race, u: UserId, a: AssetId, steps: seq<Step>, amount: int)
    requires AllAsk(r.contenders, amount)
    ensures AllAsk(Run(r, u, a, steps).contenders, amount) && |Run(r, u, a, steps).contenders| == |r.contenders|
  {
    if steps != [] {
      AsksNeverChange(r, u, a, steps[..|steps| - 1], amount);
      var m := Run(r, u, a, steps[..|steps| - 1]);
      assert Run(r, u, a, steps).contenders.Keys == m.contenders.Keys;
      assert |Run(r, u, a, steps).contenders| == |Run(r, u, a, steps).contenders.Keys|;
    }
  }

  lemma {:induction false} AtLeastOnce(k: nat, n: int)
    requires n > 0 && k >= 1
    ensures k * n >= n
  {
    if k > 1 {
      AtLeastOnce(k - 1, n);
      assert k * n == (k - 1) * n + n;
    }
  }

  lemma Quotient(start: int, amount: int, won: int, rest: int)
    requires amount > 0 && rest >= 0 && won >= 0 && start == rest + amount * won
    ensures rest < amount ==> start / amount == won
    ensures won <= start / amount
  {
    var q := start / amount;
    QuotientGap(start, amount, won, rest, q, start % amount);
  }

  lemma QuotientGap(start: int, amount: int, won: int, rest: int, q: int, m: int)
    requires amount > 0 && rest >= 0 && 0 <= m < amount && start == rest + amount * won && start == amount * q + m
    ensures rest < amount ==> q == won
    ensures won <= q
  {
    assert (q - won) * amount == rest - m;
    if q < won {
      AtLeastOnce(won - q, amount);
    } else if q > won {
      AtLeastOnce(q - won, amount);
    }
  }

  /** For equal amounts, once every transaction has run to its end exactly min(N, B div a) have reserved. */
  lemma ExactlyAsManyAsFit(r: Race, u: UserId, a: AssetId, steps: seq<Step>, amount: int)
    requires Fresh(r) && AllAsk(r.contenders, amount) && amount > 0
    requires forall id :: id in Run(r, u, a, steps).contenders ==>
      Run(r, u, a, steps).contenders[id].phase.Reserved? || Run(r, u, a, steps).contenders[id].phase.Refused?
    ensures var n, fit := |r.contenders|, Spendable(r.ledger, u, a) / amount;
      Winners(Run(r, u, a, steps)) == if n <= fit then n else fit
  {
    var r', start := Run(r, u, a, steps), Spendable(r.ledger, u, a);
    FreshIsOrderly(r, u, a);
    RunOrderly(r, u, a, start, steps);
    AsksNeverChange(r, u, a, steps, amount);
    EqualShares(r'.contenders, amount);
    assert Balance(r'.ledger, User(Available, u, a)) >= 0;
    Quotient(start, amount, Winners(r'), Spendable(r'.ledger, u, a));
    if id :| id in r'.contenders && r'.contenders[id].phase.Refused? {
      assert ContenderOk(r', u, a, id, r'.contenders[id]);
    }
  }
}
