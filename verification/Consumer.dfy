/** Event consumers: the claim-then-act wrapper, the retry loop, and the deposit-credit handler. */
module Consumer {
  type EventId = nat

  /** What the wrapped action returned. */
  datatype Verdict = Done | Rejected | Fails

  /** A commit may be refused, go through, or go through while the caller sees an error or crashes. */
  datatype Commit = RolledBack | Committed | CommittedUnseen

  /** One consumer's processed-event rows, how often each event's effect was committed, and its dead letters. */
  datatype Log = Log(claims: set<EventId>, effects: multiset<EventId>, dead: multiset<EventId>)

  const EMPTY_LOG: Log := Log({}, multiset{}, multiset{})

  // -------------------------------------------------------------------- handle_once ---

  /** `handle_once`: the claim and the effect are in one transaction. */
  function HandleOnce(l: Log, e: EventId, verdict: Verdict, commit: Commit): (Log, Verdict) {
    if e in l.claims then (l, Done)
    else if !verdict.Done? then (l, verdict)
    else if commit.RolledBack? then (l, Fails)
    else (l.(claims := l.claims + {e}, effects := l.effects + multiset{e}), if commit.Committed? then Done else Fails)
  }

  datatype Step =
    | Delivers(event: EventId, verdict: Verdict, commit: Commit)
    | Prunes(events: set<EventId>)        // `prune_processed`

  function Next(l: Log, step: Step): Log {
    match step
    case Delivers(e, verdict, commit) => HandleOnce(l, e, verdict, commit).0
    case Prunes(es) => l.(claims := l.claims - es)
  }

  function Run(steps: seq<Step>): Log {
    if steps == [] then EMPTY_LOG else Next(Run(steps[..|steps| - 1]), steps[|steps| - 1])
  }

  /** How often pruning took away the event's claim. */
  function Forgotten(steps: seq<Step>, e: EventId): nat {
    if steps == [] then 0
    else
      var front, last := steps[..|steps| - 1], steps[|steps| - 1];
      Forgotten(front, e) + if last.Prunes? && e in last.events && e in Run(front).claims then 1 else 0
  }

  /** A claim row is kept exactly when its effect committed; each forgotten claim allows one more effect. */
  lemma {:induction false} EffectsMatchClaims(steps: seq<Step>, e: EventId)
    ensures Run(steps).effects[e] == Forgotten(steps, e) + if e in Run(steps).claims then 1 else 0
  {
    if steps != [] {
      EffectsMatchClaims(steps[..|steps| - 1], e);
    }
  }

  ghost predicate NeverPruned(steps: seq<Step>, e: EventId) {
    forall i :: 0 <= i < |steps| && steps[i].Prunes? ==> e !in steps[i].events
  }

  lemma {:induction false} NothingForgotten(steps: seq<Step>, e: EventId)
    requires NeverPruned(steps, e)
    ensures Forgotten(steps, e) == 0
  {
    if steps != [] {
      NothingForgotten(steps[..|steps| - 1], e);
    }
  }

  /** The reply a delivery got. */
  function ReplyAt(steps: seq<Step>, i: nat): Verdict
    requires i < |steps| && steps[i].Delivers?
  {
    HandleOnce(Run(steps[..i]), steps[i].event, steps[i].verdict, steps[i].commit).1
  }

  lemma {:induction false} ClaimStays(steps: seq<Step>, i: nat, e: EventId)
    requires i <= |steps| && NeverPruned(steps, e) && e in Run(steps[..i]).claims
    ensures e in Run(steps).claims
  {
    if i == |steps| {
      assert steps[..i] == steps;
    } else {
      assert steps[..|steps| - 1][..i] == steps[..i];
      ClaimStays(steps[..|steps| - 1], i, e);
    }
  }

  /**
   * Exactly once. While the event's claim is not pruned its effect commits at most once, over any
   * deliveries, errors, rejections and crashes, and exactly once after a delivery that replied `Done`.
   */
  lemma ExactlyOnce(steps: seq<Step>, i: nat, e: EventId)
    requires NeverPruned(steps, e)
    ensures Run(steps).effects[e] <= 1 && (e in Run(steps).claims <==> Run(steps).effects[e] == 1)
    ensures i < |steps| && steps[i].Delivers? && steps[i].event == e && ReplyAt(steps, i).Done? ==>
      Run(steps).effects[e] == 1
  {
    EffectsMatchClaims(steps, e);
    NothingForgotten(steps, e);
    if i < |steps| && steps[i].Delivers? && steps[i].event == e && ReplyAt(steps, i).Done? {
      assert steps[..i + 1][..i] == steps[..i];
      assert e in Run(steps[..i + 1]).claims;
      ClaimStays(steps, i + 1, e);
    }
  }

  /** Without that: a redelivery after pruning commits the effect a second time. */
  lemma PruningForgets(e: EventId)
    ensures Run([Delivers(e, Done, Committed), Prunes({e}), Delivers(e, Done, Committed)]).effects[e] == 2
  {
    var a, b, c := Delivers(e, Done, Committed), Prunes({e}), Delivers(e, Done, Committed);
    assert [a, b, c][..2] == [a, b] && [a, b][..1] == [a] && [a][..0] == [];
    assert Run([a]).effects[e] == 1;
    assert e !in Run([a, b]).claims && Run([a, b]).effects[e] == 1;
  }

  // ---------------------------------------------------------------------- the retry loop ---

  datatype Attempt = Attempt(verdict: Verdict, commit: Commit)

  function Budget(maxAttempts: nat): nat { if maxAttempts > 1 then maxAttempts else 1 }

  /** The attempts made from number `n` on (counted from 0): the log after, and whether the last one failed for good. */
  function Retry(l: Log, e: EventId, attempts: seq<Attempt>, n: nat, maxAttempts: nat): Log
    requires n < Budget(maxAttempts) <= |attempts|
    decreases Budget(maxAttempts) - n
  {
    var (l', reply) := HandleOnce(l, e, attempts[n].verdict, attempts[n].commit);
    match reply
    case Done => l'
    case Rejected => l'.(dead := l'.dead + multiset{e})
    case Fails =>
      if n + 1 >= maxAttempts then l'.(dead := l'.dead + multiset{e})
      else Retry(l', e, attempts, n + 1, maxAttempts)
  }

  function ProcessSpec(l: Log, e: EventId, supported: bool, attempts: seq<Attempt>, maxAttempts: nat): Log
    requires Budget(maxAttempts) <= |attempts|
  {
    if !supported then l.(dead := l.dead + multiset{e})
    else if e in l.claims then l
    else Retry(l, e, attempts, 0, maxAttempts)
  }

  /** An attempt that leaves nothing behind and asks for another. */
  predicate Misses(a: Attempt) { a.verdict.Fails? || (a.verdict.Done? && a.commit.RolledBack?) }

  /** The first attempt from `n` on that does not miss, within the budget. */
  ghost predicate FirstHit(attempts: seq<Attempt>, n: nat, k: nat, maxAttempts: nat) {
    && n <= k < Budget(maxAttempts) <= |attempts| && !Misses(attempts[k])
    && forall j :: n <= j < k ==> Misses(attempts[j])
  }

  /** The event is claimed and its effect committed once. */
  function Acted(l: Log, e: EventId): Log { l.(claims := l.claims + {e}, effects := l.effects + multiset{e}) }

  function Buried(l: Log, e: EventId): Log { l.(dead := l.dead + multiset{e}) }

  /** What the attempt that decides leaves; a commit whose reply is lost is found again unless it was the last try. */
  function Decided(l: Log, e: EventId, a: Attempt, last: bool): Log {
    if a.verdict.Rejected? then Buried(l, e)
    else if a.commit.CommittedUnseen? && last then Buried(Acted(l, e), e)
    else Acted(l, e)
  }

  /** The outcome of `process`, read off its attempts. */
  ghost predicate Outcome(l: Log, e: EventId, supported: bool, attempts: seq<Attempt>, maxAttempts: nat, l': Log) {
    if !supported then l' == Buried(l, e)
    else if e in l.claims then l' == l
    else
      && (forall k: nat :: FirstHit(attempts, 0, k, maxAttempts) ==>
            l' == Decided(l, e, attempts[k], k + 1 == Budget(maxAttempts)))
      && ((forall k: nat :: !FirstHit(attempts, 0, k, maxAttempts)) ==> l' == Buried(l, e))
  }

  class ConsumerRunner {
    var claims: set<EventId>
    var effects: multiset<EventId>
    var dead: multiset<EventId>
    const maxAttempts: nat

    ghost function View(): Log
      reads this
    {
      Log(claims, effects, dead)
    }

    constructor (maxAttempts: nat)
      ensures View() == EMPTY_LOG && this.maxAttempts == maxAttempts
    {
      claims, effects, dead := {}, multiset{}, multiset{};
      this.maxAttempts := maxAttempts;
    }

    /** The handler: `handle_once` around an action whose verdict and commit are given. */
    method Handle(e: EventId, verdict: Verdict, commit: Commit) returns (reply: Verdict)
      modifies this`claims, this`effects
      ensures (View(), reply) == HandleOnce(old(View()), e, verdict, commit)
    {
      if e in claims {
        return Done;
      }
      match verdict {
        case Done =>
          if commit.RolledBack? {
            return Fails;
          }
          claims, effects := claims + {e}, effects + multiset{e};
          return if commit.Committed? then Done else Fails;
        case Rejected => return Rejected;
        case Fails => return Fails;
      }
    }

    /** `process`: retry until the handler is done, rejects, or the budget is spent. */
    method Process(e: EventId, supported: bool, attempts: seq<Attempt>)
      requires Budget(maxAttempts) <= |attempts|
      modifies this
      ensures View() == ProcessSpec(old(View()), e, supported, attempts, maxAttempts)
      ensures Outcome(old(View()), e, supported, attempts, maxAttempts, View())
    {
      ProcessOutcome(View(), e, supported, attempts, maxAttempts);
      if !supported {
        dead := dead + multiset{e};
        return;
      }
      if e in claims {
        return;
      }
      var attempt := 0;
      while true
        invariant attempt < Budget(maxAttempts)
        invariant Retry(View(), e, attempts, attempt, maxAttempts) == Retry(old(View()), e, attempts, 0, maxAttempts)
        decreases Budget(maxAttempts) - attempt
      {
        attempt := attempt + 1;
        var reply := Handle(e, attempts[attempt - 1].verdict, attempts[attempt - 1].commit);
        match reply {
          case Done => return;
          case Rejected =>
            dead := dead + multiset{e};
            return;
          case Fails =>
            if attempt >= maxAttempts {
              dead := dead + multiset{e};
              return;
            }
        }
      }
    }
  }

  /** A processed event is claimed, or in the dead letters once more than before: none is dropped. */
  lemma {:induction false} RetryDropsNothing(l: Log, e: EventId, attempts: seq<Attempt>, n: nat, maxAttempts: nat)
    requires n < Budget(maxAttempts) <= |attempts|
    ensures var l' := Retry(l, e, attempts, n, maxAttempts);
      && l.claims <= l'.claims <= l.claims + {e}
      && (l'.dead == l.dead || l'.dead == l.dead + multiset{e})
      && (e in l'.claims || l'.dead == l.dead + multiset{e})
    decreases Budget(maxAttempts) - n
  {
    var (l', reply) := HandleOnce(l, e, attempts[n].verdict, attempts[n].commit);
    if reply.Fails? && n + 1 < maxAttempts {
      RetryDropsNothing(l', e, attempts, n + 1, maxAttempts);
    }
  }

  lemma ClaimedIsDone(l: Log, e: EventId, attempts: seq<Attempt>, n: nat, maxAttempts: nat)
    requires n < Budget(maxAttempts) <= |attempts| && e in l.claims
    ensures Retry(l, e, attempts, n, maxAttempts) == l
  {}

  /** The first attempt that does not miss decides, whatever would come after it. */
  lemma {:induction false} HitDecides(l: Log, e: EventId, attempts: seq<Attempt>, n: nat, k: nat, maxAttempts: nat)
    requires e !in l.claims && FirstHit(attempts, n, k, maxAttempts)
    ensures Retry(l, e, attempts, n, maxAttempts) == Decided(l, e, attempts[k], k + 1 == Budget(maxAttempts))
    decreases k - n
  {
    if n < k {
      assert Misses(attempts[n]);
      HitDecides(l, e, attempts, n + 1, k, maxAttempts);
    } else if attempts[k].commit.CommittedUnseen? && !attempts[k].verdict.Rejected? && k + 1 < Budget(maxAttempts) {
      ClaimedIsDone(Acted(l, e), e, attempts, n + 1, maxAttempts);
    }
  }

  lemma {:induction false} MissesBury(l: Log, e: EventId, attempts: seq<Attempt>, n: nat, maxAttempts: nat)
    requires e !in l.claims && n < Budget(maxAttempts) <= |attempts|
    requires forall j :: n <= j < Budget(maxAttempts) ==> Misses(attempts[j])
    ensures Retry(l, e, attempts, n, maxAttempts) == Buried(l, e)
    decreases Budget(maxAttempts) - n
  {
    assert Misses(attempts[n]);
    if n + 1 < Budget(maxAttempts) {
      MissesBury(l, e, attempts, n + 1, maxAttempts);
    }
  }

  lemma {:induction false} HitOrAllMiss(attempts: seq<Attempt>, n: nat, maxAttempts: nat) returns (k: nat)
    requires n <= Budget(maxAttempts) <= |attempts|
    ensures FirstHit(attempts, n, k, maxAttempts) || forall j :: n <= j < Budget(maxAttempts) ==> Misses(attempts[j])
    decreases Budget(maxAttempts) - n
  {
    k := n;
    if n < Budget(maxAttempts) && Misses(attempts[n]) {
      k := HitOrAllMiss(attempts, n + 1, maxAttempts);
    }
  }

  /**
   * Every processed event: an unsupported version is a dead letter and nothing else; a claimed event is
   * left alone; otherwise the first attempt within the budget that does not miss decides, and if all of
   * them miss there is one more dead letter and nothing else.
   */
  lemma ProcessOutcome(l: Log, e: EventId, supported: bool, attempts: seq<Attempt>, maxAttempts: nat)
    requires Budget(maxAttempts) <= |attempts|
    ensures Outcome(l, e, supported, attempts, maxAttempts, ProcessSpec(l, e, supported, attempts, maxAttempts))
  {
    if supported && e !in l.claims {
      forall k: nat | FirstHit(attempts, 0, k, maxAttempts)
        ensures Retry(l, e, attempts, 0, maxAttempts) == Decided(l, e, attempts[k], k + 1 == Budget(maxAttempts))
      {
        HitDecides(l, e, attempts, 0, k, maxAttempts);
      }
      var k := HitOrAllMiss(attempts, 0, maxAttempts);
      if !FirstHit(attempts, 0, k, maxAttempts) {
        MissesBury(l, e, attempts, 0, maxAttempts);
      }
    }
  }

  // ------------------------------------------------------------- DepositCreditHandler ---

  /**
   * How the credit went after the claim: done, done although the caller saw an error or crashed,
   * refused because the deposit was reorged or failed, no such deposit, or an error or crash before
   * it was done.
   */
  datatype CreditResult = CreditDone | CreditDoneUnseen | NoLongerValid | NoDeposit | CreditFails {
    predicate Credits() { CreditDone? || CreditDoneUnseen? }
  }

  /** The deposit's status makes crediting a credited deposit a no-op. */
  function Credited(l: Log, e: EventId): Log {
    if e in l.effects then l else l.(effects := l.effects + multiset{e})
  }

  /** `DepositCreditHandler::handle`: the claim is committed on its own, before the credit. */
  function HandleCredit(l: Log, e: EventId, claim: Commit, credit: CreditResult): (Log, Verdict) {
    if claim.RolledBack? then (l, Fails)
    else if claim.CommittedUnseen? then (l.(claims := l.claims + {e}), Fails)
    else if e in l.claims then (l, Done)
    else
      var claimed := l.(claims := l.claims + {e});
      match credit
      case CreditDone => (Credited(claimed, e), Done)
      case CreditDoneUnseen => (Credited(claimed, e), Fails)
      case NoLongerValid => (claimed, Done)
      case NoDeposit => (claimed, Rejected)
      case CreditFails => (claimed, Fails)
  }

  /**
   * What one delivery leaves and answers: a claim that is refused or whose commit is not seen fails and
   * credits nothing; a taken claim is done; and the taker is rejected exactly for a missing deposit,
   * fails exactly when its credit did not get done or was not seen, and credits at most once.
   */
  lemma DeliveryLeaves(l: Log, e: EventId, claim: Commit, credit: CreditResult)
    ensures var (l', reply) := HandleCredit(l, e, claim, credit);
      var taker := claim.Committed? && e !in l.claims;
      && l'.dead == l.dead && l'.claims == (if claim.RolledBack? then l.claims else l.claims + {e})
      && l'.effects == (if taker && credit.Credits() && e !in l.effects then l.effects + multiset{e} else l.effects)
      && (reply.Rejected? <==> taker && credit.NoDeposit?)
      && (reply.Fails? <==> !claim.Committed? || (taker && (credit.CreditFails? || credit.CreditDoneUnseen?)))
  {}

  datatype Delivery =
    | Delivery(claim: Commit, credit: CreditResult)
    | Forgets                                          // `prune_processed` took the claim away

  function CreditRun(e: EventId, deliveries: seq<Delivery>): Log {
    if deliveries == [] then EMPTY_LOG
    else
      var l, last := CreditRun(e, deliveries[..|deliveries| - 1]), deliveries[|deliveries| - 1];
      match last
      case Delivery(claim, credit) => HandleCredit(l, e, claim, credit).0
      case Forgets => l.(claims := l.claims - {e})
  }

  /** The delivery finds the event unclaimed, and its claim is committed and seen. */
  ghost predicate Takes(e: EventId, deliveries: seq<Delivery>, i: int) {
    && 0 <= i < |deliveries| && deliveries[i].Delivery? && deliveries[i].claim.Committed?
    && e !in CreditRun(e, deliveries[..i]).claims
  }

  lemma TakesInFront(e: EventId, deliveries: seq<Delivery>, i: int)
    requires 0 <= i < |deliveries| - 1
    ensures Takes(e, deliveries, i) <==> Takes(e, deliveries[..|deliveries| - 1], i)
  {
    assert deliveries[..|deliveries| - 1][..i] == deliveries[..i];
  }

  /** Some delivery that took the claim got its credit done. */
  ghost predicate TakerCredited(e: EventId, deliveries: seq<Delivery>) {
    exists i :: Takes(e, deliveries, i) && deliveries[i].credit.Credits()
  }

  lemma TakerInFrontOrLast(e: EventId, deliveries: seq<Delivery>)
    requires deliveries != []
    ensures var n := |deliveries| - 1;
      TakerCredited(e, deliveries) <==>
        TakerCredited(e, deliveries[..n]) || (Takes(e, deliveries, n) && deliveries[n].credit.Credits())
  {
    var n := |deliveries| - 1;
    forall i | 0 <= i < n ensures Takes(e, deliveries, i) <==> Takes(e, deliveries[..n], i) {
      TakesInFront(e, deliveries, i);
    }
    if TakerCredited(e, deliveries[..n]) {
      var i :| Takes(e, deliveries[..n], i) && deliveries[..n][i].credit.Credits();
      assert Takes(e, deliveries, i) && deliveries[i] == deliveries[..n][i];
    }
    if TakerCredited(e, deliveries) {
      var i :| Takes(e, deliveries, i) && deliveries[i].credit.Credits();
      if i < n { assert Takes(e, deliveries[..n], i) && deliveries[..n][i] == deliveries[i]; }
    }
  }

  /**
   * Over any deliveries, errors, crashes and pruned claims the deposit is credited at most once,
   * and exactly if some delivery that took the claim got its credit done.
   */
  lemma {:induction false} CreditedByTheClaimer(e: EventId, deliveries: seq<Delivery>)
    ensures CreditRun(e, deliveries).effects[e] <= 1
    ensures CreditRun(e, deliveries).effects[e] == 1 <==> TakerCredited(e, deliveries)
  {
    if deliveries != [] {
      var n := |deliveries| - 1;
      CreditedByTheClaimer(e, deliveries[..n]);
      TakerInFrontOrLast(e, deliveries);
      assert deliveries[..n] == deliveries[..|deliveries| - 1];
    }
  }

  /** Without pruning only one delivery can take the claim: the first whose claim was committed. */
  lemma {:induction false} OneTaker(e: EventId, deliveries: seq<Delivery>, i: int, j: int)
    requires Takes(e, deliveries, i) && i < j < |deliveries| && forall k :: i < k < j ==> !deliveries[k].Forgets?
    ensures !Takes(e, deliveries, j)
    decreases j
  {
    ClaimHeld(e, deliveries, i, j);
  }

  lemma {:induction false} ClaimHeld(e: EventId, deliveries: seq<Delivery>, i: int, j: int)
    requires Takes(e, deliveries, i) && i < j <= |deliveries| && forall k :: i < k < j ==> !deliveries[k].Forgets?
    ensures e in CreditRun(e, deliveries[..j]).claims
    decreases j
  {
    var upTo := deliveries[..j];
    assert upTo[..|upTo| - 1] == deliveries[..j - 1] && upTo[|upTo| - 1] == deliveries[j - 1];
    if j > i + 1 {
      ClaimHeld(e, deliveries, i, j - 1);
    }
  }

  /**
   * A `Done` is not a credit: a delivery that finds the claim taken replies `Done` and credits
   * nothing, so a deposit whose claimer failed stays uncredited until the claim is pruned.
   */
  lemma DoneMayMeanUncredited(e: EventId, deliveries: seq<Delivery>, credit: CreditResult)
    requires e in CreditRun(e, deliveries).claims
    ensures HandleCredit(CreditRun(e, deliveries), e, Committed, credit) == (CreditRun(e, deliveries), Done)
    ensures CreditRun(e, deliveries + [Delivery(Committed, credit)]).effects[e] == 1 <==> TakerCredited(e, deliveries)
  {
    var again := deliveries + [Delivery(Committed, credit)];
    assert again[..|again| - 1] == deliveries;
    CreditedByTheClaimer(e, deliveries);
  }

  /**
   * Exactly when a `Done` comes with a credit: an earlier taker got its credit done, or this
   * delivery took the claim itself and credited. A taker that finds the deposit reorged says `Done` too.
   */
  lemma DoneIsACreditIff(e: EventId, deliveries: seq<Delivery>, claim: Commit, credit: CreditResult)
    requires HandleCredit(CreditRun(e, deliveries), e, claim, credit).1.Done?
    ensures CreditRun(e, deliveries + [Delivery(claim, credit)]).effects[e] == 1 <==>
      TakerCredited(e, deliveries) || (e !in CreditRun(e, deliveries).claims && credit.CreditDone?)
  {
    var again := deliveries + [Delivery(claim, credit)];
    assert again[..|again| - 1] == deliveries;
    CreditedByTheClaimer(e, deliveries);
  }

  /** A first delivery whose credit fails, and a retry: both seen, the second one `Done`, nothing credited. */
  lemma FailedCreditIsNotRetried(e: EventId)
    ensures var first := CreditRun(e, [Delivery(Committed, CreditFails)]);
      && HandleCredit(first, e, Committed, CreditDone) == (first, Done)
      && first.effects[e] == 0
  {
    var d := Delivery(Committed, CreditFails);
    assert [d][..0] == [];
    assert CreditRun(e, [d]) == HandleCredit(CreditRun(e, [d][..0]), e, Committed, CreditFails).0;
  }
}
