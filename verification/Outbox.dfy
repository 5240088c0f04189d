/** The transactional outbox and its relay. */
module Outbox {
  type EventId = nat

  /** A payload that is not a valid envelope is not `readable`. */
  datatype Row = Row(attempts: nat, published: bool, readable: bool)

  /** What the broker did with a publish call. A call may fail although the event got through. */
  datatype Answer = Acked | FailedButSent | Failed {
    predicate Sent() { !Failed? }
  }

  /** The outbox and dead-letter tables, and what has reached the broker. */
  datatype Queue = Queue(rows: map<EventId, Row>, dead: multiset<EventId>, bus: multiset<EventId>)

  const EMPTY_QUEUE: Queue := Queue(map[], multiset{}, multiset{})

  datatype Pass = Pass(published: nat, failed: nat, deadLettered: nat)

  /** `enqueue`: a known event id is left as it is. */
  function Enqueue(q: Queue, id: EventId, readable: bool): Queue {
    if id in q.rows then q else q.(rows := q.rows[id := Row(0, false, readable)])
  }

  /** What becomes of one claimed row. */
  datatype Fate = Published | Retried | DeadLettered

  function FateOf(row: Row, answer: Answer, maxAttempts: nat): Fate {
    if !row.readable then DeadLettered
    else if answer.Acked? then Published
    else if row.attempts + 1 >= maxAttempts then DeadLettered
    else Retried
  }

  /** The tries a readable event has: at least one. */
  function Budget(maxAttempts: nat): nat { if maxAttempts > 1 then maxAttempts else 1 }

  /** When a claimed row meets each fate. */
  predicate Meets(row: Row, answer: Answer, maxAttempts: nat, fate: Fate) {
    match fate
    case Published => row.readable && answer.Acked?
    case Retried => row.readable && !answer.Acked? && row.attempts + 1 < maxAttempts
    case DeadLettered => !row.readable || (!answer.Acked? && row.attempts + 1 >= maxAttempts)
  }

  function Publish(bus: multiset<EventId>, row: Row, id: EventId, answer: Answer): multiset<EventId> {
    if row.readable && answer.Sent() then bus + multiset{id} else bus
  }

  function RelayRow(q: Queue, id: EventId, answer: Answer, maxAttempts: nat): Queue
    requires id in q.rows
  {
    var row := q.rows[id];
    var bus := Publish(q.bus, row, id, answer);
    match FateOf(row, answer, maxAttempts)
    case Published => Queue(q.rows[id := row.(published := true)], q.dead, bus)
    case DeadLettered => Queue(q.rows[id := row.(published := true)], q.dead + multiset{id}, bus)
    case Retried => Queue(q.rows[id := row.(attempts := row.attempts + 1)], q.dead, bus)
  }

  /** A claimed batch: pending rows, each once. */
  predicate Claimable(q: Queue, batch: seq<EventId>) {
    && (forall i :: 0 <= i < |batch| ==> batch[i] in q.rows && !q.rows[batch[i]].published)
    && (forall i, j :: 0 <= i < j < |batch| ==> batch[i] != batch[j])
  }

  function Relay(q: Queue, batch: seq<EventId>, answers: seq<Answer>, maxAttempts: nat): (r: Queue)
    requires |answers| == |batch| && forall i :: 0 <= i < |batch| ==> batch[i] in q.rows
    ensures r.rows.Keys == q.rows.Keys
  {
    if batch == [] then q
    else
      var n := |batch| - 1;
      RelayRow(Relay(q, batch[..n], answers[..n], maxAttempts), batch[n], answers[n], maxAttempts)
  }

  function Count(q: Queue, batch: seq<EventId>, answers: seq<Answer>, maxAttempts: nat, fate: Fate): nat
    requires |answers| == |batch| && forall i :: 0 <= i < |batch| ==> batch[i] in q.rows
  {
    if batch == [] then 0
    else
      var n := |batch| - 1;
      Count(q, batch[..n], answers[..n], maxAttempts, fate)
      + if Meets(q.rows[batch[n]], answers[n], maxAttempts, fate) then 1 else 0
  }

  /** `mark_published`. */
  function MarkPublished(rows: map<EventId, Row>, ids: seq<EventId>): map<EventId, Row> {
    map id | id in rows :: if id in ids then rows[id].(published := true) else rows[id]
  }

  function Marked(q: Queue, ids: seq<EventId>): Queue { q.(rows := MarkPublished(q.rows, ids)) }

  class OutboxRelay {
    var rows: map<EventId, Row>
    var dead: multiset<EventId>
    var bus: multiset<EventId>
    const maxAttempts: nat

    ghost function View(): Queue
      reads this
    {
      Queue(rows, dead, bus)
    }

    constructor (maxAttempts: nat)
      ensures View() == EMPTY_QUEUE && this.maxAttempts == maxAttempts
    {
      rows, dead, bus := map[], multiset{}, multiset{};
      this.maxAttempts := maxAttempts;
    }

    /**
     * `run_once`, with the claimed batch and the broker's answers given. Rows that are done with
     * are collected and marked once at the end.
     */
    method RunOnce(batch: seq<EventId>, answers: seq<Answer>) returns (pass: Pass)
      requires |answers| == |batch| && Claimable(View(), batch)
      modifies this
      ensures View() == Relay(old(View()), batch, answers, maxAttempts)
      ensures pass == Pass(Count(old(View()), batch, answers, maxAttempts, Published),
                           Count(old(View()), batch, answers, maxAttempts, Retried),
                           Count(old(View()), batch, answers, maxAttempts, DeadLettered))
    {
      ghost var q := View();
      pass := Pass(0, 0, 0);
      var publishedIds: seq<EventId> := [];
      HalfwayStart(q, batch, answers, maxAttempts);
      for i := 0 to |batch|
        invariant Halfway(q, View(), publishedIds, pass, batch, answers, maxAttempts, i)
      {
        var id, answer := batch[i], answers[i];
        var row := rows[id];
        ghost var before, ids, counted := View(), publishedIds, pass;
        if !row.readable {
          dead := dead + multiset{id};
          publishedIds := publishedIds + [id];
          pass := pass.(deadLettered := pass.deadLettered + 1);
        } else {
          bus := Publish(bus, row, id, answer);
          if answer.Acked? {
            publishedIds := publishedIds + [id];
            pass := pass.(published := pass.published + 1);
          } else if row.attempts + 1 >= maxAttempts {
            dead := dead + multiset{id};
            publishedIds := publishedIds + [id];
            pass := pass.(deadLettered := pass.deadLettered + 1);
          } else {
            rows := rows[id := row.(attempts := row.attempts + 1)];
            pass := pass.(failed := pass.failed + 1);
          }
        }
        assert Handled(before, View(), ids, publishedIds, counted, pass, id, answer, maxAttempts);
        HalfwayStep(q, before, View(), ids, publishedIds, counted, pass, batch, answers, maxAttempts, i);
      }
      HalfwayEnd(q, View(), publishedIds, pass, batch, answers, maxAttempts);
      rows := MarkPublished(rows, publishedIds);
    }
  }

  /** One row handled: the tables, the collected ids and the counters. */
  ghost predicate Handled(
    q: Queue, q': Queue, ids: seq<EventId>, ids': seq<EventId>, pass: Pass, pass': Pass, id: EventId, answer: Answer,
    maxAttempts: nat)
  {
    && id in q.rows && q'.bus == Publish(q.bus, q.rows[id], id, answer)
    && match FateOf(q.rows[id], answer, maxAttempts)
       case Published =>
         q'.rows == q.rows && q'.dead == q.dead && ids' == ids + [id] && pass' == pass.(published := pass.published + 1)
       case DeadLettered =>
         && q'.rows == q.rows && q'.dead == q.dead + multiset{id} && ids' == ids + [id]
         && pass' == pass.(deadLettered := pass.deadLettered + 1)
       case Retried =>
         && q'.rows == q.rows[id := q.rows[id].(attempts := q.rows[id].attempts + 1)] && q'.dead == q.dead
         && ids' == ids
         && pass' == pass.(failed := pass.failed + 1)
  }

  /** After `i` rows: marking the collected ids now would give the relayed prefix. */
  ghost predicate Halfway(
    q: Queue, now: Queue, ids: seq<EventId>, pass: Pass, batch: seq<EventId>, answers: seq<Answer>, maxAttempts: nat,
    i: nat)
    requires |answers| == |batch| && forall k :: 0 <= k < |batch| ==> batch[k] in q.rows
  {
    && i <= |batch| && now.rows.Keys == q.rows.Keys
    && (forall k :: i <= k < |batch| ==> now.rows[batch[k]] == q.rows[batch[k]] && batch[k] !in ids)
    && Marked(now, ids) == Relay(q, batch[..i], answers[..i], maxAttempts)
    && pass == Pass(Count(q, batch[..i], answers[..i], maxAttempts, Published),
                    Count(q, batch[..i], answers[..i], maxAttempts, Retried),
                    Count(q, batch[..i], answers[..i], maxAttempts, DeadLettered))
  }

  lemma HalfwayStart(q: Queue, batch: seq<EventId>, answers: seq<Answer>, maxAttempts: nat)
    requires |answers| == |batch| && Claimable(q, batch)
    ensures Halfway(q, q, [], Pass(0, 0, 0), batch, answers, maxAttempts, 0)
  {
    assert MarkPublished(q.rows, []) == q.rows;
  }

  lemma HalfwayEnd(
      q: Queue, now: Queue, ids: seq<EventId>, pass: Pass, batch: seq<EventId>, answers: seq<Answer>, maxAttempts: nat)
    requires |answers| == |batch| && Claimable(q, batch)
    requires Halfway(q, now, ids, pass, batch, answers, maxAttempts, |batch|)
    ensures Marked(now, ids) == Relay(q, batch, answers, maxAttempts)
    ensures pass == Pass(Count(q, batch, answers, maxAttempts, Published),
                         Count(q, batch, answers, maxAttempts, Retried),
                         Count(q, batch, answers, maxAttempts, DeadLettered))
  {
    assert batch[..|batch|] == batch && answers[..|answers|] == answers;
  }

  lemma HalfwayStep(
    q: Queue, now: Queue, later: Queue, ids: seq<EventId>, ids': seq<EventId>, pass: Pass, pass': Pass,
    batch: seq<EventId>, answers: seq<Answer>, maxAttempts: nat, i: nat)
    requires |answers| == |batch| && i < |batch| && Claimable(q, batch)
    requires Halfway(q, now, ids, pass, batch, answers, maxAttempts, i)
    requires Handled(now, later, ids, ids', pass, pass', batch[i], answers[i], maxAttempts)
    ensures Halfway(q, later, ids', pass', batch, answers, maxAttempts, i + 1)
  {
    RelayOneMore(q, batch, answers, maxAttempts, i);
    MarkOneMore(now, later, ids, ids', pass, pass', batch[i], answers[i], maxAttempts);
    CountOneMore(q, batch, answers, maxAttempts, i, Published);
    CountOneMore(q, batch, answers, maxAttempts, i, Retried);
    CountOneMore(q, batch, answers, maxAttempts, i, DeadLettered);
  }

  lemma RelayOneMore(q: Queue, batch: seq<EventId>, answers: seq<Answer>, maxAttempts: nat, i: nat)
    requires |answers| == |batch| && i < |batch| && forall k :: 0 <= k < |batch| ==> batch[k] in q.rows
    ensures Relay(q, batch[..i + 1], answers[..i + 1], maxAttempts)
         == RelayRow(Relay(q, batch[..i], answers[..i], maxAttempts), batch[i], answers[i], maxAttempts)
  {
    assert batch[..i + 1][..i] == batch[..i] && answers[..i + 1][..i] == answers[..i];
  }

  lemma CountOneMore(q: Queue, batch: seq<EventId>, answers: seq<Answer>, maxAttempts: nat, i: nat, fate: Fate)
    requires |answers| == |batch| && i < |batch| && forall k :: 0 <= k < |batch| ==> batch[k] in q.rows
    ensures Count(q, batch[..i + 1], answers[..i + 1], maxAttempts, fate)
         == Count(q, batch[..i], answers[..i], maxAttempts, fate)
            + if Meets(q.rows[batch[i]], answers[i], maxAttempts, fate) then 1 else 0
  {
    assert batch[..i + 1][..i] == batch[..i] && answers[..i + 1][..i] == answers[..i];
  }

  /** Handling one row and marking at the end is handling the row on what is already marked. */
  lemma MarkOneMore(
    q: Queue, q': Queue, ids: seq<EventId>, ids': seq<EventId>, pass: Pass, pass': Pass, id: EventId, answer: Answer,
    maxAttempts: nat)
    requires id !in ids && Handled(q, q', ids, ids', pass, pass', id, answer, maxAttempts)
    ensures Marked(q', ids') == RelayRow(Marked(q, ids), id, answer, maxAttempts)
  {
    assert Marked(q', ids').rows == RelayRow(Marked(q, ids), id, answer, maxAttempts).rows;
  }

  // ----------------------------------------------------------------- one pass accounts ---

  /**
   * Each claimed row met its fate, and only that one: acknowledged it is published; unacknowledged it
   * stays pending with one more attempt while that leaves a try; unreadable or out of tries it is a
   * dead letter.
   */
  ghost predicate Settled(q: Queue, q': Queue, id: EventId, answer: Answer, maxAttempts: nat)
    requires id in q.rows && id in q'.rows
  {
    var row := q.rows[id];
    && q'.bus[id] == q.bus[id] + (if row.readable && answer.Sent() then 1 else 0)
    && (row.readable && answer.Acked? ==>
          q'.rows[id] == row.(published := true) && q'.dead[id] == q.dead[id] && q'.bus[id] > q.bus[id])
    && (row.readable && !answer.Acked? && row.attempts + 1 < maxAttempts ==>
          q'.rows[id] == row.(attempts := row.attempts + 1) && q'.dead[id] == q.dead[id])
    && (!row.readable || (!answer.Acked? && row.attempts + 1 >= maxAttempts) ==>
          q'.rows[id] == row.(published := true) && q'.dead[id] == q.dead[id] + 1)
  }

  ghost predicate Untouched(q: Queue, q': Queue, id: EventId) {
    && (id in q.rows <==> id in q'.rows) && (id in q.rows ==> q'.rows[id] == q.rows[id])
    && q'.dead[id] == q.dead[id] && q'.bus[id] == q.bus[id]
  }

  lemma RowTouchesItself(q: Queue, id: EventId, answer: Answer, maxAttempts: nat, other: EventId)
    requires id in q.rows && other != id
    ensures Untouched(q, RelayRow(q, id, answer, maxAttempts), other)
  {}

  lemma {:induction false} OthersUntouched(
      q: Queue, batch: seq<EventId>, answers: seq<Answer>, maxAttempts: nat, id: EventId)
    requires |answers| == |batch| && (forall i :: 0 <= i < |batch| ==> batch[i] in q.rows) && id !in batch
    ensures Untouched(q, Relay(q, batch, answers, maxAttempts), id)
  {
    if batch != [] {
      var n := |batch| - 1;
      OthersUntouched(q, batch[..n], answers[..n], maxAttempts, id);
      RowTouchesItself(Relay(q, batch[..n], answers[..n], maxAttempts), batch[n], answers[n], maxAttempts, id);
    }
  }

  lemma SettledNow(q: Queue, m: Queue, id: EventId, answer: Answer, maxAttempts: nat)
    requires id in q.rows && Untouched(q, m, id)
    ensures Settled(q, RelayRow(m, id, answer, maxAttempts), id, answer, maxAttempts)
  {}

  lemma SettledBefore(q: Queue, m: Queue, q': Queue, id: EventId, answer: Answer, maxAttempts: nat)
    requires id in q.rows && id in m.rows && Settled(q, m, id, answer, maxAttempts) && Untouched(m, q', id)
    ensures id in q'.rows && Settled(q, q', id, answer, maxAttempts)
  {}

  lemma {:induction false} SettledAt(q: Queue, batch: seq<EventId>, answers: seq<Answer>, maxAttempts: nat, i: nat)
    requires |answers| == |batch| && Claimable(q, batch) && i < |batch|
    ensures Settled(q, Relay(q, batch, answers, maxAttempts), batch[i], answers[i], maxAttempts)
  {
    var n := |batch| - 1;
    var m := Relay(q, batch[..n], answers[..n], maxAttempts);
    if i == n {
      OthersUntouched(q, batch[..n], answers[..n], maxAttempts, batch[n]);
      SettledNow(q, m, batch[n], answers[n], maxAttempts);
    } else {
      SettledAt(q, batch[..n], answers[..n], maxAttempts, i);
      RowTouchesItself(m, batch[n], answers[n], maxAttempts, batch[i]);
      SettledBefore(q, m, Relay(q, batch, answers, maxAttempts), batch[i], answers[i], maxAttempts);
    }
  }

  lemma {:induction false} CountsAddUp(q: Queue, batch: seq<EventId>, answers: seq<Answer>, maxAttempts: nat)
    requires |answers| == |batch| && Claimable(q, batch)
    ensures |batch| == Count(q, batch, answers, maxAttempts, Published) + Count(q, batch, answers, maxAttempts, Retried)
                       + Count(q, batch, answers, maxAttempts, DeadLettered)
    ensures |Relay(q, batch, answers, maxAttempts).dead|
      == |q.dead| + Count(q, batch, answers, maxAttempts, DeadLettered)
  {
    if batch != [] {
      var n := |batch| - 1;
      CountsAddUp(q, batch[..n], answers[..n], maxAttempts);
      OthersUntouched(q, batch[..n], answers[..n], maxAttempts, batch[n]);
    }
  }

  /** A pass accounts for every claimed row exactly once and for nothing else, and its counters say so. */
  lemma PassAccounts(q: Queue, batch: seq<EventId>, answers: seq<Answer>, maxAttempts: nat, id: EventId)
    requires |answers| == |batch| && Claimable(q, batch)
    ensures forall i :: 0 <= i < |batch| ==>
      Settled(q, Relay(q, batch, answers, maxAttempts), batch[i], answers[i], maxAttempts)
    ensures id !in batch ==> Untouched(q, Relay(q, batch, answers, maxAttempts), id)
    ensures |batch| == Count(q, batch, answers, maxAttempts, Published) + Count(q, batch, answers, maxAttempts, Retried)
                       + Count(q, batch, answers, maxAttempts, DeadLettered)
    ensures |Relay(q, batch, answers, maxAttempts).dead|
      == |q.dead| + Count(q, batch, answers, maxAttempts, DeadLettered)
  {
    forall i | 0 <= i < |batch|
      ensures Settled(q, Relay(q, batch, answers, maxAttempts), batch[i], answers[i], maxAttempts)
    {
      SettledAt(q, batch, answers, maxAttempts, i);
    }
    if id !in batch {
      OthersUntouched(q, batch, answers, maxAttempts, id);
    }
    CountsAddUp(q, batch, answers, maxAttempts);
  }

  // ------------------------------------------------------------------------ whole runs ---

  datatype Step =
    | Commits(id: EventId, readable: bool)                                  // a business transaction with its event
    | Passes(batch: seq<EventId>, answers: seq<Answer>)
    | Crashes(batch: seq<EventId>, answers: seq<Answer>, reached: nat)      // after publishing, before the commit
    | Prunes(ids: set<EventId>)                                             // `prune_published`

  function Next(q: Queue, maxAttempts: nat, step: Step): Queue {
    match step
    case Commits(id, readable) => Enqueue(q, id, readable)
    case Passes(batch, answers) =>
      if |answers| == |batch| && Claimable(q, batch) then Relay(q, batch, answers, maxAttempts) else q
    case Crashes(batch, answers, reached) =>
      if |answers| == |batch| && Claimable(q, batch) && reached <= |batch|
      then q.(bus := Relay(q, batch[..reached], answers[..reached], maxAttempts).bus) else q
    case Prunes(ids) => q.(rows := map id | id in q.rows && !(id in ids && q.rows[id].published) :: q.rows[id])
  }

  function Run(maxAttempts: nat, steps: seq<Step>): Queue {
    if steps == [] then EMPTY_QUEUE else Next(Run(maxAttempts, steps[..|steps| - 1]), maxAttempts, steps[|steps| - 1])
  }

  predicate Pending(q: Queue, id: EventId, maxAttempts: nat) {
    id in q.rows && !q.rows[id].published && (q.rows[id].attempts == 0 || q.rows[id].attempts < maxAttempts)
  }

  /** Still to be sent with retries left, on the broker, or among the dead letters. */
  predicate Accounted(q: Queue, id: EventId, maxAttempts: nat) {
    Pending(q, id, maxAttempts) || id in q.bus || id in q.dead
  }

  ghost predicate Grows(q: Queue, q': Queue) { q.bus <= q'.bus && q.dead <= q'.dead }

  lemma {:induction false} RelayGrows(q: Queue, batch: seq<EventId>, answers: seq<Answer>, maxAttempts: nat)
    requires |answers| == |batch| && forall i :: 0 <= i < |batch| ==> batch[i] in q.rows
    ensures Grows(q, Relay(q, batch, answers, maxAttempts))
  {
    if batch != [] {
      RelayGrows(q, batch[..|batch| - 1], answers[..|batch| - 1], maxAttempts);
    }
  }

  lemma PassKeeps(q: Queue, batch: seq<EventId>, answers: seq<Answer>, maxAttempts: nat, id: EventId)
    requires |answers| == |batch| && Claimable(q, batch) && Accounted(q, id, maxAttempts)
    ensures Accounted(Relay(q, batch, answers, maxAttempts), id, maxAttempts)
  {
    var q' := Relay(q, batch, answers, maxAttempts);
    RelayGrows(q, batch, answers, maxAttempts);
    if id in batch {
      var i :| 0 <= i < |batch| && batch[i] == id;
      SettledAt(q, batch, answers, maxAttempts, i);
    } else {
      OthersUntouched(q, batch, answers, maxAttempts, id);
    }
  }

  lemma StepKeeps(q: Queue, maxAttempts: nat, step: Step, id: EventId)
    requires Accounted(q, id, maxAttempts)
    ensures Accounted(Next(q, maxAttempts, step), id, maxAttempts)
  {
    match step
    case Commits(_, _) =>
    case Passes(batch, answers) =>
      if |answers| == |batch| && Claimable(q, batch) { PassKeeps(q, batch, answers, maxAttempts, id); }
    case Crashes(batch, answers, reached) =>
      if |answers| == |batch| && Claimable(q, batch) && reached <= |batch| {
        RelayGrows(q, batch[..reached], answers[..reached], maxAttempts);
      }
    case Prunes(_) =>
  }

  /** The outbox loses nothing: whatever was committed is pending with retries left, sent, or dead-lettered. */
  lemma {:induction false} NothingLost(maxAttempts: nat, steps: seq<Step>, i: nat)
    requires i < |steps| && steps[i].Commits?
    ensures Accounted(Run(maxAttempts, steps), steps[i].id, maxAttempts)
  {
    var front, n := steps[..|steps| - 1], |steps| - 1;
    if i < n {
      NothingLost(maxAttempts, front, i);
      StepKeeps(Run(maxAttempts, front), maxAttempts, steps[n], steps[i].id);
    } else if steps[i].id in Run(maxAttempts, front).rows {
      RowsAccounted(maxAttempts, front, steps[i].id);
      StepKeeps(Run(maxAttempts, front), maxAttempts, steps[n], steps[i].id);
    }
  }

  /** Every row in the table, published ones included, is accounted for. */
  lemma {:induction false} RowsAccounted(maxAttempts: nat, steps: seq<Step>, id: EventId)
    requires id in Run(maxAttempts, steps).rows
    ensures Accounted(Run(maxAttempts, steps), id, maxAttempts)
  {
    var front, n := steps[..|steps| - 1], |steps| - 1;
    var q := Run(maxAttempts, front);
    if id in q.rows {
      RowsAccounted(maxAttempts, front, id);
      StepKeeps(q, maxAttempts, steps[n], id);
    }
  }

  // ------------------------------------------------------------------- dead only when tried ---

  /** A committed pass that published the event and got no acknowledgement. */
  ghost predicate Unanswered(q: Queue, step: Step, id: EventId) {
    && step.Passes? && |step.answers| == |step.batch| && Claimable(q, step.batch)
    && exists k :: 0 <= k < |step.batch| && step.batch[k] == id && !step.answers[k].Acked?
  }

  ghost function Unacked(maxAttempts: nat, steps: seq<Step>, id: EventId): nat {
    if steps == [] then 0
    else
      var front, last := steps[..|steps| - 1], steps[|steps| - 1];
      Unacked(maxAttempts, front, id) + if Unanswered(Run(maxAttempts, front), last, id) then 1 else 0
  }

  ghost predicate AlwaysReadable(steps: seq<Step>, id: EventId) {
    forall i :: 0 <= i < |steps| && steps[i].Commits? && steps[i].id == id ==> steps[i].readable
  }

  /** The failed tries of a row that is still pending. */
  function Tries(q: Queue, id: EventId): nat {
    if id in q.rows && !q.rows[id].published then q.rows[id].attempts else 0
  }

  /** A step adds a dead letter only with the last try, and a try only without acknowledgement. */
  ghost predicate Tried(q: Queue, q': Queue, id: EventId, tried: bool, maxAttempts: nat) {
    && (id in q'.rows ==> q'.rows[id].readable)
    && if q'.dead[id] == q.dead[id] then Tries(q', id) <= Tries(q, id) + (if tried then 1 else 0)
       else q'.dead[id] == q.dead[id] + 1 && tried && Tries(q, id) + 1 >= Budget(maxAttempts) && Tries(q', id) == 0
  }

  lemma PassTries(q: Queue, batch: seq<EventId>, answers: seq<Answer>, maxAttempts: nat, id: EventId)
    requires |answers| == |batch| && Claimable(q, batch) && (id in q.rows ==> q.rows[id].readable)
    ensures Tried(q, Relay(q, batch, answers, maxAttempts), id, Unanswered(q, Passes(batch, answers), id), maxAttempts)
  {
    if id in batch {
      var i :| 0 <= i < |batch| && batch[i] == id;
      SettledAt(q, batch, answers, maxAttempts, i);
      assert Passes(batch, answers).batch[i] == id;
    } else {
      OthersUntouched(q, batch, answers, maxAttempts, id);
    }
  }

  lemma StepTries(q: Queue, maxAttempts: nat, step: Step, id: EventId)
    requires id in q.rows ==> q.rows[id].readable
    requires step.Commits? && step.id == id ==> step.readable
    ensures Tried(q, Next(q, maxAttempts, step), id, Unanswered(q, step, id), maxAttempts)
  {
    match step
    case Passes(batch, answers) =>
      if |answers| == |batch| && Claimable(q, batch) { PassTries(q, batch, answers, maxAttempts, id); }
    case _ =>
  }

  lemma OneMoreDead(budget: nat, dead: nat)
    ensures budget * (dead + 1) == budget * dead + budget
  {}

  /**
   * Every dead letter of a readable event was tried in full: over any run there were, for each of
   * them, as many committed publishes without acknowledgement as the budget allows.
   */
  lemma {:induction false} DeadOnlyWhenTried(maxAttempts: nat, steps: seq<Step>, id: EventId)
    requires AlwaysReadable(steps, id)
    ensures var q := Run(maxAttempts, steps);
      && (id in q.rows ==> q.rows[id].readable)
      && Unacked(maxAttempts, steps, id) >= Budget(maxAttempts) * q.dead[id] + Tries(q, id)
  {
    if steps != [] {
      var front, last := steps[..|steps| - 1], steps[|steps| - 1];
      DeadOnlyWhenTried(maxAttempts, front, id);
      StepTries(Run(maxAttempts, front), maxAttempts, last, id);
      OneMoreDead(Budget(maxAttempts), Run(maxAttempts, front).dead[id]);
    }
  }

  // ---------------------------------------------------------------------------- settled once ---

  /** A committed pass whose publish of the event was acknowledged. */
  ghost predicate Answered(q: Queue, step: Step, id: EventId) {
    && step.Passes? && |step.answers| == |step.batch| && Claimable(q, step.batch)
    && exists k :: 0 <= k < |step.batch| && step.batch[k] == id && q.rows[id].readable && step.answers[k].Acked?
  }

  ghost function Acks(maxAttempts: nat, steps: seq<Step>, id: EventId): nat {
    if steps == [] then 0
    else
      var front, last := steps[..|steps| - 1], steps[|steps| - 1];
      Acks(maxAttempts, front, id) + if Answered(Run(maxAttempts, front), last, id) then 1 else 0
  }

  ghost predicate NeverPruned(steps: seq<Step>, id: EventId) {
    forall i :: 0 <= i < |steps| && steps[i].Prunes? ==> id !in steps[i].ids
  }

  function Closed(q: Queue, id: EventId): nat { if id in q.rows && q.rows[id].published then 1 else 0 }

  lemma PassCloses(q: Queue, batch: seq<EventId>, answers: seq<Answer>, maxAttempts: nat, id: EventId)
    requires |answers| == |batch| && Claimable(q, batch)
    ensures var q' := Relay(q, batch, answers, maxAttempts);
      Closed(q', id) + q.dead[id]
        == Closed(q, id) + q'.dead[id] + if Answered(q, Passes(batch, answers), id) then 1 else 0
  {
    if id in batch {
      var i :| 0 <= i < |batch| && batch[i] == id;
      SettledAt(q, batch, answers, maxAttempts, i);
      assert Passes(batch, answers).batch[i] == id;
    } else {
      OthersUntouched(q, batch, answers, maxAttempts, id);
    }
  }

  lemma StepCloses(q: Queue, maxAttempts: nat, step: Step, id: EventId)
    requires step.Prunes? ==> id !in step.ids
    ensures var q' := Next(q, maxAttempts, step);
      Closed(q', id) + q.dead[id] == Closed(q, id) + q'.dead[id] + if Answered(q, step, id) then 1 else 0
  {
    match step
    case Passes(batch, answers) =>
      if |answers| == |batch| && Claimable(q, batch) { PassCloses(q, batch, answers, maxAttempts, id); }
    case _ =>
  }

  /**
   * An event is settled once, however often its enqueue is repeated: while its row is not pruned, it has
   * at most one acknowledged publish or dead letter, and has one exactly when its row is marked.
   */
  lemma {:induction false} SettledOnce(maxAttempts: nat, steps: seq<Step>, id: EventId)
    requires NeverPruned(steps, id)
    ensures Acks(maxAttempts, steps, id) + Run(maxAttempts, steps).dead[id] == Closed(Run(maxAttempts, steps), id) <= 1
  {
    if steps != [] {
      var front, last := steps[..|steps| - 1], steps[|steps| - 1];
      SettledOnce(maxAttempts, front, id);
      StepCloses(Run(maxAttempts, front), maxAttempts, last, id);
    }
  }
}
