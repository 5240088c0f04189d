/** One endpoint's circuit breaker and latency average, with the caller's clock. */
module Breaker {
  import opened Prelude

  const MAX_U64: nat := 0xFFFF_FFFF_FFFF_FFFF

  datatype State = Closed | Open(until: nat) | HalfOpen

  datatype HealthConfig = HealthConfig(
    failureThreshold: nat, resetTimeout: nat, latencyAlphaPct: nat, successThreshold: nat)

  datatype Health = Health(
    state: State, failures: nat, successes: nat, requests: nat, failed: nat,
    average: Option<nat>, lastSuccess: Option<nat>, lastFailure: Option<nat>)

  const FRESH: Health := Health(Closed, 0, 0, 0, 0, None, None, None)

  function Min(x: nat, y: nat): nat { if x <= y then x else y }

  function Blend(cfg: HealthConfig, average: Option<nat>, latency: nat): nat {
    var sample := Min(latency, MAX_U64);
    match average
    case None => sample
    case Some(prev) =>
      var a := Min(cfg.latencyAlphaPct, 100);
      Min((sample * a + prev * (100 - a)) / 100, MAX_U64)
  }

  /** The calls a client makes, in any order: results may come back late. */
  datatype Call = Asks(now: nat) | Success(now: nat, latency: nat) | Failure(now: nat)

  predicate Allowed(h: Health, now: nat) { h.state.Open? ==> now >= h.state.until }

  function After(cfg: HealthConfig, h: Health, call: Call): Health {
    match call
    case Asks(now) =>
      if h.state.Open? && now >= h.state.until then h.(state := HalfOpen, successes := 0) else h
    case Success(now, latency) =>
      var s := h.successes + 1;
      h.(state := if h.state.HalfOpen? && s >= cfg.successThreshold then Closed else h.state,
         failures := 0, successes := s, requests := h.requests + 1,
         average := Some(Blend(cfg, h.average, latency)), lastSuccess := Some(now))
    case Failure(now) =>
      var f := h.failures + 1;
      h.(state := if h.state.HalfOpen? || f >= cfg.failureThreshold then Open(now + cfg.resetTimeout) else h.state,
         failures := f, successes := 0, requests := h.requests + 1, failed := h.failed + 1, lastFailure := Some(now))
  }

  class EndpointHealth {
    const cfg: HealthConfig
    var state: State
    var failures: nat
    var successes: nat
    var requests: nat
    var failed: nat
    var average: Option<nat>
    var lastSuccess: Option<nat>
    var lastFailure: Option<nat>

    ghost function View(): Health
      reads this
    {
      Health(state, failures, successes, requests, failed, average, lastSuccess, lastFailure)
    }

    constructor (cfg: HealthConfig)
      ensures View() == FRESH && this.cfg == cfg
    {
      this.cfg := cfg;
      state, failures, successes, requests, failed := Closed, 0, 0, 0, 0;
      average, lastSuccess, lastFailure := None, None, None;
    }

    method AllowsRequest(now: nat) returns (allowed: bool)
      modifies this
      ensures allowed == Allowed(old(View()), now)
      ensures View() == After(cfg, old(View()), Asks(now))
    {
      match state {
        case Closed => return true;
        case HalfOpen => return true;
        case Open(until) =>
          if now >= until {
            state, successes := HalfOpen, 0;
            return true;
          }
          return false;
      }
    }

    method RecordSuccess(latency: nat, now: nat)
      modifies this
      ensures View() == After(cfg, old(View()), Success(now, latency))
    {
      requests, failures, successes, lastSuccess := requests + 1, 0, successes + 1, Some(now);
      average := Some(Blend(cfg, average, latency));
      if state.HalfOpen? && successes >= cfg.successThreshold {
        state := Closed;
      }
    }

    method RecordFailure(now: nat)
      modifies this
      ensures View() == After(cfg, old(View()), Failure(now))
    {
      requests, failed, failures, successes, lastFailure := requests + 1, failed + 1, failures + 1, 0, Some(now);
      if state.HalfOpen? || failures >= cfg.failureThreshold {
        state := Open(now + cfg.resetTimeout);
      }
    }
  }

  // ------------------------------------------------------------------------- traces ---

  function At(cfg: HealthConfig, calls: seq<Call>): Health {
    if calls == [] then FRESH else After(cfg, At(cfg, calls[..|calls| - 1]), calls[|calls| - 1])
  }

  ghost predicate Ordered(calls: seq<Call>) {
    forall i, j :: 0 <= i < j < |calls| ==> calls[i].now <= calls[j].now
  }

  function Failures(calls: seq<Call>): nat {
    if calls == [] then 0 else Failures(calls[..|calls| - 1]) + if calls[|calls| - 1].Failure? then 1 else 0
  }

  ghost predicate NoSuccess(calls: seq<Call>) { forall k :: 0 <= k < |calls| ==> !calls[k].Success? }

  /** The failure counter is at least the failures of every stretch without a success up to now. */
  lemma {:induction false} CounterCoversStreak(cfg: HealthConfig, calls: seq<Call>, i: nat)
    requires i <= |calls| && NoSuccess(calls[i..])
    ensures Failures(calls[i..]) <= At(cfg, calls).failures
  {
    if i < |calls| {
      var front, tail := calls[..|calls| - 1], calls[i..];
      assert tail[..|tail| - 1] == front[i..] && tail[|tail| - 1] == calls[|calls| - 1];
      CounterCoversStreak(cfg, front, i);
    }
  }

  lemma {:induction false} ClosedCounterIsLow(cfg: HealthConfig, calls: seq<Call>)
    requires cfg.failureThreshold >= 1
    ensures At(cfg, calls).state.Closed? ==> At(cfg, calls).failures < cfg.failureThreshold
  {
    if calls != [] {
      ClosedCounterIsLow(cfg, calls[..|calls| - 1]);
    }
  }

  /**
   * While the breaker is closed, the results since the last success, and since any point after it, hold
   * fewer failures than the threshold.
   */
  lemma ClosedMeansFewFailures(cfg: HealthConfig, calls: seq<Call>, i: nat)
    requires cfg.failureThreshold >= 1 && At(cfg, calls).state.Closed? && i <= |calls| && NoSuccess(calls[i..])
    ensures Failures(calls[i..]) < cfg.failureThreshold
  {
    CounterCoversStreak(cfg, calls, i);
    ClosedCounterIsLow(cfg, calls);
  }

  /** The totals behind the failure rate count results, and only results. */
  lemma {:induction false} TotalsCountResults(cfg: HealthConfig, calls: seq<Call>)
    ensures At(cfg, calls).failed == Failures(calls) && At(cfg, calls).requests == Failures(calls) + Successes(calls)
  {
    if calls != [] {
      TotalsCountResults(cfg, calls[..|calls| - 1]);
    }
  }

  /** The step at `i` opened the breaker, until one reset timeout later. */
  ghost predicate OpensAt(cfg: HealthConfig, calls: seq<Call>, i: int) {
    && 0 <= i < |calls| && calls[i].Failure?
    && At(cfg, calls[..i + 1]).state == Open(calls[i].now + cfg.resetTimeout)
  }

  lemma Prefix(calls: seq<Call>, i: int)
    requires 0 <= i < |calls|
    ensures i < |calls| - 1 ==> calls[..|calls| - 1][..i + 1] == calls[..i + 1]
    ensures calls[..|calls|] == calls
    ensures calls[..i + 1][..|calls[..i + 1]| - 1] == calls[..i] && calls[..i + 1][|calls[..i + 1]| - 1] == calls[i]
  {}

  /** No later step opened the breaker again. */
  ghost predicate LastOpening(cfg: HealthConfig, calls: seq<Call>, i: int) {
    OpensAt(cfg, calls, i) && forall j :: i < j < |calls| ==> !OpensAt(cfg, calls, j)
  }

  lemma OpensInFront(cfg: HealthConfig, calls: seq<Call>, i: int)
    requires 0 <= i < |calls| - 1
    ensures OpensAt(cfg, calls, i) <==> OpensAt(cfg, calls[..|calls| - 1], i)
  {
    Prefix(calls, i);
  }

  /** An open breaker carries the deadline of the last failure that opened it. */
  lemma {:induction false} OpenSince(cfg: HealthConfig, calls: seq<Call>) returns (i: int)
    requires At(cfg, calls).state.Open?
    ensures LastOpening(cfg, calls, i) && At(cfg, calls).state.until == calls[i].now + cfg.resetTimeout
  {
    var front, n := calls[..|calls| - 1], |calls| - 1;
    Prefix(calls, n);
    if OpensAt(cfg, calls, n) {
      i := n;
    } else {
      i := OpenSince(cfg, front);
      OpensInFront(cfg, calls, i);
      forall j | i < j < |calls| ensures !OpensAt(cfg, calls, j) {
        if j < n { OpensInFront(cfg, calls, j); }
      }
    }
  }

  /** With a clock that never runs back, a request is allowed only after every deadline so far has passed. */
  lemma {:induction false} NoRequestBeforeDeadline(cfg: HealthConfig, calls: seq<Call>, i: int, now: nat)
    requires Ordered(calls) && OpensAt(cfg, calls, i) && (forall j :: 0 <= j < |calls| ==> calls[j].now <= now)
    requires Allowed(At(cfg, calls), now)
    ensures now >= calls[i].now + cfg.resetTimeout
  {
    if At(cfg, calls).state.Open? {
      var last := OpenSince(cfg, calls);
      assert i <= last;
    } else {
      var front, n := calls[..|calls| - 1], |calls| - 1;
      Prefix(calls, n);
      OpensInFront(cfg, calls, i);
      var earlier := calls[n].now;
      assert Allowed(At(cfg, front), earlier);
      NoRequestBeforeDeadline(cfg, front, i, earlier);
    }
  }

  function Successes(calls: seq<Call>): nat {
    if calls == [] then 0 else Successes(calls[..|calls| - 1]) + if calls[|calls| - 1].Success? then 1 else 0
  }

  ghost predicate NoFailure(calls: seq<Call>) { forall k :: 0 <= k < |calls| ==> !calls[k].Failure? }

  /** The probe began at `i`: the open breaker's deadline had passed, and nothing failed since. */
  ghost predicate ProbeFrom(cfg: HealthConfig, calls: seq<Call>, i: int) {
    && 0 <= i < |calls| && calls[i].Asks?
    && At(cfg, calls[..i]).state.Open? && calls[i].now >= At(cfg, calls[..i]).state.until
    && NoFailure(calls[i + 1..])
  }

  lemma Suffix(calls: seq<Call>, i: int)
    requires 0 <= i < |calls| - 1
    ensures var front, last := calls[..|calls| - 1], calls[|calls| - 1];
      && front[..i] == calls[..i]
      && Successes(calls[i + 1..]) == Successes(front[i + 1..]) + (if last.Success? then 1 else 0)
      && (NoFailure(calls[i + 1..]) <==> NoFailure(front[i + 1..]) && !last.Failure?)
  {
    var front, last := calls[..|calls| - 1], calls[|calls| - 1];
    assert calls[i + 1..] == front[i + 1..] + [last];
    assert calls[i + 1..][..|calls[i + 1..]| - 1] == front[i + 1..];
  }

  /** A half-open breaker's success count is the successes since its probe began. */
  lemma {:induction false} HalfOpenSince(cfg: HealthConfig, calls: seq<Call>) returns (i: int)
    requires At(cfg, calls).state.HalfOpen?
    ensures ProbeFrom(cfg, calls, i) && At(cfg, calls).successes == Successes(calls[i + 1..])
  {
    var front, n := calls[..|calls| - 1], |calls| - 1;
    if At(cfg, front).state.HalfOpen? {
      i := HalfOpenSince(cfg, front);
      Suffix(calls, i);
    } else {
      i := n;
      assert calls[..n] == front && calls[n + 1..] == [];
    }
  }

  /**
   * A breaker that was not closed becomes closed only by a success that completes a probe: the
   * probe began after the deadline set by a failure plus the reset timeout, at least the threshold
   * of successes came since, and no failure.
   */
  lemma ClosedOnlyAfterProbe(cfg: HealthConfig, calls: seq<Call>) returns (tripped: int, probe: int)
    requires calls != [] && At(cfg, calls).state.Closed? && !At(cfg, calls[..|calls| - 1]).state.Closed?
    ensures 0 <= tripped < probe < |calls| && OpensAt(cfg, calls, tripped)
    ensures ProbeFrom(cfg, calls, probe) && calls[probe].now >= calls[tripped].now + cfg.resetTimeout
    ensures Successes(calls[probe + 1..]) >= cfg.successThreshold
  {
    var front, n := calls[..|calls| - 1], |calls| - 1;
    probe := HalfOpenSince(cfg, front);
    Suffix(calls, probe);
    var before := calls[..probe];
    tripped := OpenSince(cfg, before);
    assert before[..tripped + 1] == calls[..tripped + 1];
  }

  // ---------------------------------------------------------------- latency average ---

  ghost predicate SamplesWithin(calls: seq<Call>, low: nat, high: nat) {
    forall i :: 0 <= i < |calls| && calls[i].Success? ==> low <= Min(calls[i].latency, MAX_U64) <= high
  }

  lemma Scaled(x: nat, y: nat, k: nat)
    requires x <= y
    ensures x * k <= y * k
  {
    assert y * k == x * k + (y - x) * k;
  }

  lemma BlendWithin(x: nat, y: nat, a: nat, low: nat, high: nat)
    requires low <= x <= high && low <= y <= high && a <= 100
    ensures low <= (x * a + y * (100 - a)) / 100 <= high
  {
    var b := 100 - a;
    Scaled(low, x, a);
    Scaled(x, high, a);
    Scaled(low, y, b);
    Scaled(y, high, b);
    Hundredths(low, a, b);
    Hundredths(high, a, b);
  }

  lemma Hundredths(x: nat, a: nat, b: nat)
    requires a + b == 100
    ensures x * a + x * b == 100 * x
  {
    assert x * a + x * b == x * (a + b);
  }

  /** The average never leaves the range of the samples it has seen. */
  lemma {:induction false} AverageWithinSamples(cfg: HealthConfig, calls: seq<Call>, low: nat, high: nat)
    requires SamplesWithin(calls, low, high) && high <= MAX_U64
    ensures At(cfg, calls).average.Some? ==> low <= At(cfg, calls).average.value <= high
  {
    if calls != [] {
      var front, last := calls[..|calls| - 1], calls[|calls| - 1];
      AverageWithinSamples(cfg, front, low, high);
      if last.Success? && At(cfg, front).average.Some? {
        BlendWithin(Min(last.latency, MAX_U64), At(cfg, front).average.value, Min(cfg.latencyAlphaPct, 100), low, high);
      }
    }
  }

  // ----------------------------------------------------------------- every transition, exactly ---

  /** The results since the last success start at `i`. */
  ghost predicate SinceSuccess(calls: seq<Call>, i: nat) {
    i <= |calls| && NoSuccess(calls[i..]) && (i == 0 || calls[i - 1].Success?)
  }

  /** The failure counter is exactly the failures since the last success. */
  lemma {:induction false} CounterIsStreak(cfg: HealthConfig, calls: seq<Call>, i: nat)
    requires SinceSuccess(calls, i)
    ensures At(cfg, calls).failures == Failures(calls[i..])
  {
    if i < |calls| {
      var front, tail := calls[..|calls| - 1], calls[i..];
      assert tail[..|tail| - 1] == front[i..] && tail[|tail| - 1] == calls[|calls| - 1];
      CounterIsStreak(cfg, front, i);
    }
  }

  lemma AtOneMore(cfg: HealthConfig, calls: seq<Call>, call: Call)
    ensures At(cfg, calls + [call]) == After(cfg, At(cfg, calls), call)
  {
    assert (calls + [call])[..|calls + [call]| - 1] == calls;
  }

  /**
   * After any trace, what a failure does: it reopens a half-open breaker, and any other breaker exactly
   * when it completes the threshold of failures since the last success.
   */
  lemma FailureOpensIff(cfg: HealthConfig, calls: seq<Call>, i: nat, now: nat)
    requires SinceSuccess(calls, i)
    ensures var was, after := At(cfg, calls).state, At(cfg, calls + [Failure(now)]).state;
      var opens := was.HalfOpen? || Failures(calls[i..]) + 1 >= cfg.failureThreshold;
      after == if opens then Open(now + cfg.resetTimeout) else was
  {
    CounterIsStreak(cfg, calls, i);
    AtOneMore(cfg, calls, Failure(now));
  }

  /**
   * What a success does: it closes a half-open breaker exactly when it completes the threshold of
   * successes since the probe at `probe` began, and otherwise leaves the state.
   */
  lemma SuccessClosesIff(cfg: HealthConfig, calls: seq<Call>, now: nat, latency: nat) returns (probe: int)
    ensures At(cfg, calls).state.HalfOpen? ==> ProbeFrom(cfg, calls, probe)
    ensures var was, after := At(cfg, calls).state, At(cfg, calls + [Success(now, latency)]).state;
      after == if was.HalfOpen? && Successes(calls[probe + 1..]) + 1 >= cfg.successThreshold then Closed else was
  {
    probe := 0;
    AtOneMore(cfg, calls, Success(now, latency));
    if At(cfg, calls).state.HalfOpen? {
      probe := HalfOpenSince(cfg, calls);
    }
  }

  /** What asking does: an open breaker lets requests through from its deadline on, and is then half open. */
  lemma AskedAfterDeadline(cfg: HealthConfig, calls: seq<Call>, now: nat)
    ensures var was, after := At(cfg, calls).state, At(cfg, calls + [Asks(now)]).state;
      && (Allowed(At(cfg, calls), now) <==> !after.Open?)
      && (was.Open? && now >= was.until ==> after.HalfOpen?)
      && (!was.Open? || now < was.until ==> after == was)
  {
    AtOneMore(cfg, calls, Asks(now));
  }

  /**
   * The average after a success: the first sample as it is, and then the weighted mean of sample and
   * average, rounded down, with the configured percentage on the sample.
   */
  lemma AverageIsBlend(cfg: HealthConfig, calls: seq<Call>, now: nat, latency: nat)
    ensures var was, after := At(cfg, calls).average, At(cfg, calls + [Success(now, latency)]).average;
      var sample, a := Min(latency, MAX_U64), Min(cfg.latencyAlphaPct, 100);
      && after.Some? && (was.None? ==> after.value == sample)
      && (was.Some? ==> RoundedDown(after.value, sample * a + was.value * (100 - a)))
  {
    AtOneMore(cfg, calls, Success(now, latency));
    var was := At(cfg, calls).average;
    if was.Some? {
      AverageWithinSamples(cfg, calls, 0, MAX_U64);
      BlendRounds(cfg, was.value, latency);
    }
  }

  /** `x` is a hundredth of `sum`, rounded down. */
  predicate RoundedDown(x: nat, sum: nat) { 100 * x <= sum < 100 * x + 100 }

  lemma BlendRounds(cfg: HealthConfig, prev: nat, latency: nat)
    requires prev <= MAX_U64
    ensures var sample, a := Min(latency, MAX_U64), Min(cfg.latencyAlphaPct, 100);
      RoundedDown(Blend(cfg, Some(prev), latency), sample * a + prev * (100 - a))
  {
    var sample, a := Min(latency, MAX_U64), Min(cfg.latencyAlphaPct, 100);
    BlendWithin(sample, prev, a, 0, MAX_U64);
    Hundredth(sample * a + prev * (100 - a));
  }

  lemma Hundredth(sum: nat)
    ensures RoundedDown(sum / 100, sum)
  {}

  /** Only a success moves the average, and the two time stamps are those of the last success and failure. */
  lemma {:induction false} StampsAreLast(cfg: HealthConfig, calls: seq<Call>, i: nat)
    requires i < |calls|
    ensures calls[i].Success? && NoSuccess(calls[i + 1..]) ==> At(cfg, calls).lastSuccess == Some(calls[i].now)
    ensures calls[i].Failure? && NoFailure(calls[i + 1..]) ==> At(cfg, calls).lastFailure == Some(calls[i].now)
    ensures calls[i].Success? && NoSuccess(calls[i + 1..]) ==> At(cfg, calls).average == At(cfg, calls[..i + 1]).average
  {
    var front, n := calls[..|calls| - 1], |calls| - 1;
    if i < n {
      var tail := calls[i + 1..];
      assert tail[|tail| - 1] == calls[n] && tail[..|tail| - 1] == front[i + 1..] && front[..i + 1] == calls[..i + 1];
      assert front[i + 1..] == tail[..|tail| - 1];
      StampsAreLast(cfg, front, i);
    } else {
      assert calls[..i + 1] == calls;
    }
  }
}
