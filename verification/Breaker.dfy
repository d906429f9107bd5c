/**
 The Horizon circuit breaker of `src/stellar.rs`, with every method taken as one atomic
 step. `BreakerThreads` models the same methods one atomic access at a time.
 */
module Breaker {
  import opened Common
  import opened Ints

  datatype CircuitState = Closed | Open | HalfOpen

  datatype StellarError =
    | CircuitOpen | Request | Timeout | RetryableHttpStatus | NonRetryableHttpStatus
    | ResponseParse | VerificationNotFound
    | RetryExhausted(finalError: StellarError)

  predicate AffectsBreaker(e: StellarError) {
    match e
    case RetryExhausted(f) => AffectsBreaker(f)
    case Request | Timeout | RetryableHttpStatus => true
    case _ => false
  }

  /** Durations and clock readings are in one unit. */
  datatype Config = Config(failureThreshold: u32, openDuration: nat, halfOpenMaxCalls: u32) {
    function Threshold(): nat { Max(failureThreshold, 1) }
    function Probes(): nat { Max(halfOpenMaxCalls, 1) }
  }

  datatype Metrics = Metrics(trips: u64, recoveries: u64, halfOpenSuccesses: u64, halfOpenFailures: u64,
                             rejected: u64, successful: u64, failed: u64, timeouts: u64, retryableHttp: u64)

  datatype Breaker = Breaker(state: CircuitState, openedAt: Option<nat>, failures: u64,
                             inFlight: u64, successes: u64, metrics: Metrics)

  const NEW := Breaker(Closed, None, 0, 0, 0, Metrics(0, 0, 0, 0, 0, 0, 0, 0, 0))

  function Bump(x: u64): u64 { SatAdd64(x, 1) }

  function WrapInc(x: u64): u64 { if x == U64_MAX then 0 else x + 1 }

  function WrapDec(x: u64): u64 { if x == 0 then U64_MAX else x - 1 }

  datatype Admission = Admitted | Rejected(state: CircuitState, retryAfter: nat)

  // ---------- What each method does ----------

  function Allowed(c: Config, b: Breaker, now: nat, permit: bool): (Breaker, Admission) {
    match b.state
    case Closed => (b, Admitted)
    case Open =>
      if b.openedAt.Some? && SatSub(now, b.openedAt.value) < c.openDuration then
        (b.(metrics := b.metrics.(rejected := Bump(b.metrics.rejected))),
         Rejected(Open, c.openDuration - SatSub(now, b.openedAt.value)))
      else (b.(state := HalfOpen, inFlight := 0, successes := 0), Admitted)
    case HalfOpen =>
      if permit then (b.(inFlight := WrapInc(b.inFlight)), Admitted)
      else (b.(metrics := b.metrics.(rejected := Bump(b.metrics.rejected))), Rejected(HalfOpen, 0))
  }

  function Succeeded(c: Config, b: Breaker): Breaker {
    match b.state
    case Closed => b.(failures := 0, metrics := b.metrics.(successful := Bump(b.metrics.successful)))
    case Open => b
    case HalfOpen =>
      var b1 := b.(inFlight := WrapDec(b.inFlight), successes := WrapInc(b.successes),
                   metrics := b.metrics.(successful := Bump(b.metrics.successful),
                                         halfOpenSuccesses := Bump(b.metrics.halfOpenSuccesses)));
      if b.successes + 1 < c.Probes() then b1
      else b1.(state := Closed, openedAt := None, failures := 0,
               metrics := b1.metrics.(recoveries := Bump(b1.metrics.recoveries)))
  }

  /** Only the error itself is classified here, not what a `RetryExhausted` wraps. */
  function Classified(m: Metrics, e: StellarError): Metrics {
    match e
    case Timeout => m.(timeouts := Bump(m.timeouts))
    case RetryableHttpStatus => m.(retryableHttp := Bump(m.retryableHttp))
    case _ => m
  }

  function FailedWith(c: Config, b: Breaker, e: StellarError, now: nat): Breaker {
    match b.state
    case Closed =>
      var m := Classified(b.metrics, e);
      var b1 := b.(failures := WrapInc(b.failures), metrics := m.(failed := Bump(m.failed)));
      if b.failures + 1 < c.Threshold() then b1
      else b1.(state := Open, openedAt := Some(now), metrics := b1.metrics.(trips := Bump(b1.metrics.trips)))
    case Open => b
    case HalfOpen =>
      b.(inFlight := WrapDec(b.inFlight), state := Open, openedAt := Some(now),
         metrics := b.metrics.(trips := Bump(b.metrics.trips), failed := Bump(b.metrics.failed),
                               halfOpenFailures := Bump(b.metrics.halfOpenFailures)))
  }

  datatype Op =
    | Allow(now: nat, permit: bool)
    | RecordOk(now: nat)
    | RecordErr(now: nat, error: StellarError)

  predicate CountedFailure(op: Op) { op.RecordErr? && AffectsBreaker(op.error) }

  function Step(c: Config, b: Breaker, op: Op): Breaker {
    match op
    case Allow(now, permit) => Allowed(c, b, now, permit).0
    case RecordOk(_) => Succeeded(c, b)
    case RecordErr(now, e) => if AffectsBreaker(e) then FailedWith(c, b, e, now) else b
  }

  function After(c: Config, ops: seq<Op>): Breaker {
    if ops == [] then NEW else Step(c, After(c, ops[..|ops| - 1]), ops[|ops| - 1])
  }

  class CircuitBreaker {
    const config: Config
    var state: CircuitState
    var openedAt: Option<nat>
    var failures: u64
    var inFlight: u64
    var successes: u64
    var metrics: Metrics

    ghost function View(): Breaker
      reads this
    {
      Breaker(state, openedAt, failures, inFlight, successes, metrics)
    }

    constructor (config: Config)
      ensures View() == NEW && this.config == config
      ensures View() == Breaker(Closed, None, 0, 0, 0, Metrics(0, 0, 0, 0, 0, 0, 0, 0, 0))
    {
      this.config := config;
      state, openedAt, failures, inFlight, successes := Closed, None, 0, 0, 0;
      metrics := Metrics(0, 0, 0, 0, 0, 0, 0, 0, 0);
    }

    method AllowCall(now: nat, permit: bool) returns (r: Admission)
      modifies this
      ensures View() == Step(config, old(View()), Allow(now, permit))
      ensures r == Allowed(config, old(View()), now, permit).1
    {
      if state == Closed {
        return Admitted;
      } else if state == Open {
        if openedAt.Some? {
          var elapsed := SatSub(now, openedAt.value);
          if elapsed < config.openDuration {
            metrics := metrics.(rejected := Bump(metrics.rejected));
            return Rejected(Open, SatSub(config.openDuration, elapsed));
          }
        }
        state, inFlight, successes := HalfOpen, 0, 0;
        return Admitted;
      } else {
        if !permit {
          metrics := metrics.(rejected := Bump(metrics.rejected));
          return Rejected(HalfOpen, 0);
        }
        inFlight := WrapInc(inFlight);
        return Admitted;
      }
    }

    method RecordSuccess()
      modifies this
      ensures View() == Succeeded(config, old(View()))
    {
      if state == Closed {
        failures := 0;
        metrics := metrics.(successful := Bump(metrics.successful));
      } else if state == HalfOpen {
        inFlight := WrapDec(inFlight);
        var count := successes + 1;
        successes := WrapInc(successes);
        metrics := metrics.(successful := Bump(metrics.successful));
        metrics := metrics.(halfOpenSuccesses := Bump(metrics.halfOpenSuccesses));
        if count >= config.Probes() {
          state, openedAt, failures := Closed, None, 0;
          metrics := metrics.(recoveries := Bump(metrics.recoveries));
        }
      }
    }

    method RecordFailure(e: StellarError, now: nat)
      modifies this
      ensures View() == FailedWith(config, old(View()), e, now)
    {
      if state == Closed {
        var count := failures + 1;
        failures := WrapInc(failures);
        metrics := Classified(metrics, e);
        metrics := metrics.(failed := Bump(metrics.failed));
        if count >= config.Threshold() {
          state, openedAt := Open, Some(now);
          metrics := metrics.(trips := Bump(metrics.trips));
        }
      } else if state == HalfOpen {
        inFlight := WrapDec(inFlight);
        state, openedAt := Open, Some(now);
        metrics := metrics.(trips := Bump(metrics.trips));
        metrics := metrics.(failed := Bump(metrics.failed));
        metrics := metrics.(halfOpenFailures := Bump(metrics.halfOpenFailures));
      }
    }

    method RecordResult(op: Op)
      requires !op.Allow?
      modifies this
      ensures View() == Step(config, old(View()), op)
    {
      if op.RecordOk? {
        RecordSuccess();
      } else if AffectsBreaker(op.error) {
        RecordFailure(op.error, op.now);
      }
    }
  }

  // ---------- Which errors count ----------

  /** An error inside `layers` layers of exhausted retries. */
  function Wrapped(e: StellarError, layers: nat): StellarError {
    if layers == 0 then e else RetryExhausted(Wrapped(e, layers - 1))
  }

  /** However often retries were exhausted, the innermost error decides. */
  lemma {:induction false} InnermostDecides(e: StellarError, layers: nat)
    requires !e.RetryExhausted?
    ensures AffectsBreaker(Wrapped(e, layers)) <==> e in {Request, Timeout, RetryableHttpStatus}
  {
    if layers > 0 {
      InnermostDecides(e, layers - 1);
    }
  }

  /** Every error is some innermost error inside some layers. */
  lemma {:induction false} Unwrapped(e: StellarError) returns (inner: StellarError, layers: nat)
    ensures !inner.RetryExhausted? && e == Wrapped(inner, layers)
    decreases e
  {
    if e.RetryExhausted? {
      inner, layers := Unwrapped(e.finalError);
      layers := layers + 1;
    } else {
      inner, layers := e, 0;
    }
  }

  // ---------- Cool-down ----------

  ghost predicate ClockForward(ops: seq<Op>) {
    forall i, j :: 0 <= i <= j < |ops| ==> ops[i].now <= ops[j].now
  }

  /** When the breaker last went from another state to Open. */
  function LastTrip(c: Config, ops: seq<Op>): Option<nat> {
    if ops == [] then None
    else
      var front := ops[..|ops| - 1];
      if After(c, front).state != Open && After(c, ops).state == Open then Some(ops[|ops| - 1].now)
      else LastTrip(c, front)
  }

  ghost predicate CoolInv(c: Config, b: Breaker, trip: Option<nat>, clock: nat) {
    && (b.state == Open ==> trip.Some? && b.openedAt == trip && trip.value <= clock)
    && (b.state != Open && trip.Some? ==> trip.value + c.openDuration <= clock)
  }

  lemma {:induction false} CoolAlways(c: Config, ops: seq<Op>)
    requires ClockForward(ops)
    ensures CoolInv(c, After(c, ops), LastTrip(c, ops), if ops == [] then 0 else ops[|ops| - 1].now)
  {
    if ops != [] {
      var front := ops[..|ops| - 1];
      CoolAlways(c, front);
      assert front != [] ==> front[|front| - 1] == ops[|front| - 1];
    }
  }

  /**
   With a clock that does not run backwards, no call is admitted within the open duration of
   the last trip, while Open a call is admitted as soon as that time has passed, and each
   Open rejection reports exactly the time that is left. Closed admits, HalfOpen admits what
   the semaphore permits.
   */
  lemma {:induction false} CoolDown(c: Config, ops: seq<Op>, now: nat, permit: bool)
    requires ClockForward(ops) && (ops != [] ==> ops[|ops| - 1].now <= now)
    ensures var b, trip := After(c, ops), LastTrip(c, ops);
            var r := Allowed(c, b, now, permit).1;
            && (r == Admitted && trip.Some? ==> trip.value + c.openDuration <= now)
            && (b.state == Open ==>
                  && trip.Some?
                  && (r == Admitted <==> trip.value + c.openDuration <= now)
                  && (r != Admitted ==> r == Rejected(Open, trip.value + c.openDuration - now)))
            && (b.state == Closed ==> r == Admitted)
            && (b.state == HalfOpen ==> r == if permit then Admitted else Rejected(HalfOpen, 0))
  {
    CoolAlways(c, ops);
  }

  // ---------- When it trips ----------

  /** Counted failures recorded while Closed since the last success recorded there or the last closing. */
  function FailuresSince(c: Config, ops: seq<Op>): nat {
    if ops == [] then 0
    else
      var front, op := ops[..|ops| - 1], ops[|ops| - 1];
      var before, after := After(c, front).state, After(c, ops).state;
      if (before == Closed && op.RecordOk?) || (before != Closed && after == Closed) then 0
      else if before == Closed && CountedFailure(op) then FailuresSince(c, front) + 1
      else FailuresSince(c, front)
  }

  lemma {:induction false} FailuresCounted(c: Config, ops: seq<Op>)
    ensures After(c, ops).failures == FailuresSince(c, ops) <= c.Threshold()
    ensures After(c, ops).state == Closed ==> FailuresSince(c, ops) < c.Threshold()
  {
    if ops != [] {
      FailuresCounted(c, ops[..|ops| - 1]);
    }
  }

  /** From Closed the breaker trips on exactly the threshold-th such failure; a threshold of 0 counts as 1. */
  lemma {:induction false} TripsIff(c: Config, ops: seq<Op>, op: Op)
    requires After(c, ops).state == Closed
    ensures Step(c, After(c, ops), op).state == Open <==>
              && CountedFailure(op)
              && FailuresSince(c, ops) + 1 == if c.failureThreshold == 0 then 1 else c.failureThreshold
    ensures Step(c, After(c, ops), op).state != HalfOpen
  {
    FailuresCounted(c, ops);
  }

  // ---------- When it closes ----------

  /** How many operations ago the breaker entered HalfOpen. */
  function SinceEntry(c: Config, ops: seq<Op>): (n: nat)
    requires After(c, ops).state == HalfOpen
    ensures n < |ops|
  {
    var front := ops[..|ops| - 1];
    if After(c, front).state != HalfOpen then 0 else SinceEntry(c, front) + 1
  }

  function CountOk(ops: seq<Op>): nat {
    if ops == [] then 0 else CountOk(ops[..|ops| - 1]) + if ops[|ops| - 1].RecordOk? then 1 else 0
  }

  /** The operations since entering HalfOpen. */
  function Recent(c: Config, ops: seq<Op>): seq<Op>
    requires After(c, ops).state == HalfOpen
  {
    ops[|ops| - SinceEntry(c, ops)..]
  }

  ghost predicate ProbeInv(c: Config, b: Breaker, recent: seq<Op>) {
    && b.successes == CountOk(recent) < c.Probes()
    && (forall i :: 0 <= i < |recent| ==> !CountedFailure(recent[i]))
  }

  lemma {:induction false} ProbesCounted(c: Config, ops: seq<Op>)
    requires After(c, ops).state == HalfOpen
    ensures ProbeInv(c, After(c, ops), Recent(c, ops))
  {
    var n := |ops| - 1;
    var front, op := ops[..n], ops[n];
    if After(c, front).state == HalfOpen {
      ProbesCounted(c, front);
      assert Recent(c, ops) == Recent(c, front) + [op];
      ProbeStep(c, After(c, front), op, Recent(c, front));
    } else {
      assert Recent(c, ops) == [];
      ProbeEntry(c, After(c, front), op);
    }
  }

  lemma ProbeEntry(c: Config, b: Breaker, op: Op)
    requires b.state != HalfOpen && Step(c, b, op).state == HalfOpen
    ensures ProbeInv(c, Step(c, b, op), [])
  {
  }

  lemma ProbeStep(c: Config, b: Breaker, op: Op, recent: seq<Op>)
    requires b.state == HalfOpen && Step(c, b, op).state == HalfOpen && ProbeInv(c, b, recent)
    ensures ProbeInv(c, Step(c, b, op), recent + [op])
  {
    assert (recent + [op])[..|recent|] == recent;
  }

  /**
   From HalfOpen the breaker closes on exactly the half_open_max_calls-th success recorded
   since it entered (0 counts as 1), there having been no counted failure since, and a
   counted failure reopens it.
   */
  lemma {:induction false} ClosesIff(c: Config, ops: seq<Op>, op: Op)
    requires After(c, ops).state == HalfOpen
    ensures var recent := Recent(c, ops);
            && (forall i :: 0 <= i < |recent| ==> !CountedFailure(recent[i]))
            && (Step(c, After(c, ops), op).state == Closed <==>
                  op.RecordOk? && CountOk(recent) + 1 == if c.halfOpenMaxCalls == 0 then 1 else c.halfOpenMaxCalls)
            && (Step(c, After(c, ops), op).state == Open <==> CountedFailure(op))
  {
    ProbesCounted(c, ops);
  }

  // ---------- The in-flight gauge ----------

  function CountPermits(ops: seq<Op>): nat {
    if ops == [] then 0
    else CountPermits(ops[..|ops| - 1]) + if ops[|ops| - 1].Allow? && ops[|ops| - 1].permit then 1 else 0
  }

  /** `x` modulo 2^64, for one step at a time. */
  ghost predicate Wraps(gauge: u64, x: int) { exists laps: int :: gauge == x + laps * U64_LIMIT }

  lemma WrapsStep(gauge: u64, x: int)
    requires Wraps(gauge, x)
    ensures Wraps(WrapInc(gauge), x + 1) && Wraps(WrapDec(gauge), x - 1)
  {
    var laps: int :| gauge == x + laps * U64_LIMIT;
    assert (laps - 1) * U64_LIMIT == laps * U64_LIMIT - U64_LIMIT;
    assert (laps + 1) * U64_LIMIT == laps * U64_LIMIT + U64_LIMIT;
    assert WrapInc(gauge) == x + 1 + (if gauge == U64_MAX then laps - 1 else laps) * U64_LIMIT;
    assert WrapDec(gauge) == x - 1 + (if gauge == 0 then laps + 1 else laps) * U64_LIMIT;
  }

  /**
   While HalfOpen the gauge is the permitted calls minus the recorded successes since the
   breaker entered, wrapped to 64 bits. The call whose admission enters HalfOpen is not among
   the permitted ones, so when it succeeds first the gauge wraps below zero.
   */
  lemma {:induction false} InFlightCounts(c: Config, ops: seq<Op>)
    requires After(c, ops).state == HalfOpen
    ensures Wraps(After(c, ops).inFlight, CountPermits(Recent(c, ops)) - CountOk(Recent(c, ops)))
  {
    var n := |ops| - 1;
    var front, op := ops[..n], ops[n];
    if After(c, front).state == HalfOpen {
      InFlightCounts(c, front);
      assert Recent(c, ops) == Recent(c, front) + [op];
      GaugeStep(c, After(c, front), op, Recent(c, front));
    } else {
      assert Recent(c, ops) == [];
      assert After(c, ops).inFlight == 0 + 0 * U64_LIMIT;
    }
  }

  lemma GaugeStep(c: Config, b: Breaker, op: Op, recent: seq<Op>)
    requires b.state == HalfOpen && Step(c, b, op).state == HalfOpen
    requires Wraps(b.inFlight, CountPermits(recent) - CountOk(recent))
    ensures Wraps(Step(c, b, op).inFlight, CountPermits(recent + [op]) - CountOk(recent + [op]))
  {
    assert (recent + [op])[..|recent|] == recent;
    WrapsStep(b.inFlight, CountPermits(recent) - CountOk(recent));
  }

  /** So the gauge tells the truth exactly while no more successes than permitted calls were recorded. */
  lemma {:induction false} GaugeTrueIff(c: Config, ops: seq<Op>)
    requires After(c, ops).state == HalfOpen && |ops| < U64_LIMIT
    ensures var permits, oks := CountPermits(Recent(c, ops)), CountOk(Recent(c, ops));
            After(c, ops).inFlight == permits - oks <==> oks <= permits
  {
    InFlightCounts(c, ops);
    PermitsFit(Recent(c, ops));
    var x := CountPermits(Recent(c, ops)) - CountOk(Recent(c, ops));
    if x >= 0 {
      NoLap(After(c, ops).inFlight, x);
    }
  }

  lemma NoLap(gauge: u64, x: nat)
    requires Wraps(gauge, x) && x < U64_LIMIT
    ensures gauge == x
  {
    var laps: int :| gauge == x + laps * U64_LIMIT;
    assert laps >= 1 ==> laps * U64_LIMIT >= U64_LIMIT;
    assert laps <= -1 ==> laps * U64_LIMIT <= -1 * U64_LIMIT;
  }

  lemma {:induction false} PermitsFit(ops: seq<Op>)
    ensures CountPermits(ops) <= |ops|
  {
    if ops != [] {
      PermitsFit(ops[..|ops| - 1]);
    }
  }

  // ---------- What the counters count ----------

  datatype Counter =
    | Trips | Recoveries | HalfOpenSuccesses | HalfOpenFailures
    | RejectedCalls | SuccessfulCalls | FailedCalls | TimeoutCalls | RetryableHttpCalls

  function Shown(m: Metrics, k: Counter): u64 {
    match k
    case Trips => m.trips
    case Recoveries => m.recoveries
    case HalfOpenSuccesses => m.halfOpenSuccesses
    case HalfOpenFailures => m.halfOpenFailures
    case RejectedCalls => m.rejected
    case SuccessfulCalls => m.successful
    case FailedCalls => m.failed
    case TimeoutCalls => m.timeouts
    case RetryableHttpCalls => m.retryableHttp
  }

  /** The events each counter is named after. */
  predicate Happens(c: Config, b: Breaker, op: Op, k: Counter) {
    match k
    case Trips => b.state != Open && Step(c, b, op).state == Open
    case Recoveries => b.state != Closed && Step(c, b, op).state == Closed
    case HalfOpenSuccesses => op.RecordOk? && b.state == HalfOpen
    case HalfOpenFailures => CountedFailure(op) && b.state == HalfOpen
    case RejectedCalls => op.Allow? && Allowed(c, b, op.now, op.permit).1.Rejected?
    case SuccessfulCalls => op.RecordOk? && b.state != Open
    case FailedCalls => CountedFailure(op) && b.state != Open
    case TimeoutCalls => op.RecordErr? && op.error == Timeout && b.state == Closed
    case RetryableHttpCalls => op.RecordErr? && op.error == RetryableHttpStatus && b.state == Closed
  }

  function Count(c: Config, ops: seq<Op>, k: Counter): nat {
    if ops == [] then 0
    else
      var front := ops[..|ops| - 1];
      Count(c, front, k) + if Happens(c, After(c, front), ops[|ops| - 1], k) then 1 else 0
  }

  lemma CounterStep(c: Config, b: Breaker, op: Op, k: Counter)
    ensures Shown(Step(c, b, op).metrics, k) ==
            if Happens(c, b, op, k) then Bump(Shown(b.metrics, k)) else Shown(b.metrics, k)
  {
  }

  /** Each of the nine counters shows how often its event happened, up to saturation. */
  lemma {:induction false} CountersCount(c: Config, ops: seq<Op>, k: Counter)
    ensures Shown(After(c, ops).metrics, k) == Min(Count(c, ops, k), U64_MAX)
  {
    if ops != [] {
      CountersCount(c, ops[..|ops| - 1], k);
      CounterStep(c, After(c, ops[..|ops| - 1]), ops[|ops| - 1], k);
    }
  }
}
