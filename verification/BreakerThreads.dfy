/**
 The circuit breaker under concurrency: each load, store, fetch-and-add, compare-and-swap
 and locked counter update of `src/stellar.rs` is one step, and steps of any number of
 tasks interleave freely.
 */
module BreakerThreads {
  import opened Common
  import opened Ints
  import opened Breaker

  /** Where a task is; the name says which access it does next. */
  datatype Phase =
    | Idle
    | Called  // admitted; the operation it called for is under way
    // allow_call
    | AllowLoad | AllowClock | AllowSwap | AllowResetInFlight | AllowResetSuccesses
    | AllowReject(state: CircuitState, retryAfter: nat) | AllowPermit | AllowEnter
    // record_success
    | OkLoad | OkClearFailures | OkCountClosed
    | OkLeave | OkAdd | OkCount(close: bool) | OkCountProbe(close: bool) | OkSwap
    | OkTakeStamp | OkResetFailures | OkRecover
    // record_failure, loaded Closed
    | ErrLoad(error: StellarError) | ErrAdd(error: StellarError) | ErrClassify(error: StellarError, trip: bool)
    | ErrCount(trip: bool) | ErrSwap | ErrStamp | ErrTrip
    // record_failure, loaded HalfOpen
    | ProbeLeave | ProbeSwap | ProbeStamp | ProbeTrip | ProbeCount | ProbeFail

  datatype System = System(b: Breaker, phases: seq<Phase>)

  /** A caller begins a call, or the operation of an admitted call ends. */
  datatype Event = Nothing | Begin | Success | Failure(error: StellarError)

  /** What the environment supplies to a step: such an event, the clock, the semaphore. */
  datatype Input = Input(event: Event, now: nat, permit: bool)

  /** An admitted call records its result, unless that is an error the breaker ignores. */
  function Recording(e: Event): Phase {
    match e
    case Success => OkLoad
    case Failure(error) => if AffectsBreaker(error) then ErrLoad(error) else Idle
    case _ => Called
  }

  /** One access of one task: the new shared state and where the task goes. */
  function Access(c: Config, b: Breaker, p: Phase, x: Input): (Breaker, Phase) {
    var m := b.metrics;
    match p
    case Idle => (b, if x.event == Begin then AllowLoad else Idle)
    case Called => (b, Recording(x.event))

    case AllowLoad => (b, match b.state case Closed => Called case Open => AllowClock case HalfOpen => AllowPermit)
    case AllowClock =>
      (b, if b.openedAt.Some? && SatSub(x.now, b.openedAt.value) < c.openDuration
          then AllowReject(Open, SatSub(c.openDuration, SatSub(x.now, b.openedAt.value)))
          else AllowSwap)
    case AllowSwap => if b.state == Open then (b.(state := HalfOpen), AllowResetInFlight) else (b, AllowLoad)
    case AllowResetInFlight => (b.(inFlight := 0), AllowResetSuccesses)
    case AllowResetSuccesses => (b.(successes := 0), Called)
    case AllowReject(_, _) => (b.(metrics := m.(rejected := Bump(m.rejected))), Idle)
    case AllowPermit => (b, if x.permit then AllowEnter else AllowReject(HalfOpen, 0))
    case AllowEnter => (b.(inFlight := WrapInc(b.inFlight)), Called)

    case OkLoad => (b, match b.state case Closed => OkClearFailures case Open => Idle case HalfOpen => OkLeave)
    case OkClearFailures => (b.(failures := 0), OkCountClosed)
    case OkCountClosed => (b.(metrics := m.(successful := Bump(m.successful))), Idle)
    case OkLeave => (b.(inFlight := WrapDec(b.inFlight)), OkAdd)
    case OkAdd => (b.(successes := WrapInc(b.successes)), OkCount(b.successes + 1 >= c.Probes()))
    case OkCount(close) => (b.(metrics := m.(successful := Bump(m.successful))), OkCountProbe(close))
    case OkCountProbe(close) =>
      (b.(metrics := m.(halfOpenSuccesses := Bump(m.halfOpenSuccesses))), if close then OkSwap else Idle)
    case OkSwap => if b.state == HalfOpen then (b.(state := Closed), OkTakeStamp) else (b, Idle)
    case OkTakeStamp => (b.(openedAt := None), OkResetFailures)
    case OkResetFailures => (b.(failures := 0), OkRecover)
    case OkRecover => (b.(metrics := m.(recoveries := Bump(m.recoveries))), Idle)

    case ErrLoad(e) => (b, match b.state case Closed => ErrAdd(e) case Open => Idle case HalfOpen => ProbeLeave)
    case ErrAdd(e) => (b.(failures := WrapInc(b.failures)), ErrClassify(e, b.failures + 1 >= c.Threshold()))
    case ErrClassify(e, trip) => (b.(metrics := Classified(m, e)), ErrCount(trip))
    case ErrCount(trip) => (b.(metrics := m.(failed := Bump(m.failed))), if trip then ErrSwap else Idle)
    case ErrSwap => if b.state == Closed then (b.(state := Open), ErrStamp) else (b, Idle)
    case ErrStamp => (b.(openedAt := Some(x.now)), ErrTrip)
    case ErrTrip => (b.(metrics := m.(trips := Bump(m.trips))), Idle)

    case ProbeLeave => (b.(inFlight := WrapDec(b.inFlight)), ProbeSwap)
    case ProbeSwap => if b.state == HalfOpen then (b.(state := Open), ProbeStamp) else (b, Idle)
    case ProbeStamp => (b.(openedAt := Some(x.now)), ProbeTrip)
    case ProbeTrip => (b.(metrics := m.(trips := Bump(m.trips))), ProbeCount)
    case ProbeCount => (b.(metrics := m.(failed := Bump(m.failed))), ProbeFail)
    case ProbeFail => (b.(metrics := m.(halfOpenFailures := Bump(m.halfOpenFailures))), Idle)
  }

  /** What `allow_call` returns, at the access it returns after. */
  function Reply(b: Breaker, p: Phase): Option<Admission> {
    match p
    case AllowLoad => if b.state == Closed then Some(Admitted) else None
    case AllowResetSuccesses | AllowEnter => Some(Admitted)
    case AllowReject(state, retryAfter) => Some(Rejected(state, retryAfter))
    case _ => None
  }

  datatype Move = Move(tid: nat, input: Input)

  function Next(c: Config, s: System, mv: Move): System {
    if mv.tid >= |s.phases| then s
    else
      var (b, p) := Access(c, s.b, s.phases[mv.tid], mv.input);
      System(b, s.phases[mv.tid := p])
  }

  function Run(c: Config, s: System, moves: seq<Move>): System {
    if moves == [] then s else Next(c, Run(c, s, moves[..|moves| - 1]), moves[|moves| - 1])
  }

  function Start(tasks: nat): System { System(NEW, seq(tasks, _ => Idle)) }

  // ---------- The counter balance ----------

  /**
   What a task between its successful swap and its last counter update still owes to
   trips - half_open_failures - recoveries.
   */
  function Owes(p: Phase): int {
    match p
    case ErrStamp | ErrTrip => 1
    case ProbeCount | ProbeFail => -1
    case OkTakeStamp | OkResetFailures | OkRecover => -1
    case _ => 0  // ProbeStamp and ProbeTrip owe one trip and one half-open failure
  }

  function Owed(ps: seq<Phase>): int {
    if ps == [] then 0 else Owed(ps[..|ps| - 1]) + Owes(ps[|ps| - 1])
  }

  lemma {:induction false} OwedUpdate(ps: seq<Phase>, i: nat, p: Phase)
    requires i < |ps|
    ensures Owed(ps[i := p]) == Owed(ps) - Owes(ps[i]) + Owes(p)
  {
    var n := |ps| - 1;
    if i == n {
      assert ps[i := p][..n] == ps[..n];
    } else {
      assert ps[i := p][..n] == ps[..n][i := p];
      OwedUpdate(ps[..n], i, p);
    }
  }

  function Balance(b: Breaker): int {
    b.metrics.trips - b.metrics.halfOpenFailures - b.metrics.recoveries
  }

  predicate Unsaturated(b: Breaker) {
    b.metrics.trips < U64_MAX && b.metrics.halfOpenFailures < U64_MAX && b.metrics.recoveries < U64_MAX
  }

  ghost predicate Balanced(s: System) {
    Unsaturated(s.b) ==> Balance(s.b) + Owed(s.phases) == if s.b.state == Closed then 0 else 1
  }

  /** What the state and the three counters weigh together. */
  function Weight(b: Breaker): int { Balance(b) - if b.state == Closed then 0 else 1 }

  lemma CountersGrow(c: Config, b: Breaker, p: Phase, x: Input)
    ensures var m, m' := b.metrics, Access(c, b, p, x).0.metrics;
            m.trips <= m'.trips && m.halfOpenFailures <= m'.halfOpenFailures && m.recoveries <= m'.recoveries
  {
  }

  predicate InRecovery(p: Phase) { p == OkSwap || p == OkTakeStamp || p == OkResetFailures || p == OkRecover }

  predicate InOpening(p: Phase) {
    p in {ErrSwap, ErrStamp, ErrTrip, ProbeSwap, ProbeStamp, ProbeTrip, ProbeCount, ProbeFail}
  }

  lemma RecoveringBalance(c: Config, b: Breaker, p: Phase, x: Input)
    requires Unsaturated(b) && InRecovery(p)
    ensures var (b', p') := Access(c, b, p, x);
            Weight(b') + Owes(p') == Weight(b) + Owes(p)
  {
  }

  lemma TripBalance(c: Config, b: Breaker, p: Phase, x: Input)
    requires Unsaturated(b) && p in {ErrSwap, ErrStamp, ErrTrip}
    ensures var (b', p') := Access(c, b, p, x);
            Weight(b') + Owes(p') == Weight(b) + Owes(p)
  {
  }

  lemma ReopenBalance(c: Config, b: Breaker, p: Phase, x: Input)
    requires Unsaturated(b) && p in {ProbeSwap, ProbeStamp, ProbeTrip, ProbeCount, ProbeFail}
    ensures var (b', p') := Access(c, b, p, x);
            Weight(b') + Owes(p') == Weight(b) + Owes(p)
  {
  }

  /** Elsewhere nothing that weighs changes. */
  lemma OtherBalance(c: Config, b: Breaker, p: Phase, x: Input)
    requires !InRecovery(p) && !InOpening(p)
    ensures var (b', p') := Access(c, b, p, x);
            && Owes(p) == Owes(p') == 0
            && b'.metrics.trips == b.metrics.trips && b'.metrics.recoveries == b.metrics.recoveries
            && b'.metrics.halfOpenFailures == b.metrics.halfOpenFailures
            && (b'.state == Closed <==> b.state == Closed)
  {
  }

  lemma AccessBalance(c: Config, b: Breaker, p: Phase, x: Input)
    requires Unsaturated(b)
    ensures var (b', p') := Access(c, b, p, x);
            Weight(b') + Owes(p') == Weight(b) + Owes(p)
  {
    if InRecovery(p) {
      RecoveringBalance(c, b, p, x);
    } else if InOpening(p) {
      if p in {ErrSwap, ErrStamp, ErrTrip} {
        TripBalance(c, b, p, x);
      } else {
        ReopenBalance(c, b, p, x);
      }
    } else {
      OtherBalance(c, b, p, x);
    }
  }

  lemma {:induction false} StartOwesNothing(tasks: nat)
    ensures Owed(seq(tasks, _ => Idle)) == 0
  {
    if tasks > 0 {
      StartOwesNothing(tasks - 1);
      assert seq(tasks, _ => Idle)[..tasks - 1] == seq(tasks - 1, _ => Idle);
    }
  }

  /**
   In every interleaving, trips minus half-open failures minus recoveries, corrected for
   the updates still owed after a successful swap, is one when the breaker is not Closed and
   zero when it is, as long as no counter has saturated.
   */
  lemma {:induction false} CountersBalance(c: Config, tasks: nat, moves: seq<Move>)
    ensures Balanced(Run(c, Start(tasks), moves))
    ensures |Run(c, Start(tasks), moves).phases| == tasks
  {
    if moves == [] {
      StartOwesNothing(tasks);
    } else {
      var s, mv := Run(c, Start(tasks), moves[..|moves| - 1]), moves[|moves| - 1];
      CountersBalance(c, tasks, moves[..|moves| - 1]);
      if mv.tid < |s.phases| {
        CountersGrow(c, s.b, s.phases[mv.tid], mv.input);
        if Unsaturated(s.b) {
          AccessBalance(c, s.b, s.phases[mv.tid], mv.input);
        }
        OwedUpdate(s.phases, mv.tid, Access(c, s.b, s.phases[mv.tid], mv.input).1);
      }
    }
  }

  /** No task is inside `allow_call`, `record_success` or `record_failure`. */
  ghost predicate Quiet(ps: seq<Phase>) {
    forall i :: 0 <= i < |ps| ==> ps[i] == Idle || ps[i] == Called
  }

  lemma {:induction false} QuietOwesNothing(ps: seq<Phase>)
    requires Quiet(ps)
    ensures Owed(ps) == 0
  {
    if ps != [] {
      QuietOwesNothing(ps[..|ps| - 1]);
    }
  }

  /** While no task is inside a method the published counters alone tell whether the breaker is closed. */
  lemma {:induction false} QuietCountersTellState(c: Config, tasks: nat, moves: seq<Move>)
    requires Quiet(Run(c, Start(tasks), moves).phases) && Unsaturated(Run(c, Start(tasks), moves).b)
    ensures var b := Run(c, Start(tasks), moves).b;
            b.state == Closed <==> b.metrics.trips == b.metrics.halfOpenFailures + b.metrics.recoveries
  {
    CountersBalance(c, tasks, moves);
    QuietOwesNothing(Run(c, Start(tasks), moves).phases);
  }

  // ---------- A task that is not interrupted does the atomic method ----------

  /** `n` accesses in a row by one task; nobody else runs. */
  function Alone(c: Config, b: Breaker, p: Phase, x: Input, n: nat): (Breaker, Phase)
    decreases n
  {
    if n == 0 then (b, p)
    else
      var (b', p') := Access(c, b, p, x);
      Alone(c, b', p', x, n - 1)
  }

  function Three(c: Config, b: Breaker, p: Phase, x: Input): (Breaker, Phase) {
    var (b1, p1) := Access(c, b, p, x);
    var (b2, p2) := Access(c, b1, p1, x);
    Access(c, b2, p2, x)
  }

  lemma AloneThree(c: Config, b: Breaker, p: Phase, x: Input, n: nat)
    ensures var (b', p') := Three(c, b, p, x);
            Alone(c, b, p, x, n + 3) == Alone(c, b', p', x, n)
  {
    var (b1, p1) := Access(c, b, p, x);
    var (b2, p2) := Access(c, b1, p1, x);
    assert Alone(c, b1, p1, x, n + 2) == Alone(c, b2, p2, x, n + 1);
  }

  lemma AloneNine(c: Config, b: Breaker, p: Phase, x: Input)
    ensures var (b1, p1) := Three(c, b, p, x);
            var (b2, p2) := Three(c, b1, p1, x);
            Alone(c, b, p, x, 9) == Three(c, b2, p2, x)
  {
    var (b1, p1) := Three(c, b, p, x);
    var (b2, p2) := Three(c, b1, p1, x);
    AloneThree(c, b, p, x, 6);
    AloneThree(c, b1, p1, x, 3);
    AloneThree(c, b2, p2, x, 0);
  }

  /** What the first `n` accesses of an uninterrupted task return. */
  function Replies(c: Config, b: Breaker, p: Phase, x: Input, n: nat): seq<Admission>
    decreases n
  {
    if n == 0 then []
    else
      var (b', p') := Access(c, b, p, x);
      (if Reply(b, p).Some? then [Reply(b, p).value] else []) + Replies(c, b', p', x, n - 1)
  }

  /** A task that has returned stays where it is until the next event. */
  lemma {:induction false} RestReplies(c: Config, b: Breaker, p: Phase, x: Input, n: nat)
    requires x.event == Nothing && (p == Idle || p == Called)
    ensures Replies(c, b, p, x, n) == []
  {
    if n > 0 {
      RestReplies(c, b, p, x, n - 1);
    }
  }

  /** Uninterrupted, `allow_call` is done within nine accesses and is the atomic method. */
  lemma {:induction false} AllowAlone(c: Config, b: Breaker, x: Input)
    requires x.event == Nothing
    ensures var (b', r) := Allowed(c, b, x.now, x.permit);
            && Alone(c, b, AllowLoad, x, 9) == (b', if r == Admitted then Called else Idle)
            && Replies(c, b, AllowLoad, x, 9) == [r]
  {
    AloneNine(c, b, AllowLoad, x);
    AllowReplies(c, b, x);
  }

  lemma RepliesNext(c: Config, b: Breaker, p: Phase, x: Input, n: nat)
    ensures var (b', p') := Access(c, b, p, x);
            Replies(c, b, p, x, n + 1) ==
            (if Reply(b, p).Some? then [Reply(b, p).value] else []) + Replies(c, b', p', x, n)
  {
  }

  lemma AllowReplies(c: Config, b: Breaker, x: Input)
    requires x.event == Nothing
    ensures Replies(c, b, AllowLoad, x, 9) == [Allowed(c, b, x.now, x.permit).1]
  {
    RepliesNext(c, b, AllowLoad, x, 8);
    match b.state
    case Closed => RestReplies(c, b, Called, x, 8);
    case Open => OpenReplies(c, b, x);
    case HalfOpen => ProbeReplies(c, b, x);
  }

  lemma OpenReplies(c: Config, b: Breaker, x: Input)
    requires x.event == Nothing && b.state == Open
    ensures Replies(c, b, AllowClock, x, 8) == [Allowed(c, b, x.now, x.permit).1]
  {
    RepliesNext(c, b, AllowClock, x, 7);
    var p := Access(c, b, AllowClock, x).1;
    if p == AllowSwap {
      SwapReplies(c, b, x);
    } else {
      RejectReplies(c, b, x, p.state, p.retryAfter);
    }
  }

  lemma RejectReplies(c: Config, b: Breaker, x: Input, state: CircuitState, retryAfter: nat)
    requires x.event == Nothing
    ensures Replies(c, b, AllowReject(state, retryAfter), x, 7) == [Rejected(state, retryAfter)]
  {
    RepliesNext(c, b, AllowReject(state, retryAfter), x, 6);
    RestReplies(c, Access(c, b, AllowReject(state, retryAfter), x).0, Idle, x, 6);
  }

  lemma SwapReplies(c: Config, b: Breaker, x: Input)
    requires x.event == Nothing && b.state == Open
    ensures Replies(c, b, AllowSwap, x, 7) == [Admitted]
  {
    RepliesNext(c, b, AllowSwap, x, 6);
    RepliesNext(c, b.(state := HalfOpen), AllowResetInFlight, x, 5);
    ResetReplies(c, b.(state := HalfOpen, inFlight := 0), x);
  }

  lemma ResetReplies(c: Config, b: Breaker, x: Input)
    requires x.event == Nothing
    ensures Replies(c, b, AllowResetSuccesses, x, 5) == [Admitted]
  {
    RepliesNext(c, b, AllowResetSuccesses, x, 4);
    RestReplies(c, b.(successes := 0), Called, x, 4);
  }

  lemma ProbeReplies(c: Config, b: Breaker, x: Input)
    requires x.event == Nothing && b.state == HalfOpen
    ensures Replies(c, b, AllowPermit, x, 8) == [Allowed(c, b, x.now, x.permit).1]
  {
    var (b1, p1) := Access(c, b, AllowPermit, x);
    var (b2, p2) := Access(c, b1, p1, x);
    RepliesNext(c, b, AllowPermit, x, 7);
    RepliesNext(c, b1, p1, x, 6);
    RestReplies(c, b2, p2, x, 6);
  }

  lemma {:induction false} RecordSuccessAlone(c: Config, b: Breaker, x: Input)
    requires x.event == Nothing
    ensures Alone(c, b, OkLoad, x, 9) == (Succeeded(c, b), Idle)
  {
    AloneNine(c, b, OkLoad, x);
    if b.state == HalfOpen {
      ProbeSuccessAlone(c, b, x);
    }
  }

  lemma ProbeSuccessAlone(c: Config, b: Breaker, x: Input)
    requires b.state == HalfOpen && x.event == Nothing
    ensures var (b1, p1) := Three(c, b, OkLoad, x);
            var (b2, p2) := Three(c, b1, p1, x);
            Three(c, b2, p2, x) == (Succeeded(c, b), Idle)
  {
    var close := b.successes + 1 >= c.Probes();
    var b1 := b.(inFlight := WrapDec(b.inFlight), successes := WrapInc(b.successes));
    assert Three(c, b, OkLoad, x) == (b1, OkCount(close));
    CountSuccessAlone(c, b1, x, close);
  }

  lemma CountSuccessAlone(c: Config, b: Breaker, x: Input, close: bool)
    requires b.state == HalfOpen && x.event == Nothing
    ensures var m := b.metrics;
            var b1 := b.(metrics := m.(successful := Bump(m.successful),
                                       halfOpenSuccesses := Bump(m.halfOpenSuccesses)));
            var b2 := b1.(state := Closed, openedAt := None, failures := 0,
                          metrics := b1.metrics.(recoveries := Bump(m.recoveries)));
            if close then
              Three(c, b, OkCount(close), x) == (b1.(state := Closed), OkTakeStamp) &&
              Three(c, b1.(state := Closed), OkTakeStamp, x) == (b2, Idle)
            else Three(c, b, OkCount(close), x) == (b1, Idle) && Three(c, b1, Idle, x) == (b1, Idle)
  {
  }

  lemma {:induction false} RecordFailureAlone(c: Config, b: Breaker, x: Input, e: StellarError)
    requires x.event == Nothing
    ensures Alone(c, b, ErrLoad(e), x, 9) == (FailedWith(c, b, e, x.now), Idle)
  {
    AloneNine(c, b, ErrLoad(e), x);
    match b.state
    case Closed => ClosedFailureAlone(c, b, x, e);
    case Open => assert Three(c, b, ErrLoad(e), x) == (b, Idle);
    case HalfOpen => ProbeFailureAlone(c, b, x, e);
  }

  lemma ClosedFailureAlone(c: Config, b: Breaker, x: Input, e: StellarError)
    requires b.state == Closed && x.event == Nothing
    ensures var (b1, p1) := Three(c, b, ErrLoad(e), x);
            var (b2, p2) := Three(c, b1, p1, x);
            Three(c, b2, p2, x) == (FailedWith(c, b, e, x.now), Idle)
  {
    var trip := b.failures + 1 >= c.Threshold();
    var b1 := b.(failures := WrapInc(b.failures), metrics := Classified(b.metrics, e));
    assert Three(c, b, ErrLoad(e), x) == (b1, ErrCount(trip));
    CountFailureAlone(c, b1, x, trip);
  }

  lemma CountFailureAlone(c: Config, b: Breaker, x: Input, trip: bool)
    requires b.state == Closed && x.event == Nothing
    ensures var b1 := b.(metrics := b.metrics.(failed := Bump(b.metrics.failed)));
            var b2 := if trip then b1.(state := Open, openedAt := Some(x.now)) else b1;
            var p2 := if trip then ErrTrip else Idle;
            var b3 := if trip then b2.(metrics := b2.metrics.(trips := Bump(b2.metrics.trips))) else b2;
            Three(c, b, ErrCount(trip), x) == (b2, p2) && Three(c, b2, p2, x) == (b3, Idle)
  {
  }

  lemma ProbeFailureAlone(c: Config, b: Breaker, x: Input, e: StellarError)
    requires b.state == HalfOpen && x.event == Nothing
    ensures var (b1, p1) := Three(c, b, ErrLoad(e), x);
            var (b2, p2) := Three(c, b1, p1, x);
            Three(c, b2, p2, x) == (FailedWith(c, b, e, x.now), Idle)
  {
    var b1 := b.(inFlight := WrapDec(b.inFlight), state := Open);
    assert Three(c, b, ErrLoad(e), x) == (b1, ProbeStamp);
    ReopenAlone(c, b1, x);
  }

  lemma ReopenAlone(c: Config, b: Breaker, x: Input)
    requires x.event == Nothing
    ensures var m := b.metrics;
            var b1 := b.(openedAt := Some(x.now), metrics := m.(trips := Bump(m.trips), failed := Bump(m.failed)));
            var b2 := b1.(metrics := b1.metrics.(halfOpenFailures := Bump(m.halfOpenFailures)));
            Three(c, b, ProbeStamp, x) == (b1, ProbeFail) && Three(c, b1, ProbeFail, x) == (b2, Idle)
  {
    var m := b.metrics;
    StampAlone(c, b, x);
    FailAlone(c, b.(openedAt := Some(x.now), metrics := m.(trips := Bump(m.trips), failed := Bump(m.failed))), x);
  }

  lemma StampAlone(c: Config, b: Breaker, x: Input)
    ensures var m := b.metrics;
            Three(c, b, ProbeStamp, x) ==
            (b.(openedAt := Some(x.now), metrics := m.(trips := Bump(m.trips), failed := Bump(m.failed))), ProbeFail)
  {
  }

  lemma FailAlone(c: Config, b: Breaker, x: Input)
    requires x.event == Nothing
    ensures var m := b.metrics;
            Three(c, b, ProbeFail, x) == (b.(metrics := m.(halfOpenFailures := Bump(m.halfOpenFailures))), Idle)
  {
  }
}
