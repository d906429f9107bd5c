/**
 The cool-down of the circuit breaker under concurrency: which gaps between two accesses of
 one call must not be interrupted for it to hold, and a schedule that breaks it for each.
 */
module BreakerWindows {
  import opened Common
  import opened Breaker
  import opened BreakerThreads

  /** The gaps between two accesses of one call that matter. */
  datatype Window =
    | TripGap    // after the swap from Closed to Open, before the stamp
    | ReopenGap  // after the swap from HalfOpen to Open, before the stamp
    | CloseGap   // after the swap to Closed, before the stamp is taken
    | ProbeGap   // after the stamp was read, before the swap to HalfOpen

  const ALL := {TripGap, ReopenGap, CloseGap, ProbeGap}

  predicate Inside(ws: set<Window>, p: Phase) {
    match p
    case ErrStamp => TripGap in ws
    case ProbeStamp => ReopenGap in ws
    case OkTakeStamp => CloseGap in ws
    case AllowSwap => ProbeGap in ws
    case _ => false
  }

  /** No task other than `tid` is inside one of the windows. */
  ghost predicate Held(ws: set<Window>, s: System, tid: nat) {
    forall i :: 0 <= i < |s.phases| && i != tid ==> !Inside(ws, s.phases[i])
  }

  /** No task moves while another is inside one of the windows. */
  ghost predicate Guarded(c: Config, s: System, moves: seq<Move>, ws: set<Window>) {
    moves != [] ==>
      var front := moves[..|moves| - 1];
      Guarded(c, s, front, ws) && Held(ws, Run(c, s, front), moves[|moves| - 1].tid)
  }

  function Clock(moves: seq<Move>): nat {
    if moves == [] then 0 else moves[|moves| - 1].input.now
  }

  ghost predicate Forward(moves: seq<Move>) {
    moves != [] ==>
      var front := moves[..|moves| - 1];
      Forward(front) && Clock(front) <= Clock(moves)
  }

  /** When the state last became Open. */
  function Tripped(c: Config, s: System, moves: seq<Move>): Option<nat> {
    if moves == [] then None
    else
      var front, mv := moves[..|moves| - 1], moves[|moves| - 1];
      var before := Run(c, s, front);
      if before.b.state != Open && Next(c, before, mv).b.state == Open then Some(mv.input.now)
      else Tripped(c, s, front)
  }

  /** When a task last wrote the stamp. */
  function Stamped(c: Config, s: System, moves: seq<Move>): Option<nat> {
    if moves == [] then None
    else
      var front, mv := moves[..|moves| - 1], moves[|moves| - 1];
      var before := Run(c, s, front);
      if mv.tid < |before.phases| && before.phases[mv.tid] in {ErrStamp, ProbeStamp} then Some(mv.input.now)
      else Stamped(c, s, front)
  }

  /** The move after `front` takes the breaker from Open to HalfOpen. */
  predicate Probes(c: Config, s: System, front: seq<Move>, mv: Move) {
    var before := Run(c, s, front);
    before.b.state == Open && Next(c, before, mv).b.state == HalfOpen
  }

  predicate LongAgo(c: Config, at: Option<nat>, now: nat) {
    at.Some? && at.value + c.openDuration <= now
  }

  /** Each time the breaker goes from Open to HalfOpen, the open duration has passed since it became Open. */
  ghost predicate Cooled(c: Config, s: System, moves: seq<Move>) {
    forall n :: 0 <= n < |moves| && Probes(c, s, moves[..n], moves[n]) ==>
      LongAgo(c, Tripped(c, s, moves[..n]), moves[n].input.now)
  }

  /** The cool-down, in an interleaving with a forward clock that keeps the windows uninterrupted. */
  ghost predicate CoolsDown(c: Config, ws: set<Window>, s: System, moves: seq<Move>) {
    Forward(moves) && Guarded(c, s, moves, ws) ==> Cooled(c, s, moves)
  }

  // ---------- With every window held, the cool-down holds ----------

  /** What the one task that may be inside a window sees. */
  predicate Sees(c: Config, b: Breaker, p: Phase, trip: Option<nat>, stamp: Option<nat>, clock: nat) {
    && (p in {ErrStamp, ProbeStamp} ==> b.state == Open)
    && (p == OkTakeStamp ==> b.state == Closed)
    && (b.state == Open ==> trip.Some? && trip.value <= clock)
    && (b.state == Open && p !in {ErrStamp, ProbeStamp} ==>
          b.openedAt == stamp && stamp.Some? && trip.value <= stamp.value <= clock)
    && (b.state == Open && p == AllowSwap ==> LongAgo(c, stamp, clock))
  }

  ghost predicate SeesAll(c: Config, s: System, trip: Option<nat>, stamp: Option<nat>, clock: nat) {
    forall i :: 0 <= i < |s.phases| && Held(ALL, s, i) ==> Sees(c, s.b, s.phases[i], trip, stamp, clock)
  }

  /** The accesses that bear on the state or the stamp. */
  predicate Turns(p: Phase) {
    p in {AllowClock, AllowSwap, OkSwap, OkTakeStamp, ErrSwap, ErrStamp, ProbeSwap, ProbeStamp}
  }

  lemma OthersKeep(c: Config, b: Breaker, p: Phase, x: Input)
    requires !Turns(p)
    ensures var (b', p') := Access(c, b, p, x);
            b'.state == b.state && b'.openedAt == b.openedAt && p' !in {ErrStamp, ProbeStamp, OkTakeStamp, AllowSwap}
  {
  }

  lemma SeesTurn(c: Config, b: Breaker, p: Phase, trip: Option<nat>, stamp: Option<nat>, clock: nat, x: Input)
    requires Turns(p) && Sees(c, b, p, trip, stamp, clock) && clock <= x.now
    ensures var (b', p') := Access(c, b, p, x);
            var trip' := if b.state != Open && b'.state == Open then Some(x.now) else trip;
            var stamp' := if p in {ErrStamp, ProbeStamp} then Some(x.now) else stamp;
            Sees(c, b', p', trip', stamp', x.now)
  {
  }

  lemma SeesStep(c: Config, b: Breaker, p: Phase, trip: Option<nat>, stamp: Option<nat>, clock: nat, x: Input)
    requires Sees(c, b, p, trip, stamp, clock) && clock <= x.now
    ensures var (b', p') := Access(c, b, p, x);
            var trip' := if b.state != Open && b'.state == Open then Some(x.now) else trip;
            var stamp' := if p in {ErrStamp, ProbeStamp} then Some(x.now) else stamp;
            Sees(c, b', p', trip', stamp', x.now)
  {
    if Turns(p) {
      SeesTurn(c, b, p, trip, stamp, clock, x);
    } else {
      OthersKeep(c, b, p, x);
    }
  }

  lemma {:induction false} SeesAlways(c: Config, tasks: nat, moves: seq<Move>)
    requires Forward(moves) && Guarded(c, Start(tasks), moves, ALL)
    ensures var s := Start(tasks);
            SeesAll(c, Run(c, s, moves), Tripped(c, s, moves), Stamped(c, s, moves), Clock(moves))
  {
    if moves != [] {
      var n := |moves| - 1;
      var front, mv := moves[..n], moves[n];
      SeesAlways(c, tasks, front);
      var trip, stamp := Tripped(c, Start(tasks), front), Stamped(c, Start(tasks), front);
      SeesNext(c, Run(c, Start(tasks), front), trip, stamp, Clock(front), mv);
    }
  }

  lemma SeesNext(c: Config, s: System, trip: Option<nat>, stamp: Option<nat>, clock: nat, mv: Move)
    requires SeesAll(c, s, trip, stamp, clock) && clock <= mv.input.now && Held(ALL, s, mv.tid)
    ensures var s' := Next(c, s, mv);
            var trip' := if s.b.state != Open && s'.b.state == Open then Some(mv.input.now) else trip;
            var stamp' := if mv.tid < |s.phases| && s.phases[mv.tid] in {ErrStamp, ProbeStamp}
                          then Some(mv.input.now) else stamp;
            SeesAll(c, s', trip', stamp', mv.input.now)
  {
    if mv.tid < |s.phases| {
      var b', p' := Access(c, s.b, s.phases[mv.tid], mv.input).0, Access(c, s.b, s.phases[mv.tid], mv.input).1;
      var trip' := if s.b.state != Open && b'.state == Open then Some(mv.input.now) else trip;
      var stamp' := if s.phases[mv.tid] in {ErrStamp, ProbeStamp} then Some(mv.input.now) else stamp;
      SeesStep(c, s.b, s.phases[mv.tid], trip, stamp, clock, mv.input);
      MoverSees(c, s, mv.tid, b', p', trip', stamp', mv.input.now);
    }
  }

  /** The others are outside every window, so what the mover sees goes for all. */
  lemma MoverSees(c: Config, s: System, tid: nat, b': Breaker, p': Phase, trip: Option<nat>, stamp: Option<nat>,
                  clock: nat)
    requires tid < |s.phases| && Held(ALL, s, tid) && Sees(c, b', p', trip, stamp, clock)
    ensures SeesAll(c, System(b', s.phases[tid := p']), trip, stamp, clock)
  {
    var s' := System(b', s.phases[tid := p']);
    forall i | 0 <= i < |s'.phases| && Held(ALL, s', i) && i != tid
      ensures !Inside(ALL, s'.phases[i]) && !Inside(ALL, s'.phases[tid])
    {
      assert s'.phases[i] == s.phases[i];
    }
  }

  lemma {:induction false} Prefixes(c: Config, s: System, moves: seq<Move>, n: nat, ws: set<Window>)
    requires n <= |moves| && Forward(moves) && Guarded(c, s, moves, ws)
    ensures Forward(moves[..n]) && Guarded(c, s, moves[..n], ws)
  {
    if n < |moves| {
      Prefixes(c, s, moves[..|moves| - 1], n, ws);
      assert moves[..|moves| - 1][..n] == moves[..n];
    } else {
      assert moves[..n] == moves;
    }
  }

  /**
   In every interleaving with a forward clock in which no task moves while another is inside
   a window, the breaker goes from Open to HalfOpen only when it was stamped after it last
   became Open and the open duration has passed since that stamp.
   */
  lemma {:induction false} GuardedCoolDown(c: Config, tasks: nat, moves: seq<Move>, mv: Move)
    requires Forward(moves + [mv]) && Guarded(c, Start(tasks), moves + [mv], ALL)
    requires Probes(c, Start(tasks), moves, mv)
    ensures var trip, stamp := Tripped(c, Start(tasks), moves), Stamped(c, Start(tasks), moves);
            && LongAgo(c, stamp, mv.input.now)
            && trip.Some? && trip.value <= stamp.value
  {
    var all, s := moves + [mv], Run(c, Start(tasks), moves);
    assert all[..|moves|] == moves;
    SeesAlways(c, tasks, moves);
    OnlySwapProbes(c, s.b, s.phases[mv.tid], mv.input);
  }

  lemma OnlySwapProbes(c: Config, b: Breaker, p: Phase, x: Input)
    requires b.state == Open && Access(c, b, p, x).0.state == HalfOpen
    ensures p == AllowSwap
  {
    if !Turns(p) {
      OthersKeep(c, b, p, x);
    }
  }

  /** While Open, the breaker did become Open, no later than now. */
  lemma {:induction false} OpenWasTripped(c: Config, tasks: nat, moves: seq<Move>)
    requires Forward(moves) && Run(c, Start(tasks), moves).b.state == Open
    ensures Tripped(c, Start(tasks), moves).Some? && Tripped(c, Start(tasks), moves).value <= Clock(moves)
  {
    if moves != [] {
      var front := moves[..|moves| - 1];
      if Run(c, Start(tasks), front).b.state == Open {
        OpenWasTripped(c, tasks, front);
      }
    }
  }

  lemma CooledWhen(c: Config, ws: set<Window>, tasks: nat, moves: seq<Move>)
    requires c.openDuration == 0 || ws == ALL
    ensures CoolsDown(c, ws, Start(tasks), moves)
  {
    forall n | Forward(moves) && Guarded(c, Start(tasks), moves, ws) &&
               0 <= n < |moves| && Probes(c, Start(tasks), moves[..n], moves[n])
      ensures LongAgo(c, Tripped(c, Start(tasks), moves[..n]), moves[n].input.now)
    {
      if ws == ALL {
        Prefixes(c, Start(tasks), moves, n + 1, ALL);
        assert moves[..n] + [moves[n]] == moves[..n + 1];
        GuardedCoolDown(c, tasks, moves[..n], moves[n]);
      } else {
        Prefixes(c, Start(tasks), moves, n + 1, ws);
        assert moves[..n + 1][..n] == moves[..n];
        OpenWasTripped(c, tasks, moves[..n]);
      }
    }
  }

  // ---------- Building schedules ----------

  /** Two tasks and a forward clock not beyond `t`, guarded, leading to `s`. */
  ghost predicate Leads(c: Config, ws: set<Window>, moves: seq<Move>, t: nat, s: System) {
    && Forward(moves) && Clock(moves) <= t && Guarded(c, Start(2), moves, ws)
    && s == Run(c, Start(2), moves) && |s.phases| == 2
  }

  const QUIET: seq<Phase> := [Idle, Idle]

  /** An event of a task and the `n` accesses after it. */
  function Do(tid: nat, event: Event, t: nat, n: nat): seq<Move> {
    [Move(tid, Input(event, t, true))] + Continue(tid, t, n)
  }

  function Continue(tid: nat, t: nat, n: nat): seq<Move> {
    seq(n, _ => Move(tid, Go(t)))
  }

  function Go(t: nat): Input { Input(Nothing, t, true) }

  lemma LeadsNothing(c: Config, ws: set<Window>)
    ensures Leads(c, ws, [], 0, System(NEW, QUIET))
  {
  }

  lemma LeadsMove(c: Config, ws: set<Window>, moves: seq<Move>, t: nat, s: System, mv: Move, s': System)
    requires Leads(c, ws, moves, t, s) && t <= mv.input.now && mv.tid < 2 && s' == Next(c, s, mv)
    requires !Inside(ws, s.phases[1 - mv.tid])
    ensures Leads(c, ws, moves + [mv], mv.input.now, s')
  {
    assert (moves + [mv])[..|moves|] == moves;
  }

  lemma {:induction false} AloneBack(c: Config, b: Breaker, p: Phase, x: Input, n: nat)
    ensures var (b', p') := Alone(c, b, p, x, n);
            Alone(c, b, p, x, n + 1) == Access(c, b', p', x)
    decreases n
  {
    if n > 0 {
      var (b', p') := Access(c, b, p, x);
      AloneBack(c, b', p', x, n - 1);
    }
  }

  function With(s: System, tid: nat, after: (Breaker, Phase)): System
    requires tid < |s.phases|
  {
    System(after.0, s.phases[tid := after.1])
  }

  /** A task goes on alone while the other is not inside a window. */
  lemma {:induction false} LeadsContinue(c: Config, ws: set<Window>, moves: seq<Move>, t: nat, s: System,
                                         tid: nat, u: nat, n: nat)
    requires Leads(c, ws, moves, t, s) && t <= u && tid < 2
    requires !Inside(ws, s.phases[1 - tid])
    ensures Leads(c, ws, moves + Continue(tid, u, n), u, With(s, tid, Alone(c, s.b, s.phases[tid], Go(u), n)))
  {
    if n == 0 {
      assert moves + Continue(tid, u, 0) == moves;
      assert s.phases[tid := s.phases[tid]] == s.phases;
    } else {
      LeadsContinue(c, ws, moves, t, s, tid, u, n - 1);
      AloneBack(c, s.b, s.phases[tid], Go(u), n - 1);
      ContinueOne(c, ws, moves, s, tid, u, n, Alone(c, s.b, s.phases[tid], Go(u), n - 1),
                  Alone(c, s.b, s.phases[tid], Go(u), n));
    }
  }

  lemma ContinueOne(c: Config, ws: set<Window>, moves: seq<Move>, s: System, tid: nat, u: nat, n: nat,
                    before: (Breaker, Phase), after: (Breaker, Phase))
    requires tid < 2 && n > 0 && |s.phases| == 2 && !Inside(ws, s.phases[1 - tid])
    requires Leads(c, ws, moves + Continue(tid, u, n - 1), u, With(s, tid, before))
    requires after == Access(c, before.0, before.1, Go(u))
    ensures Leads(c, ws, moves + Continue(tid, u, n), u, With(s, tid, after))
  {
    var mv := Move(tid, Go(u));
    NextWith(c, s, mv, before, after);
    LeadsMove(c, ws, moves + Continue(tid, u, n - 1), u, With(s, tid, before), mv, With(s, tid, after));
    assert moves + Continue(tid, u, n) == moves + Continue(tid, u, n - 1) + [mv];
  }

  lemma NextWith(c: Config, s: System, mv: Move, before: (Breaker, Phase), after: (Breaker, Phase))
    requires mv.tid < |s.phases| && after == Access(c, before.0, before.1, mv.input)
    ensures Next(c, With(s, mv.tid, before), mv) == With(s, mv.tid, after)
  {
    assert s.phases[mv.tid := before.1][mv.tid := after.1] == s.phases[mv.tid := after.1];
  }

  /** The event takes a task between methods into one. */
  predicate Enters(p: Phase, event: Event, start: Phase) {
    (p == Idle && event == Begin && start == AllowLoad) || (p == Called && start == Recording(event))
  }

  lemma LeadsDo(c: Config, ws: set<Window>, moves: seq<Move>, t: nat, s: System,
                tid: nat, event: Event, start: Phase, u: nat, n: nat)
    requires Leads(c, ws, moves, t, s) && t <= u && tid < 2 && !Inside(ws, s.phases[1 - tid])
    requires Enters(s.phases[tid], event, start)
    ensures Leads(c, ws, moves + Do(tid, event, u, n), u, With(s, tid, Alone(c, s.b, start, Go(u), n)))
  {
    var mv, s' := Move(tid, Input(event, u, true)), With(s, tid, (s.b, start));
    LeadsMove(c, ws, moves, t, s, mv, s');
    LeadsContinue(c, ws, moves + [mv], u, s', tid, u, n);
    WithTwice(s, tid, (s.b, start), Alone(c, s.b, start, Go(u), n));
    assert moves + Do(tid, event, u, n) == moves + [mv] + Continue(tid, u, n);
  }

  lemma WithTwice(s: System, tid: nat, a: (Breaker, Phase), b: (Breaker, Phase))
    requires tid < |s.phases|
    ensures With(With(s, tid, a), tid, b) == With(s, tid, b)
  {
    assert s.phases[tid := a.1][tid := b.1] == s.phases[tid := b.1];
  }

  // ---------- Whole methods and parts of methods ----------

  const FAIL: Event := Failure(Request)

  lemma Admits(c: Config, ws: set<Window>, moves: seq<Move>, t: nat, s: System, tid: nat, u: nat)
    requires Leads(c, ws, moves, t, s) && t <= u && tid < 2 && !Inside(ws, s.phases[1 - tid])
    requires s.phases[tid] == Idle && Allowed(c, s.b, u, true).1 == Admitted
    ensures Leads(c, ws, moves + Do(tid, Begin, u, 9), u, With(s, tid, (Allowed(c, s.b, u, true).0, Called)))
  {
    LeadsDo(c, ws, moves, t, s, tid, Begin, AllowLoad, u, 9);
    AllowAlone(c, s.b, Go(u));
  }

  lemma RecordsFailure(c: Config, ws: set<Window>, moves: seq<Move>, t: nat, s: System, tid: nat, u: nat)
    requires Leads(c, ws, moves, t, s) && t <= u && tid < 2 && !Inside(ws, s.phases[1 - tid])
    requires s.phases[tid] == Called
    ensures Leads(c, ws, moves + Do(tid, FAIL, u, 9), u, With(s, tid, (FailedWith(c, s.b, Request, u), Idle)))
  {
    LeadsDo(c, ws, moves, t, s, tid, FAIL, ErrLoad(Request), u, 9);
    RecordFailureAlone(c, s.b, Go(u), Request);
  }

  lemma RecordsSuccess(c: Config, ws: set<Window>, moves: seq<Move>, t: nat, s: System, tid: nat, u: nat)
    requires Leads(c, ws, moves, t, s) && t <= u && tid < 2 && !Inside(ws, s.phases[1 - tid])
    requires s.phases[tid] == Called
    ensures Leads(c, ws, moves + Do(tid, Success, u, 9), u, With(s, tid, (Succeeded(c, s.b), Idle)))
  {
    LeadsDo(c, ws, moves, t, s, tid, Success, OkLoad, u, 9);
    RecordSuccessAlone(c, s.b, Go(u));
  }

  /** The next access of `Alone`, with its result spelled out. */
  lemma AloneNext(c: Config, b: Breaker, p: Phase, x: Input, n: nat, b': Breaker, p': Phase)
    requires Access(c, b, p, x) == (b', p')
    ensures Alone(c, b, p, x, n + 1) == Alone(c, b', p', x, n)
  {
  }

  /** A failure that trips, up to and including the swap to Open. */
  lemma TripAlone(c: Config, b: Breaker, x: Input, n: nat)
    requires n == 5 && b.state == Closed && b.failures + 1 >= c.Threshold()
    ensures var (b', p') := Alone(c, b, ErrLoad(Request), x, n);
            p' == ErrStamp && b'.state == Open && b'.openedAt == b.openedAt
  {
    AloneNext(c, b, ErrLoad(Request), x, n - 1, b, ErrAdd(Request));
    FailureCounted(c, b, x, n - 3);
    TripSwapped(c, b.(failures := WrapInc(b.failures)), x, n - 3);
  }

  lemma FailureCounted(c: Config, b: Breaker, x: Input, n: nat)
    requires b.failures + 1 >= c.Threshold()
    ensures Alone(c, b, ErrAdd(Request), x, n + 2) ==
            Alone(c, b.(failures := WrapInc(b.failures)), ErrCount(true), x, n)
  {
    var b1 := b.(failures := WrapInc(b.failures));
    AloneNext(c, b, ErrAdd(Request), x, n + 1, b1, ErrClassify(Request, true));
    AloneNext(c, b1, ErrClassify(Request, true), x, n, b1, ErrCount(true));
  }

  lemma TripSwapped(c: Config, b: Breaker, x: Input, n: nat)
    requires n == 2 && b.state == Closed
    ensures var (b', p') := Alone(c, b, ErrCount(true), x, n);
            p' == ErrStamp && b'.state == Open && b'.openedAt == b.openedAt
  {
    var b1 := b.(metrics := b.metrics.(failed := Bump(b.metrics.failed)));
    AloneNext(c, b, ErrCount(true), x, n - 1, b1, ErrSwap);
    AloneNext(c, b1, ErrSwap, x, n - 2, b1.(state := Open), ErrStamp);
  }

  /** A failed probe, up to and including the swap to Open. */
  lemma ReopensAlone(c: Config, b: Breaker, x: Input, n: nat)
    requires n == 3 && b.state == HalfOpen
    ensures var (b', p') := Alone(c, b, ErrLoad(Request), x, n);
            p' == ProbeStamp && b'.state == Open && b'.openedAt == b.openedAt
  {
    AloneNext(c, b, ErrLoad(Request), x, n - 1, b, ProbeLeave);
    ReopenSwapped(c, b, x, n - 1);
  }

  lemma ReopenSwapped(c: Config, b: Breaker, x: Input, n: nat)
    requires n == 2 && b.state == HalfOpen
    ensures var (b', p') := Alone(c, b, ProbeLeave, x, n);
            p' == ProbeStamp && b'.state == Open && b'.openedAt == b.openedAt
  {
    var b1 := b.(inFlight := WrapDec(b.inFlight));
    AloneNext(c, b, ProbeLeave, x, n - 1, b1, ProbeSwap);
    AloneNext(c, b1, ProbeSwap, x, n - 2, b1.(state := Open), ProbeStamp);
  }

  /** The last successful probe, up to and including the swap to Closed. */
  lemma CloseAlone(c: Config, b: Breaker, x: Input, n: nat)
    requires n == 6 && b.state == HalfOpen && b.successes + 1 >= c.Probes()
    ensures var (b', p') := Alone(c, b, OkLoad, x, n);
            p' == OkTakeStamp && b'.state == Closed && b'.failures == b.failures
  {
    AloneNext(c, b, OkLoad, x, n - 1, b, OkLeave);
    ProbeCounted(c, b, x, n - 3);
    CloseSwapped(c, b.(inFlight := WrapDec(b.inFlight), successes := WrapInc(b.successes)), x, n - 3);
  }

  lemma ProbeCounted(c: Config, b: Breaker, x: Input, n: nat)
    requires b.successes + 1 >= c.Probes()
    ensures Alone(c, b, OkLeave, x, n + 2) ==
            Alone(c, b.(inFlight := WrapDec(b.inFlight), successes := WrapInc(b.successes)), OkCount(true), x, n)
  {
    var b1 := b.(inFlight := WrapDec(b.inFlight));
    AloneNext(c, b, OkLeave, x, n + 1, b1, OkAdd);
    AloneNext(c, b1, OkAdd, x, n, b1.(successes := WrapInc(b.successes)), OkCount(true));
  }

  lemma CloseSwapped(c: Config, b: Breaker, x: Input, n: nat)
    requires n == 3 && b.state == HalfOpen
    ensures var (b', p') := Alone(c, b, OkCount(true), x, n);
            p' == OkTakeStamp && b'.state == Closed && b'.failures == b.failures
  {
    var b1 := b.(metrics := b.metrics.(successful := Bump(b.metrics.successful)));
    AloneNext(c, b, OkCount(true), x, n - 1, b1, OkCountProbe(true));
    CloseSwappedLast(c, b1, x, n - 1);
  }

  lemma CloseSwappedLast(c: Config, b: Breaker, x: Input, n: nat)
    requires n == 2 && b.state == HalfOpen
    ensures var (b', p') := Alone(c, b, OkCountProbe(true), x, n);
            p' == OkTakeStamp && b'.state == Closed && b'.failures == b.failures
  {
    var b1 := b.(metrics := b.metrics.(halfOpenSuccesses := Bump(b.metrics.halfOpenSuccesses)));
    AloneNext(c, b, OkCountProbe(true), x, n - 1, b1, OkSwap);
    AloneNext(c, b1, OkSwap, x, n - 2, b1.(state := Closed), OkTakeStamp);
  }

  /** The rest of that success, whatever happened in between. */
  lemma TakeAlone(c: Config, b: Breaker, x: Input, n: nat)
    requires n == 3
    ensures var (b', p') := Alone(c, b, OkTakeStamp, x, n);
            p' == Idle && b'.state == b.state && b'.openedAt == None
  {
    var b1 := b.(openedAt := None);
    AloneNext(c, b, OkTakeStamp, x, n - 1, b1, OkResetFailures);
    RecoveryCounted(c, b1, x, n - 1);
  }

  lemma RecoveryCounted(c: Config, b: Breaker, x: Input, n: nat)
    requires n == 2
    ensures var (b', p') := Alone(c, b, OkResetFailures, x, n);
            p' == Idle && b'.state == b.state && b'.openedAt == b.openedAt
  {
    var b1 := b.(failures := 0);
    AloneNext(c, b, OkResetFailures, x, n - 1, b1, OkRecover);
    AloneNext(c, b1, OkRecover, x, n - 2, Access(c, b1, OkRecover, x).0, Idle);
  }

  /** A call that finds the stamp missing or old enough, just before its swap to HalfOpen. */
  lemma ReadAlone(c: Config, b: Breaker, x: Input, n: nat)
    requires n == 2 && b.state == Open && (b.openedAt.Some? ==> b.openedAt.value + c.openDuration <= x.now)
    ensures Alone(c, b, AllowLoad, x, n) == (b, AllowSwap)
  {
    AloneNext(c, b, AllowLoad, x, n - 1, b, AllowClock);
    AloneNext(c, b, AllowClock, x, n - 2, b, AllowSwap);
  }

  // ---------- Stages the schedules share ----------

  /** `n` calls that are admitted and fail. */
  function Failing(n: nat): seq<Move> {
    if n == 0 then [] else Failing(n - 1) + Do(0, Begin, 0, 9) + Do(0, FAIL, 0, 9)
  }

  ghost predicate Suffered(c: Config, s: System, n: nat) {
    && s.phases == QUIET && s.b.failures == n
    && if n < c.Threshold() then s.b.state == Closed && s.b.openedAt == None
       else s.b.state == Open && s.b.openedAt == Some(0)
  }

  lemma {:induction false} FailingLeads(c: Config, ws: set<Window>, n: nat) returns (s: System)
    requires n <= c.Threshold()
    ensures Leads(c, ws, Failing(n), 0, s) && Suffered(c, s, n)
  {
    if n == 0 {
      s := System(NEW, QUIET);
      LeadsNothing(c, ws);
    } else {
      var s0 := FailingLeads(c, ws, n - 1);
      s := FailOnce(c, ws, Failing(n - 1), s0, n - 1);
    }
  }

  lemma FailOnce(c: Config, ws: set<Window>, moves: seq<Move>, s0: System, n: nat) returns (s: System)
    requires Leads(c, ws, moves, 0, s0) && Suffered(c, s0, n) && n < c.Threshold()
    ensures Leads(c, ws, moves + Do(0, Begin, 0, 9) + Do(0, FAIL, 0, 9), 0, s) && Suffered(c, s, n + 1)
  {
    s := CallFails(c, ws, moves, 0, s0, 0);
  }

  /** A whole call that is admitted while Closed and fails. */
  lemma CallFails(c: Config, ws: set<Window>, moves: seq<Move>, t: nat, s0: System, tid: nat) returns (s: System)
    requires Leads(c, ws, moves, t, s0) && tid < 2 && !Inside(ws, s0.phases[1 - tid])
    requires s0.phases[tid] == Idle && s0.b.state == Closed
    ensures Leads(c, ws, moves + Do(tid, Begin, t, 9) + Do(tid, FAIL, t, 9), t, s)
    ensures s == System(FailedWith(c, s0.b, Request, t), s0.phases)
  {
    Admits(c, ws, moves, t, s0, tid, t);
    var s1 := With(s0, tid, (s0.b, Called));
    RecordsFailure(c, ws, moves + Do(tid, Begin, t, 9), t, s1, tid, t);
    s := With(s1, tid, (FailedWith(c, s1.b, Request, t), Idle));
    assert s.phases == s0.phases;
  }

  /** Tripped at time 0, then a call admitted the open duration later. */
  function Probing(c: Config): seq<Move> {
    Failing(c.Threshold()) + Do(0, Begin, c.openDuration, 9)
  }

  /** After that and `n` successes, the caller's next operation is under way. */
  ghost predicate OnProbation(c: Config, s: System, n: nat) {
    && s.phases == [Called, Idle] && s.b.state == HalfOpen && s.b.openedAt == Some(0)
    && s.b.failures == c.Threshold() && s.b.successes == n
  }

  lemma ProbingLeads(c: Config, ws: set<Window>) returns (s: System)
    ensures Leads(c, ws, Probing(c), c.openDuration, s) && OnProbation(c, s, 0)
  {
    var s0 := FailingLeads(c, ws, c.Threshold());
    Admits(c, ws, Failing(c.Threshold()), 0, s0, 0, c.openDuration);
    s := With(s0, 0, (Allowed(c, s0.b, c.openDuration, true).0, Called));
  }

  function Recovering(c: Config, n: nat): seq<Move> {
    if n == 0 then Probing(c)
    else Recovering(c, n - 1) + Do(0, Success, c.openDuration, 9) + Do(0, Begin, c.openDuration, 9)
  }

  lemma {:induction false} RecoveringLeads(c: Config, ws: set<Window>, n: nat) returns (s: System)
    requires n < c.Probes()
    ensures Leads(c, ws, Recovering(c, n), c.openDuration, s) && OnProbation(c, s, n)
  {
    if n == 0 {
      s := ProbingLeads(c, ws);
    } else {
      var s0 := RecoveringLeads(c, ws, n - 1);
      s := SucceedOnce(c, ws, Recovering(c, n - 1), s0, n - 1, c.openDuration);
    }
  }

  lemma SucceedOnce(c: Config, ws: set<Window>, moves: seq<Move>, s0: System, n: nat, t: nat) returns (s: System)
    requires Leads(c, ws, moves, t, s0) && OnProbation(c, s0, n) && n + 1 < c.Probes()
    ensures Leads(c, ws, moves + Do(0, Success, t, 9) + Do(0, Begin, t, 9), t, s) && OnProbation(c, s, n + 1)
  {
    RecordsSuccess(c, ws, moves, t, s0, 0, t);
    var s1 := With(s0, 0, (Succeeded(c, s0.b), Idle));
    Admits(c, ws, moves + Do(0, Success, t, 9), t, s1, 0, t);
    s := With(s1, 0, (Allowed(c, s1.b, t, true).0, Called));
  }

  // ---------- A schedule that breaks the cool-down, for each window ----------

  lemma {:induction false} TrippedSince(c: Config, a: seq<Move>, b: seq<Move>)
    requires Forward(a + b)
    requires Run(c, Start(2), a).b.state != Open && Run(c, Start(2), a + b).b.state == Open
    ensures Tripped(c, Start(2), a + b).Some? && Tripped(c, Start(2), a + b).value >= Clock(a)
    ensures Clock(a) <= Clock(a + b)
  {
    assert b == [] ==> a + b == a;
    if b != [] {
      var front := b[..|b| - 1];
      assert (a + b)[..|a + b| - 1] == a + front;
      if Run(c, Start(2), a + front).b.state == Open {
        TrippedSince(c, a, front);
      } else {
        ClockSince(a, front);
      }
    }
  }

  lemma {:induction false} ClockSince(a: seq<Move>, b: seq<Move>)
    requires Forward(a + b)
    ensures Clock(a) <= Clock(a + b)
  {
    if b == [] {
      assert a + b == a;
    } else {
      var front := b[..|b| - 1];
      assert (a + b)[..|a + b| - 1] == a + front;
      ClockSince(a, front);
    }
  }

  /** Not open, then tripped and probed at one time. */
  lemma BreaksWhen(c: Config, ws: set<Window>, a: seq<Move>, b: seq<Move>, t: nat, s: System, tid: nat)
    requires c.openDuration > 0 && tid < 2 && t <= Clock(a)
    requires Run(c, Start(2), a).b.state != Open
    requires Leads(c, ws, a + b, t, s) && s.b.state == Open
    requires s.phases[tid] == AllowSwap && !Inside(ws, s.phases[1 - tid])
    ensures !CoolsDown(c, ws, Start(2), a + b + [Move(tid, Go(t))])
  {
    var mv := Move(tid, Go(t));
    var moves := a + b + [mv];
    LeadsMove(c, ws, a + b, t, s, mv, Next(c, s, mv));
    TrippedSince(c, a, b);
    assert moves[..|a + b|] == a + b && moves[|a + b|] == mv;
    assert Probes(c, Start(2), a + b, mv);
  }

  /** The other task begins a call and gets as far as its swap to HalfOpen. */
  lemma Interrupted(c: Config, ws: set<Window>, a: seq<Move>, b: seq<Move>, t: nat, s: System)
    returns (moves: seq<Move>)
    requires c.openDuration > 0 && t <= Clock(a) && Run(c, Start(2), a).b.state != Open
    requires Leads(c, ws, a + b, t, s) && s.b.state == Open && s.phases[1] == Idle && !Inside(ws, s.phases[0])
    requires s.b.openedAt.Some? ==> s.b.openedAt.value + c.openDuration <= t
    ensures !CoolsDown(c, ws, Start(2), moves)
  {
    var n := 2;
    LeadsDo(c, ws, a + b, t, s, 1, Begin, AllowLoad, t, n);
    ReadAlone(c, s.b, Go(t), n);
    var d := Do(1, Begin, t, n);
    assert a + b + d == a + (b + d);
    BreaksWhen(c, ws, a, b + d, t, With(s, 1, (s.b, AllowSwap)), 1);
    moves := a + (b + d) + [Move(1, Go(t))];
  }

  /** A call between the swap from Closed to Open and the stamp. */
  lemma TripGapBreaks(c: Config, ws: set<Window>) returns (moves: seq<Move>)
    requires c.openDuration > 0 && TripGap !in ws
    ensures !CoolsDown(c, ws, Start(2), moves)
  {
    var a := Failing(c.Threshold() - 1);
    var s := FailingLeads(c, ws, c.Threshold() - 1);
    Admits(c, ws, a, 0, s, 0, 0);
    moves := TripGapAfter(c, ws, a + Do(0, Begin, 0, 9), With(s, 0, (s.b, Called)), 5);
  }

  lemma TripGapAfter(c: Config, ws: set<Window>, a: seq<Move>, s: System, n: nat) returns (moves: seq<Move>)
    requires n == 5 && c.openDuration > 0 && TripGap !in ws && Leads(c, ws, a, 0, s) && s.phases == [Called, Idle]
    requires s.b.state == Closed && s.b.openedAt == None && s.b.failures + 1 >= c.Threshold()
    ensures !CoolsDown(c, ws, Start(2), moves)
  {
    var s' := TripsShort(c, ws, a, s, n);
    moves := Interrupted(c, ws, a, Do(0, FAIL, 0, n), 0, s');
  }

  lemma TripsShort(c: Config, ws: set<Window>, a: seq<Move>, s: System, n: nat) returns (s': System)
    requires n == 5 && Leads(c, ws, a, 0, s) && s.phases == [Called, Idle]
    requires s.b.state == Closed && s.b.openedAt == None && s.b.failures + 1 >= c.Threshold()
    ensures Leads(c, ws, a + Do(0, FAIL, 0, n), 0, s') && s'.phases == [ErrStamp, Idle]
    ensures s'.b.state == Open && s'.b.openedAt == None
  {
    TripAlone(c, s.b, Go(0), n);
    s' := StopsShort(c, ws, a, s, 0, FAIL, ErrLoad(Request), n, Alone(c, s.b, ErrLoad(Request), Go(0), n));
  }

  /** A task makes `n` accesses of its recording and stops there. */
  lemma StopsShort(c: Config, ws: set<Window>, a: seq<Move>, s: System, t: nat, event: Event, start: Phase, n: nat,
                   after: (Breaker, Phase))
    returns (s': System)
    requires Leads(c, ws, a, t, s) && s.phases == [Called, Idle]
    requires start == Recording(event) && after == Alone(c, s.b, start, Go(t), n)
    ensures Leads(c, ws, a + Do(0, event, t, n), t, s') && s' == System(after.0, [after.1, Idle])
  {
    LeadsDo(c, ws, a, t, s, 0, event, start, t, n);
    s' := With(s, 0, after);
    assert s'.phases == [after.1, Idle];
  }

  /** A call between the swap from HalfOpen to Open and the stamp finds the stamp of the trip before. */
  lemma ReopenGapBreaks(c: Config, ws: set<Window>) returns (moves: seq<Move>)
    requires c.openDuration > 0 && ReopenGap !in ws
    ensures !CoolsDown(c, ws, Start(2), moves)
  {
    var s := ProbingLeads(c, ws);
    DoClock(Failing(c.Threshold()), 0, Begin, c.openDuration, 9);
    moves := ReopenGapAfter(c, ws, Probing(c), s, c.openDuration, 3);
  }

  lemma ReopenGapAfter(c: Config, ws: set<Window>, a: seq<Move>, s: System, t: nat, n: nat)
    returns (moves: seq<Move>)
    requires n == 3 && c.openDuration > 0 && ReopenGap !in ws && Leads(c, ws, a, t, s) && OnProbation(c, s, 0)
    requires t == c.openDuration == Clock(a)
    ensures !CoolsDown(c, ws, Start(2), moves)
  {
    var s' := ReopensShort(c, ws, a, s, t, n);
    moves := Interrupted(c, ws, a, Do(0, FAIL, t, n), t, s');
  }

  lemma ReopensShort(c: Config, ws: set<Window>, a: seq<Move>, s: System, t: nat, n: nat) returns (s': System)
    requires n == 3 && Leads(c, ws, a, t, s) && OnProbation(c, s, 0)
    ensures Leads(c, ws, a + Do(0, FAIL, t, n), t, s') && s'.phases == [ProbeStamp, Idle]
    ensures s'.b.state == Open && s'.b.openedAt == Some(0)
  {
    ReopensAlone(c, s.b, Go(t), n);
    s' := StopsShort(c, ws, a, s, t, FAIL, ErrLoad(Request), n, Alone(c, s.b, ErrLoad(Request), Go(t), n));
  }

  lemma DoClock(moves: seq<Move>, tid: nat, event: Event, t: nat, n: nat)
    ensures Clock(moves + Do(tid, event, t, n)) == t
  {
  }

  /** A call that read an old stamp and swaps after a probe was let through and failed. */
  lemma ProbeGapBreaks(c: Config, ws: set<Window>) returns (moves: seq<Move>)
    requires c.openDuration > 0 && ProbeGap !in ws
    ensures !CoolsDown(c, ws, Start(2), moves)
  {
    var t, a := c.openDuration, Failing(c.Threshold());
    var s := FailingLeads(c, ws, c.Threshold());
    var n := 2;
    LeadsDo(c, ws, a, 0, s, 1, Begin, AllowLoad, t, n);
    ReadAlone(c, s.b, Go(t), n);
    moves := ProbeGapAfter(c, ws, a + Do(1, Begin, t, n), With(s, 1, (s.b, AllowSwap)), t);
  }

  lemma ProbeGapAfter(c: Config, ws: set<Window>, a: seq<Move>, s: System, t: nat) returns (moves: seq<Move>)
    requires c.openDuration > 0 && ProbeGap !in ws && Leads(c, ws, a, t, s) && s.phases == [Idle, AllowSwap]
    requires s.b.state == Open && s.b.openedAt == Some(0) && t == c.openDuration
    ensures !CoolsDown(c, ws, Start(2), moves)
  {
    Admits(c, ws, a, t, s, 0, t);
    DoClock(a, 0, Begin, t, 9);
    moves := FailsMeanwhile(c, ws, a + Do(0, Begin, t, 9), With(s, 0, (Allowed(c, s.b, t, true).0, Called)), t);
  }

  lemma FailsMeanwhile(c: Config, ws: set<Window>, a: seq<Move>, s: System, t: nat) returns (moves: seq<Move>)
    requires c.openDuration > 0 && ProbeGap !in ws && Leads(c, ws, a, t, s) && s.phases == [Called, AllowSwap]
    requires s.b.state == HalfOpen && t == Clock(a)
    ensures !CoolsDown(c, ws, Start(2), moves)
  {
    var d := Do(0, FAIL, t, 9);
    RecordsFailure(c, ws, a, t, s, 0, t);
    BreaksWhen(c, ws, a, d, t, With(s, 0, (FailedWith(c, s.b, Request, t), Idle)), 1);
    moves := a + d + [Move(1, Go(t))];
  }

  // ---------- The lost stamp ----------

  /** The last probe succeeds up to the swap to Closed. */
  function Closing(c: Config): seq<Move> {
    Recovering(c, c.Probes() - 1) + Do(0, Success, c.openDuration, 6)
  }

  /** Before the closing task takes the old stamp, a call fails, trips and stamps; the new stamp is taken. */
  function Losing(t: nat): seq<Move> {
    Do(1, Begin, t, 9) + Do(1, FAIL, t, 9) + Continue(0, t, 3)
  }

  ghost predicate Closes(c: Config, s: System) {
    s.phases == [OkTakeStamp, Idle] && s.b.state == Closed && s.b.failures == c.Threshold()
  }

  /** Open without a stamp, and nobody is about to write one: no task is inside a method. */
  ghost predicate Forgot(s: System) {
    s.b.state == Open && s.b.openedAt == None && Quiet(s.phases)
  }

  ghost predicate Remembers(c: Config, ws: set<Window>, s: System, moves: seq<Move>) {
    Guarded(c, s, moves, ws) ==> !Forgot(Run(c, s, moves))
  }

  lemma ClosingLeads(c: Config, ws: set<Window>) returns (s: System)
    ensures Leads(c, ws, Closing(c), c.openDuration, s) && Closes(c, s)
  {
    var n := c.Probes() - 1;
    var s0 := RecoveringLeads(c, ws, n);
    s := CloseAfter(c, ws, Recovering(c, n), s0, n, c.openDuration);
  }

  lemma ClosingClock(c: Config)
    ensures Clock(Closing(c)) == c.openDuration
  {
    DoClock(Recovering(c, c.Probes() - 1), 0, Success, c.openDuration, 6);
  }

  lemma CloseAfter(c: Config, ws: set<Window>, moves: seq<Move>, s0: System, k: nat, t: nat) returns (s: System)
    requires Leads(c, ws, moves, t, s0) && OnProbation(c, s0, k) && k + 1 == c.Probes()
    ensures Leads(c, ws, moves + Do(0, Success, t, 6), t, s) && Closes(c, s)
  {
    var n := 6;
    CloseAlone(c, s0.b, Go(t), n);
    s := StopsShort(c, ws, moves, s0, t, Success, OkLoad, n, Alone(c, s0.b, OkLoad, Go(t), n));
  }

  lemma LosingLeads(c: Config, ws: set<Window>, moves: seq<Move>, s0: System, t: nat) returns (s: System)
    requires CloseGap !in ws && Leads(c, ws, moves, t, s0) && Closes(c, s0)
    ensures Leads(c, ws, moves + Losing(t), t, s) && Forgot(s) && s.phases == QUIET
  {
    var b, d, e := Do(1, Begin, t, 9), Do(1, FAIL, t, 9), Continue(0, t, 3);
    var s1 := TripsMeanwhile(c, ws, moves, s0, t);
    s := StampTaken(c, ws, moves + b + d, s1, t);
    assert moves + b + d + e == moves + (b + d + e);
  }

  lemma TripsMeanwhile(c: Config, ws: set<Window>, moves: seq<Move>, s0: System, t: nat) returns (s: System)
    requires CloseGap !in ws && Leads(c, ws, moves, t, s0) && Closes(c, s0)
    ensures Leads(c, ws, moves + Do(1, Begin, t, 9) + Do(1, FAIL, t, 9), t, s)
    ensures s.phases == [OkTakeStamp, Idle] && s.b.state == Open
  {
    s := CallFails(c, ws, moves, t, s0, 1);
  }

  lemma StampTaken(c: Config, ws: set<Window>, moves: seq<Move>, s0: System, t: nat) returns (s: System)
    requires Leads(c, ws, moves, t, s0) && s0.phases == [OkTakeStamp, Idle] && s0.b.state == Open
    ensures Leads(c, ws, moves + Continue(0, t, 3), t, s) && Forgot(s) && s.phases == QUIET
  {
    var n := 3;
    LeadsContinue(c, ws, moves, t, s0, 0, t, n);
    TakeAlone(c, s0.b, Go(t), n);
    s := With(s0, 0, Alone(c, s0.b, OkTakeStamp, Go(t), n));
  }

  /** Nobody is inside a window, and still the next call is let through at once. */
  lemma CloseGapBreaks(c: Config, ws: set<Window>) returns (moves: seq<Move>)
    requires c.openDuration > 0 && CloseGap !in ws
    ensures !CoolsDown(c, ws, Start(2), moves)
  {
    var s0 := ClosingLeads(c, ws);
    var s := LosingLeads(c, ws, Closing(c), s0, c.openDuration);
    ClosingClock(c);
    moves := Interrupted(c, ws, Closing(c), Losing(c.openDuration), c.openDuration, s);
  }

  /**
   The cool-down holds in every interleaving with a forward clock that keeps the windows `ws`
   uninterrupted exactly when `ws` is all four, or there is no open duration to wait for.
   */
  lemma {:induction false} CoolDownIff(c: Config, ws: set<Window>)
    ensures (forall tasks: nat, moves :: CoolsDown(c, ws, Start(tasks), moves)) <==>
              c.openDuration == 0 || ws == ALL
  {
    if c.openDuration == 0 || ws == ALL {
      forall tasks: nat, moves
        ensures CoolsDown(c, ws, Start(tasks), moves)
      {
        CooledWhen(c, ws, tasks, moves);
      }
    } else {
      var moves: seq<Move>;
      if TripGap !in ws {
        moves := TripGapBreaks(c, ws);
      } else if ReopenGap !in ws {
        moves := ReopenGapBreaks(c, ws);
      } else if CloseGap !in ws {
        moves := CloseGapBreaks(c, ws);
      } else {
        NoFifthWindow(ws);
        moves := ProbeGapBreaks(c, ws);
      }
      assert !CoolsDown(c, ws, Start(2), moves);
    }
  }

  lemma NoFifthWindow(ws: set<Window>)
    requires ws != ALL && TripGap in ws && ReopenGap in ws && CloseGap in ws
    ensures ProbeGap !in ws
  {
    forall w: Window
      ensures w in ALL
    {
      match w case TripGap => case ReopenGap => case CloseGap => case ProbeGap =>
    }
    assert ProbeGap in ws ==> ws == ALL;
  }

  predicate Stamping(p: Phase) { p in {ErrStamp, ProbeStamp} }

  /** An open breaker has a stamp or a task is about to write one, and stamps are taken only when Closed. */
  ghost predicate StampKept(s: System) {
    && (s.b.state == Open && s.b.openedAt == None ==> exists i :: 0 <= i < |s.phases| && Stamping(s.phases[i]))
    && (forall i :: 0 <= i < |s.phases| && s.phases[i] == OkTakeStamp ==> s.b.state == Closed)
  }

  lemma StampTurn(c: Config, b: Breaker, p: Phase, x: Input)
    requires Turns(p)
    ensures var (b', p') := Access(c, b, p, x);
            && (b'.state == Open && b'.openedAt == None && !Stamping(p') ==>
                  b.state == Open && !Stamping(p) && (b.openedAt == None || p == OkTakeStamp))
            && (p' == OkTakeStamp ==> b'.state == Closed)
  {
  }

  lemma StampAccess(c: Config, b: Breaker, p: Phase, x: Input)
    ensures var (b', p') := Access(c, b, p, x);
            && (b'.state == Open && b'.openedAt == None && !Stamping(p') ==>
                  b.state == Open && !Stamping(p) && (b.openedAt == None || p == OkTakeStamp))
            && (p' == OkTakeStamp ==> b'.state == Closed)
  {
    if Turns(p) {
      StampTurn(c, b, p, x);
    } else {
      OthersKeep(c, b, p, x);
    }
  }

  lemma StampNext(c: Config, ws: set<Window>, s: System, mv: Move)
    requires CloseGap in ws && Held(ws, s, mv.tid) && StampKept(s)
    ensures StampKept(Next(c, s, mv))
  {
    if mv.tid < |s.phases| {
      StampAccess(c, s.b, s.phases[mv.tid], mv.input);
      var s' := Next(c, s, mv);
      if s'.b.state == Open && s'.b.openedAt == None && !Stamping(s'.phases[mv.tid]) {
        var i :| 0 <= i < |s.phases| && Stamping(s.phases[i]);
        assert s'.phases[i] == s.phases[i];
      } else {
        assert s'.b.state == Open && s'.b.openedAt == None ==> Stamping(s'.phases[mv.tid]);
      }
    }
  }

  lemma {:induction false} StampAlwaysKept(c: Config, ws: set<Window>, tasks: nat, moves: seq<Move>)
    requires CloseGap in ws && Guarded(c, Start(tasks), moves, ws)
    ensures StampKept(Run(c, Start(tasks), moves))
  {
    if moves != [] {
      var n := |moves| - 1;
      StampAlwaysKept(c, ws, tasks, moves[..n]);
      StampNext(c, ws, Run(c, Start(tasks), moves[..n]), moves[n]);
    }
  }

  /**
   A breaker that is open with no task inside a method has its stamp in every interleaving,
   exactly when nobody moves between the swap to Closed and the taking of the stamp.
   */
  lemma {:induction false} QuietStampIff(c: Config, ws: set<Window>)
    ensures (forall tasks: nat, moves :: Remembers(c, ws, Start(tasks), moves)) <==> CloseGap in ws
  {
    if CloseGap in ws {
      forall tasks: nat, moves
        ensures Remembers(c, ws, Start(tasks), moves)
      {
        if Guarded(c, Start(tasks), moves, ws) {
          StampAlwaysKept(c, ws, tasks, moves);
        }
      }
    } else {
      var s0 := ClosingLeads(c, ws);
      var s := LosingLeads(c, ws, Closing(c), s0, c.openDuration);
      assert !Remembers(c, ws, Start(2), Closing(c) + Losing(c.openDuration));
    }
  }
}
