/**
 Concurrent callers of `AtomicTokenBucket::try_consume`: every load and every
 compare-and-swap is a separate step, any number of threads interleave them in any order,
 and a weak compare-and-swap may fail although the word is unchanged.
 */
module BucketThreads {
  import opened Ints
  import opened TokenBucket

  datatype Phase =
    | Idle
    | Loading(now: u32)                 // about to load the word
    | Swapping(now: u32, cur: u64)      // loaded `cur`, about to compare-and-swap
    | Returning(now: u32, outcome: Outcome)

  datatype System = System(word: u64, phases: seq<Phase>)

  datatype Step =
    | Invoke(tid: nat, now: u32)
    | Load(tid: nat)
    | SwapOk(tid: nat)
    | SwapFail(tid: nat)                // lost race or spurious failure: retry
    | Return(tid: nat)

  predicate Enabled(s: System, step: Step) {
    step.tid < |s.phases| &&
    var p := s.phases[step.tid];
    match step
    case Invoke(_, _) => p.Idle?
    case Load(_) => p.Loading?
    case SwapOk(_) => p.Swapping? && s.word == p.cur
    case SwapFail(_) => p.Swapping?
    case Return(_) => p.Returning?
  }

  function Apply(l: Limits, s: System, step: Step): System
    requires l.Valid() && Enabled(s, step)
  {
    var p := s.phases[step.tid];
    match step
    case Invoke(_, now) => s.(phases := s.phases[step.tid := Loading(now)])
    case Load(_) =>
      (match Iterate(l, s.word, p.now)
       case Publish(_, _) => s.(phases := s.phases[step.tid := Swapping(p.now, s.word)])
       case Settled(o) => s.(phases := s.phases[step.tid := Returning(p.now, o)]))
    case SwapOk(_) =>
      var attempt := Iterate(l, p.cur, p.now);
      if attempt.Publish? then
        System(attempt.next, s.phases[step.tid := Returning(p.now, attempt.outcome)])
      else s
    case SwapFail(_) => s.(phases := s.phases[step.tid := Loading(p.now)])
    case Return(_) => s.(phases := s.phases[step.tid := Idle])
  }

  /** The state after a schedule; a step that is not enabled does nothing. */
  function After(l: Limits, s: System, steps: seq<Step>): System
    requires l.Valid()
  {
    if steps == [] then s
    else
      var prev := After(l, s, steps[..|steps| - 1]);
      var step := steps[|steps| - 1];
      if Enabled(prev, step) then Apply(l, prev, step) else prev
  }

  /** A completed (or decided) call, in the order the calls take effect. */
  datatype Call = Call(tid: nat, now: u32, outcome: Outcome)

  /** A call takes effect at its successful swap, or at the load that settles a rejection. */
  function Effect(l: Limits, s: System, step: Step): seq<Call>
    requires l.Valid()
  {
    if !Enabled(s, step) then []
    else
      var p := s.phases[step.tid];
      match step
      case SwapOk(tid) => [Call(tid, p.now, Iterate(l, p.cur, p.now).outcome)]
      case Load(tid) =>
        (match Iterate(l, s.word, p.now)
         case Settled(o) => [Call(tid, p.now, o)]
         case Publish(_, _) => [])
      case _ => []
  }

  function Linearization(l: Limits, s: System, steps: seq<Step>): seq<Call>
    requires l.Valid()
  {
    if steps == [] then []
    else Linearization(l, s, steps[..|steps| - 1]) +
         Effect(l, After(l, s, steps[..|steps| - 1]), steps[|steps| - 1])
  }

  function Nows(calls: seq<Call>): seq<nat> {
    seq(|calls|, i requires 0 <= i < |calls| => calls[i].now)
  }

  function Outcomes(calls: seq<Call>): seq<Outcome> {
    seq(|calls|, i requires 0 <= i < |calls| => calls[i].outcome)
  }

  ghost predicate Fresh(l: Limits, s: System) {
    InRange(l, LevelOf(s.word)) && forall i :: 0 <= i < |s.phases| ==> s.phases[i] == Idle
  }

  /** What every reachable state keeps: a swapping thread always has something to publish. */
  ghost predicate Inv(l: Limits, s: System)
    requires l.Valid()
  {
    && InRange(l, LevelOf(s.word))
    && forall i :: 0 <= i < |s.phases| && s.phases[i].Swapping? ==>
         Iterate(l, s.phases[i].cur, s.phases[i].now).Publish?
  }

  /** One step either has no effect on the word, or is one atomic consume by its thread. */
  lemma StepEffect(l: Limits, s: System, step: Step)
    requires l.Valid() && Inv(l, s) && Enabled(s, step)
    ensures Inv(l, Apply(l, s, step))
    ensures Effect(l, s, step) == [] ==> Apply(l, s, step).word == s.word
    ensures Effect(l, s, step) != [] ==>
              var c := Effect(l, s, step)[0];
              && Effect(l, s, step) == [c]
              && LevelOf(Apply(l, s, step).word) == Consumed(l, LevelOf(s.word), c.now)
              && c.outcome == Verdict(l, LevelOf(s.word), c.now)
  {
    var p := s.phases[step.tid];
    if step.Load? || step.SwapOk? {
      IterateRefines(l, s.word, p.now);
      var b := Consumed(l, LevelOf(s.word), p.now);
      PackUnpack(b.last, b.tokens);
    }
  }

  /**
   Linearizability: whatever the interleaving, the packed word and every outcome are those
   of one atomic refill-then-consume per call, run in the order the calls take effect.
   */
  lemma {:induction false} Linearizable(l: Limits, s: System, steps: seq<Step>)
    requires l.Valid() && Fresh(l, s)
    ensures Inv(l, After(l, s, steps))
    ensures var calls := Linearization(l, s, steps);
            && LevelOf(After(l, s, steps).word) == Final(l, LevelOf(s.word), Nows(calls))
            && Outcomes(calls) == Verdicts(l, LevelOf(s.word), Nows(calls))
  {
    if steps != [] {
      var front, step := steps[..|steps| - 1], steps[|steps| - 1];
      Linearizable(l, s, front);
      LinearizeStep(l, After(l, s, front), step, LevelOf(s.word), Linearization(l, s, front));
    }
  }

  /** A run that is linearized so far stays so after one more step. */
  lemma LinearizeStep(l: Limits, prev: System, step: Step, b: Level, calls: seq<Call>)
    requires l.Valid() && Inv(l, prev)
    requires LevelOf(prev.word) == Final(l, b, Nows(calls)) && Outcomes(calls) == Verdicts(l, b, Nows(calls))
    ensures var next := if Enabled(prev, step) then Apply(l, prev, step) else prev;
            var all := calls + Effect(l, prev, step);
            && Inv(l, next)
            && LevelOf(next.word) == Final(l, b, Nows(all)) && Outcomes(all) == Verdicts(l, b, Nows(all))
  {
    var e := Effect(l, prev, step);
    if Enabled(prev, step) {
      StepEffect(l, prev, step);
    }
    if e == [] {
      assert calls + e == calls;
    } else {
      assert Nows(calls + e) == Nows(calls) + [e[0].now];
      assert Outcomes(calls + e) == Outcomes(calls) + [e[0].outcome];
      AppendCall(l, b, Nows(calls), e[0].now);
    }
  }

  // ---------- Each thread sees its own calls, once each, in order ----------

  datatype Reply = Reply(now: u32, outcome: Outcome)

  /** What thread `tid` was told, in order. */
  function Replies(l: Limits, s: System, steps: seq<Step>, tid: nat): seq<Reply>
    requires l.Valid()
  {
    if steps == [] then []
    else
      var prev, step := After(l, s, steps[..|steps| - 1]), steps[|steps| - 1];
      Replies(l, s, steps[..|steps| - 1], tid) + TidReturn(prev, step, tid)
  }

  /** The clock readings thread `tid` called with, in order. */
  function Invocations(l: Limits, s: System, steps: seq<Step>, tid: nat): seq<u32>
    requires l.Valid()
  {
    if steps == [] then []
    else
      var prev, step := After(l, s, steps[..|steps| - 1]), steps[|steps| - 1];
      Invocations(l, s, steps[..|steps| - 1], tid) +
      if Enabled(prev, step) then TidInvoke(step, tid) else []
  }

  function CallsOf(calls: seq<Call>, tid: nat): seq<Reply> {
    if calls == [] then []
    else
      var c := calls[|calls| - 1];
      CallsOf(calls[..|calls| - 1], tid) + if c.tid == tid then [Reply(c.now, c.outcome)] else []
  }

  function ReplyNows(rs: seq<Reply>): seq<u32> {
    seq(|rs|, i requires 0 <= i < |rs| => rs[i].now)
  }

  function Decided(p: Phase): seq<Reply> {
    if p.Returning? then [Reply(p.now, p.outcome)] else []
  }

  function Undecided(p: Phase): seq<u32> {
    if p.Loading? || p.Swapping? then [p.now] else []
  }

  lemma CallsOfAppend(calls: seq<Call>, e: seq<Call>, tid: nat)
    requires |e| <= 1
    ensures CallsOf(calls + e, tid) == CallsOf(calls, tid) +
            Own(e, tid)
  {
    if e == [] {
      assert calls + e == calls;
    } else {
      assert (calls + e)[..|calls|] == calls;
    }
  }

  /**
   Seen from one thread: the replies it got (plus the one it is about to get) are exactly
   its calls in effect order, and every invocation has taken effect at most once, with none
   left over except the one in flight. This holds after every prefix of a schedule.
   */
  lemma {:induction false} EachCallTakesEffectOnce(l: Limits, s: System, steps: seq<Step>, tid: nat)
    requires l.Valid() && Fresh(l, s) && tid < |s.phases|
    ensures |After(l, s, steps).phases| == |s.phases|
    ensures var mine := CallsOf(Linearization(l, s, steps), tid);
            var p := After(l, s, steps).phases[tid];
            && mine == Replies(l, s, steps, tid) + Decided(p)
            && Invocations(l, s, steps, tid) == ReplyNows(mine) + Undecided(p)
  {
    if steps != [] {
      var front, step := steps[..|steps| - 1], steps[|steps| - 1];
      EachCallTakesEffectOnce(l, s, front, tid);
      Linearizable(l, s, front);
      var prev, calls := After(l, s, front), Linearization(l, s, front);
      CallsOfAppend(calls, Effect(l, prev, step), tid);
      if Enabled(prev, step) {
        ThreadStep(l, prev, step, tid);
        Splice(CallsOf(calls, tid), Replies(l, s, front, tid), Decided(prev.phases[tid]),
               TidEffect(l, prev, step, tid), TidReturn(prev, step, tid), Decided(After(l, s, steps).phases[tid]),
               Invocations(l, s, front, tid), Undecided(prev.phases[tid]),
               TidInvoke(step, tid), Undecided(After(l, s, steps).phases[tid]));
      } else {
        assert CallsOf(Linearization(l, s, steps), tid) == CallsOf(calls, tid);
      }
    }
  }

  /** Sequence bookkeeping for one step of `EachCallTakesEffectOnce`. */
  lemma Splice(mine: seq<Reply>, replies: seq<Reply>, dec: seq<Reply>, now: seq<Reply>, ret: seq<Reply>,
               dec': seq<Reply>, invs: seq<u32>, und: seq<u32>, newInv: seq<u32>, und': seq<u32>)
    requires mine == replies + dec && dec + now == ret + dec'
    requires invs == ReplyNows(mine) + und && und + newInv == ReplyNows(now) + und'
    ensures mine + now == replies + ret + dec'
    ensures invs + newInv == ReplyNows(mine + now) + und'
  {
    assert mine + now == replies + (dec + now);
    assert invs + newInv == ReplyNows(mine) + (und + newInv);
    assert ReplyNows(mine + now) == ReplyNows(mine) + ReplyNows(now);
  }

  function TidReturn(s: System, step: Step, tid: nat): seq<Reply> {
    if step == Return(tid) && Enabled(s, step) then Decided(s.phases[tid]) else []
  }

  function TidEffect(l: Limits, s: System, step: Step, tid: nat): seq<Reply>
    requires l.Valid()
  {
    Own(Effect(l, s, step), tid)
  }

  function Own(e: seq<Call>, tid: nat): seq<Reply> {
    if e != [] && e[0].tid == tid then [Reply(e[0].now, e[0].outcome)] else []
  }

  function TidInvoke(step: Step, tid: nat): seq<u32> {
    if step.Invoke? && step.tid == tid then [step.now] else []
  }

  /** A step of another thread leaves this one's calls alone. */
  lemma OtherStep(l: Limits, s: System, step: Step, tid: nat)
    requires l.Valid() && Enabled(s, step) && tid < |s.phases| && step.tid != tid
    ensures var s' := Apply(l, s, step);
            && |s'.phases| == |s.phases| && s'.phases[tid] == s.phases[tid]
            && TidEffect(l, s, step, tid) == [] && TidReturn(s, step, tid) == [] && TidInvoke(step, tid) == []
  {
  }

  lemma OwnStep(l: Limits, s: System, step: Step)
    requires l.Valid() && Inv(l, s) && Enabled(s, step)
    ensures var p, p' := s.phases[step.tid], Apply(l, s, step).phases[step.tid];
            var now := TidEffect(l, s, step, step.tid);
            && |Apply(l, s, step).phases| == |s.phases|
            && Decided(p) + now == TidReturn(s, step, step.tid) + Decided(p')
            && Undecided(p) + TidInvoke(step, step.tid) == ReplyNows(now) + Undecided(p')
  {
  }

  /** One step moves at most one of a thread's calls from undecided to decided to returned. */
  lemma ThreadStep(l: Limits, s: System, step: Step, tid: nat)
    requires l.Valid() && Inv(l, s) && Enabled(s, step) && tid < |s.phases|
    ensures var p, p' := s.phases[tid], Apply(l, s, step).phases[tid];
            var now := TidEffect(l, s, step, tid);
            && |Apply(l, s, step).phases| == |s.phases|
            && Decided(p) + now == TidReturn(s, step, tid) + Decided(p')
            && Undecided(p) + TidInvoke(step, tid) == ReplyNows(now) + Undecided(p')
  {
    if step.tid == tid {
      OwnStep(l, s, step);
    } else {
      OtherStep(l, s, step, tid);
    }
  }

  /** The order of effects never changes once fixed: a longer schedule only extends it. */
  lemma {:induction false} EffectsAreStable(l: Limits, s: System, steps: seq<Step>, n: nat)
    requires l.Valid() && n <= |steps|
    ensures Linearization(l, s, steps[..n]) <= Linearization(l, s, steps)
  {
    if n == |steps| {
      assert steps[..n] == steps;
    } else {
      var front := steps[..|steps| - 1];
      assert front[..n] == steps[..n];
      EffectsAreStable(l, s, front, n);
    }
  }

  lemma {:induction false} CallsOfGrow(calls: seq<Call>, n: nat, tid: nat)
    requires n <= |calls|
    ensures |CallsOf(calls[..n], tid)| <= |CallsOf(calls, tid)|
  {
    if n == |calls| {
      assert calls[..n] == calls;
    } else {
      var front := calls[..|calls| - 1];
      assert front[..n] == calls[..n];
      CallsOfGrow(front, n, tid);
    }
  }

  /** The call at `x` is its thread's call number `k`, counted from zero. */
  predicate IsCall(calls: seq<Call>, x: nat, tid: nat, k: nat) {
    x < |calls| && calls[x].tid == tid && |CallsOf(calls[..x], tid)| == k
  }

  /** A prefix of the effect order holds a thread's call number `k` exactly when it holds more than `k` of them. */
  lemma PrefixHolds(calls: seq<Call>, x: nat, tid: nat, k: nat, n: nat)
    requires IsCall(calls, x, tid, k) && n <= |calls|
    ensures x < n <==> k < |CallsOf(calls[..n], tid)|
  {
    if x < n {
      assert calls[..n][..x + 1] == calls[..x + 1];
      CallsOfGrow(calls[..n], x + 1, tid);
      assert calls[..x + 1][..x] == calls[..x];
    } else {
      assert calls[..x][..n] == calls[..n];
      CallsOfGrow(calls[..x], n, tid);
    }
  }

  /**
   Real time: if after the first `n` steps thread `a` was already told of its call `i`, and
   thread `b` had not yet invoked its call `j`, then call `i` of `a` takes effect first.
   */
  lemma {:induction false} RealTimeOrder(l: Limits, s: System, steps: seq<Step>, n: nat, calls: seq<Call>,
                                         a: nat, i: nat, x: nat, b: nat, j: nat, y: nat)
    requires l.Valid() && Fresh(l, s) && a < |s.phases| && b < |s.phases|
    requires n <= |steps| && calls == Linearization(l, s, steps)
    requires IsCall(calls, x, a, i) && i < |Replies(l, s, steps[..n], a)|
    requires IsCall(calls, y, b, j) && j >= |Invocations(l, s, steps[..n], b)|
    ensures x < y
  {
    var past := Linearization(l, s, steps[..n]);
    EffectsAreStable(l, s, steps, n);
    assert calls[..|past|] == past;
    EachCallTakesEffectOnce(l, s, steps[..n], a);
    EachCallTakesEffectOnce(l, s, steps[..n], b);
    PrefixHolds(calls, x, a, i, |past|);
    PrefixHolds(calls, y, b, j, |past|);
  }

  // ---------- Quota bounds over interleaved runs ----------

  lemma VerdictsWindow(l: Limits, b: Level, nows: seq<nat>, i: nat, j: nat)
    requires i <= j <= |nows|
    ensures Verdicts(l, b, nows)[i..j] == Verdicts(l, Final(l, b, nows[..i]), nows[i..j])
  {
    assert nows == nows[..j] + nows[j..];
    RunSplit(l, b, nows[..j], nows[j..]);
    assert nows[..j] == nows[..i] + nows[i..j];
    RunSplit(l, b, nows[..i], nows[i..j]);
  }

  /** Every interleaved run conserves tokens. */
  lemma {:induction false} RunConserves(l: Limits, s: System, steps: seq<Step>)
    requires l.Valid() && Fresh(l, s)
    ensures var os := Outcomes(Linearization(l, s, steps));
            LevelOf(After(l, s, steps).word).tokens + MILLI * Grants(os)
            == LevelOf(s.word).tokens + TotalRefilled(os)
  {
    Linearizable(l, s, steps);
    Conservation(l, LevelOf(s.word), Nows(Linearization(l, s, steps)));
  }

  /**
   Between any two effects of any interleaved run, grants are covered by the tokens in the
   bucket at the first plus the refill of the forward clock moves in between.
   */
  lemma {:induction false} RunGrantBound(l: Limits, s: System, steps: seq<Step>, i: nat, j: nat)
    requires l.Valid() && Fresh(l, s)
    requires i <= j <= |Linearization(l, s, steps)|
    ensures var calls := Linearization(l, s, steps);
            var start := Final(l, LevelOf(s.word), Nows(calls)[..i]);
            && start.tokens <= l.capacity
            && MILLI * Grants(Outcomes(calls)[i..j]) <= start.tokens + l.rate * Forward(start.last, Nows(calls)[i..j])
  {
    var calls := Linearization(l, s, steps);
    var b := LevelOf(s.word);
    Linearizable(l, s, steps);
    VerdictsWindow(l, b, Nows(calls), i, j);
    FinalInRange(l, b, Nows(calls)[..i]);
    GrantBound(l, Final(l, b, Nows(calls)[..i]), Nows(calls)[i..j]);
  }

  /** The calls that take effect from `i` up to `j` do so with clocks that do not run backwards. */
  ghost predicate ClockForward(calls: seq<Call>, i: nat, j: nat) {
    j <= |calls| && forall x, y :: i <= x <= y < j ==> calls[x].now <= calls[y].now
  }

  /** ... hence under capacity plus rate times elapsed time when clocks do not run backwards. */
  lemma {:induction false} RunWindowBound(l: Limits, s: System, steps: seq<Step>, calls: seq<Call>, i: nat, j: nat)
    requires l.Valid() && Fresh(l, s) && calls == Linearization(l, s, steps)
    requires i < j && ClockForward(calls, i, j)
    ensures calls[i].now <= calls[j - 1].now
    ensures MILLI * Grants(Outcomes(calls)[i..j]) <= l.capacity + Gain(l.rate, calls[j - 1].now - calls[i].now)
  {
    Linearizable(l, s, steps);
    CallsWindowBound(l, LevelOf(s.word), calls, i, j, Nows(calls), Outcomes(calls));
  }

  lemma CallsWindowBound(l: Limits, b: Level, calls: seq<Call>, i: nat, j: nat, nows: seq<nat>, os: seq<Outcome>)
    requires b.tokens <= l.capacity && i < j && ClockForward(calls, i, j)
    requires nows == Nows(calls) && os == Verdicts(l, b, nows)
    ensures calls[i].now <= calls[j - 1].now
    ensures MILLI * Grants(os[i..j]) <= l.capacity + Gain(l.rate, calls[j - 1].now - calls[i].now)
  {
    ClockElapsed(calls, i, j, nows);
    SliceBound(l, b, nows, i, j);
  }

  lemma SliceBound(l: Limits, b: Level, nows: seq<nat>, i: nat, j: nat)
    requires b.tokens <= l.capacity && i < j <= |nows|
    ensures MILLI * Grants(Verdicts(l, b, nows)[i..j]) <= l.capacity + Gain(l.rate, Forward(nows[i], nows[i + 1..j]))
  {
    assert nows[i..j] == [nows[i]] + nows[i + 1..j];
    VerdictsWindow(l, b, nows, i, j);
    FinalInRange(l, b, nows[..i]);
    GrantsAfterFirst(l, Final(l, b, nows[..i]), nows[i], nows[i + 1..j]);
  }

  lemma ClockElapsed(calls: seq<Call>, i: nat, j: nat, nows: seq<nat>)
    requires i < j && ClockForward(calls, i, j) && nows == Nows(calls)
    ensures Forward(nows[i], nows[i + 1..j]) == calls[j - 1].now - calls[i].now
  {
    var w := nows[i + 1..j];
    assert forall x :: 0 <= x < |w| ==> w[x] == calls[i + 1 + x].now;
    ForwardIsElapsed(calls[i].now, w);
  }
}
