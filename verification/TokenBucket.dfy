/**
 The lock-free per-issuer token bucket of `src/rate_limit.rs`: the packed word, one
 iteration of the compare-and-swap loop, and the plain bucket it is meant to implement.
 */
module TokenBucket {
  import opened Ints

  /** Milli-tokens per token. */
  const MILLI: u32 := 1000

  /** Seconds in the high half, milli-tokens in the low half; the halves do not overlap. */
  function Pack(secs: u32, milli: u32): u64 { secs * U32_LIMIT + milli }

  function Unpack(word: u64): (u32, u32) { (word / U32_LIMIT, word % U32_LIMIT) }

  lemma PackUnpack(secs: u32, milli: u32)
    ensures Unpack(Pack(secs, milli)) == (secs, milli)
  {
  }

  lemma UnpackPack(word: u64)
    ensures Pack(Unpack(word).0, Unpack(word).1) == word
  {
  }

  /** Capacity and refill rate, both in milli-tokens. */
  datatype Limits = Limits(capacity: u32, rate: u32) {
    /** Both quantities are a positive number of whole tokens. */
    ghost predicate Valid() {
      capacity % MILLI == 0 && rate % MILLI == 0 && capacity >= MILLI && rate >= MILLI
    }
  }

  const MAX_UNITS: u32 := 4294967  // u32::MAX / 1000

  function ClampUnits(units: u32): (r: u32)
    ensures 1 <= r <= MAX_UNITS
    ensures 1 <= units <= MAX_UNITS ==> r == units
  {
    if units < 1 then 1 else if units > MAX_UNITS then MAX_UNITS else units
  }

  /** The clamp keeps `units * 1000` inside 32 bits. */
  function NewLimits(burst: u32, perSecond: u32): (l: Limits)
    ensures l.Valid()
    ensures l.capacity == 1000 * Max(1, Min(burst, 4294967))
    ensures l.rate == 1000 * Max(1, Min(perSecond, 4294967))
  {
    Limits(ClampUnits(burst) * MILLI, ClampUnits(perSecond) * MILLI)
  }

  datatype Outcome = Outcome(granted: bool, refilled: nat, reset: bool)

  // ---------- The reference bucket: unbounded integers, one atomic step ----------

  datatype Level = Level(last: nat, tokens: nat)

  /** Tokens available at `now`: linear refill since `last`, capped. */
  function Accrued(l: Limits, b: Level, now: nat): nat {
    Min(l.capacity, b.tokens + Gain(l.rate, SatSub(now, b.last)))
  }

  function Consumed(l: Limits, b: Level, now: nat): Level {
    var t := Accrued(l, b, now);
    Level(now, if t >= MILLI then t - MILLI else t)
  }

  function Verdict(l: Limits, b: Level, now: nat): Outcome {
    var t := Accrued(l, b, now);
    Outcome(t >= MILLI, SatSub(t, b.tokens), b.tokens == 0 && t > 0)
  }

  /** The level after calls at the given clock readings, in order. */
  function Final(l: Limits, b: Level, nows: seq<nat>): Level {
    if nows == [] then b
    else Consumed(l, Final(l, b, nows[..|nows| - 1]), nows[|nows| - 1])
  }

  /** The outcome of each of those calls. */
  function Verdicts(l: Limits, b: Level, nows: seq<nat>): (r: seq<Outcome>)
    ensures |r| == |nows|
  {
    if nows == [] then []
    else Verdicts(l, b, nows[..|nows| - 1]) +
         [Verdict(l, Final(l, b, nows[..|nows| - 1]), nows[|nows| - 1])]
  }

  // ---------- The code: saturating arithmetic on the packed word ----------

  ghost predicate InRange(l: Limits, b: Level) {
    b.last < U32_LIMIT && b.tokens <= l.capacity
  }

  function LevelOf(word: u64): Level {
    Level(Unpack(word).0, Unpack(word).1)
  }

  function WordOf(b: Level): u64
    requires b.last < U32_LIMIT && b.tokens < U32_LIMIT
  {
    Pack(b.last, b.tokens)
  }

  lemma RefillFits(tokens: u32, elapsed: u32, rate: u32)
    requires rate <= MAX_UNITS * MILLI
    ensures elapsed * rate + tokens < U64_LIMIT
  {
    assert elapsed * rate <= 0xFFFF_FFFF * (MAX_UNITS * MILLI) by {
      MulMono(elapsed, 0xFFFF_FFFF, rate);
      MulMono(rate, MAX_UNITS * MILLI, 0xFFFF_FFFF);
    }
  }

  lemma MulMono(a: nat, b: nat, c: nat)
    requires a <= b
    ensures a * c <= b * c
  {
  }

  lemma RateFits(l: Limits)
    requires l.Valid()
    ensures l.rate <= MAX_UNITS * MILLI && l.capacity <= MAX_UNITS * MILLI
  {
  }

  /**
   Every intermediate is a checked 64-bit value, so neither the product nor the sum of
   the source can saturate or overflow while clock readings fit 32 bits.
   */
  function Refilled(l: Limits, tokens: u32, last: u32, now: u32): (r: u32)
    requires l.Valid()
    ensures r == Accrued(l, Level(last, tokens), now)
  {
    var elapsed: u64 := SatSub(now, last);
    RateFits(l);
    RefillFits(tokens, elapsed, l.rate);
    GainIsProduct(l.rate, elapsed);
    var add: u64 := SatMul64(elapsed, l.rate);
    var sum: u64 := tokens + add;
    Min(sum, l.capacity)
  }

  /** What one pass of the retry loop decides after loading `cur`. */
  datatype Attempt =
    | Publish(next: u64, outcome: Outcome)   // needs a successful compare-and-swap
    | Settled(outcome: Outcome)              // rejection that leaves the word as it is

  function Iterate(l: Limits, cur: u64, now: u32): Attempt
    requires l.Valid()
  {
    var (last, tokens) := Unpack(cur);
    var refilled := Refilled(l, tokens, last, now);
    var added := SatSub(refilled, tokens);
    var reset := tokens == 0 && refilled > 0;
    if refilled >= MILLI then
      Publish(Pack(now, refilled - MILLI), Outcome(true, added, reset))
    else
      var next := Pack(now, refilled);
      if cur == next then Settled(Outcome(false, 0, false))
      else Publish(next, Outcome(false, added, reset))
  }

  /** One iteration against an unchanged word is exactly one atomic refill-then-consume. */
  lemma {:induction false} IterateRefines(l: Limits, cur: u64, now: u32)
    requires l.Valid() && InRange(l, LevelOf(cur))
    ensures Iterate(l, cur, now).outcome == Verdict(l, LevelOf(cur), now)
    ensures InRange(l, Consumed(l, LevelOf(cur), now))
    ensures match Iterate(l, cur, now)
            case Publish(next, _) => next == WordOf(Consumed(l, LevelOf(cur), now))
            case Settled(_) => LevelOf(cur) == Consumed(l, LevelOf(cur), now)
  {
    UnpackPack(cur);
    var t := Refilled(l, LevelOf(cur).tokens, LevelOf(cur).last, now);
    if t < MILLI { PackUnpack(now, t); } else { PackUnpack(now, t - MILLI); }
  }

  /**
   The retry loop of a caller with the word to itself. `spurious` is how many times the
   weak compare-and-swap fails for no reason before it is allowed to succeed.
   */
  method TryConsume(l: Limits, word: u64, now: u32, spurious: nat) returns (next: u64, o: Outcome)
    requires l.Valid() && InRange(l, LevelOf(word))
    ensures LevelOf(next) == Consumed(l, LevelOf(word), now)
    ensures o == Verdict(l, LevelOf(word), now)
    ensures InRange(l, LevelOf(next))
  {
    next := word;
    var fails := spurious;
    IterateRefines(l, word, now);
    while true
      invariant next == word
      decreases fails
    {
      var cur := next;
      var attempt := Iterate(l, cur, now);
      if attempt.Settled? {
        return next, attempt.outcome;
      }
      if next == cur && fails == 0 {
        next := attempt.next;
        var t := Consumed(l, LevelOf(word), now);
        PackUnpack(t.last, t.tokens);
        return next, attempt.outcome;
      }
      if fails == 0 { assert false; }
      fails := fails - 1;
    }
  }

  // ---------- Conservation and rate bounds ----------

  function Grants(os: seq<Outcome>): nat {
    if os == [] then 0 else Grants(os[..|os| - 1]) + if os[|os| - 1].granted then 1 else 0
  }

  function TotalRefilled(os: seq<Outcome>): nat {
    if os == [] then 0 else TotalRefilled(os[..|os| - 1]) + os[|os| - 1].refilled
  }

  /** How far the clock moved forward, summed over consecutive commits. */
  function Forward(last: nat, nows: seq<nat>): nat {
    if nows == [] then 0
    else Forward(last, nows[..|nows| - 1]) +
         SatSub(nows[|nows| - 1], if |nows| == 1 then last else nows[|nows| - 2])
  }

  ghost predicate NonDecreasing(last: nat, nows: seq<nat>) {
    && (forall i :: 0 <= i < |nows| ==> last <= nows[i])
    && (forall i, j :: 0 <= i <= j < |nows| ==> nows[i] <= nows[j])
  }

  lemma {:induction false} FinalInRange(l: Limits, b: Level, nows: seq<nat>)
    requires b.tokens <= l.capacity
    ensures Final(l, b, nows).tokens <= l.capacity
    ensures nows != [] ==> Final(l, b, nows).last == nows[|nows| - 1]
  {
    if nows != [] {
      FinalInRange(l, b, nows[..|nows| - 1]);
    }
  }

  /** No token is lost or spent twice: the balance is what came in minus what was granted. */
  lemma {:induction false} Conservation(l: Limits, b: Level, nows: seq<nat>)
    requires b.tokens <= l.capacity
    ensures Final(l, b, nows).tokens + MILLI * Grants(Verdicts(l, b, nows))
            == b.tokens + TotalRefilled(Verdicts(l, b, nows))
  {
    if nows != [] {
      var front := nows[..|nows| - 1];
      Conservation(l, b, front);
      FinalInRange(l, b, front);
      var os := Verdicts(l, b, nows);
      assert os[..|os| - 1] == Verdicts(l, b, front);
    }
  }

  lemma {:induction false} RefilledBound(l: Limits, b: Level, nows: seq<nat>)
    requires b.tokens <= l.capacity
    ensures TotalRefilled(Verdicts(l, b, nows)) <= Gain(l.rate, Forward(b.last, nows))
  {
    if nows != [] {
      var front := nows[..|nows| - 1];
      RefilledBound(l, b, front);
      FinalInRange(l, b, front);
      var os := Verdicts(l, b, nows);
      assert os[..|os| - 1] == Verdicts(l, b, front);
      var cur, now := Final(l, b, front), nows[|nows| - 1];
      assert Forward(b.last, nows) == Forward(b.last, front) + SatSub(now, cur.last);
      GainAdds(l.rate, Forward(b.last, front), SatSub(now, cur.last));
    }
  }

  /** Grants are bounded by the starting balance plus the refill of every forward clock move. */
  lemma {:induction false} GrantBound(l: Limits, b: Level, nows: seq<nat>)
    requires b.tokens <= l.capacity
    ensures MILLI * Grants(Verdicts(l, b, nows)) <= b.tokens + l.rate * Forward(b.last, nows)
  {
    Conservation(l, b, nows);
    RefilledBound(l, b, nows);
    GainIsProduct(l.rate, Forward(b.last, nows));
  }

  lemma {:induction false} ForwardIsElapsed(last: nat, nows: seq<nat>)
    requires NonDecreasing(last, nows)
    ensures Forward(last, nows) == if nows == [] then 0 else nows[|nows| - 1] - last
  {
    if nows != [] {
      ForwardIsElapsed(last, nows[..|nows| - 1]);
    }
  }

  /** One more call at the end of a run. */
  lemma AppendCall(l: Limits, b: Level, front: seq<nat>, now: nat)
    ensures Final(l, b, front + [now]) == Consumed(l, Final(l, b, front), now)
    ensures Verdicts(l, b, front + [now]) == Verdicts(l, b, front) + [Verdict(l, Final(l, b, front), now)]
  {
    assert (front + [now])[..|front|] == front;
  }

  lemma {:induction false} FinalSplit(l: Limits, b: Level, xs: seq<nat>, ys: seq<nat>)
    ensures Final(l, b, xs + ys) == Final(l, Final(l, b, xs), ys)
  {
    if ys == [] {
      assert xs + ys == xs;
    } else {
      var front, now := ys[..|ys| - 1], ys[|ys| - 1];
      FinalSplit(l, b, xs, front);
      assert xs + ys == xs + front + [now] && ys == front + [now];
      AppendCall(l, b, xs + front, now);
      AppendCall(l, Final(l, b, xs), front, now);
    }
  }

  lemma Regroup<T>(xs: seq<T>, ys: seq<T>, z: T)
    ensures xs + ys + [z] == xs + (ys + [z])
  {
  }

  lemma {:induction false} RunSplit(l: Limits, b: Level, xs: seq<nat>, ys: seq<nat>)
    ensures Final(l, b, xs + ys) == Final(l, Final(l, b, xs), ys)
    ensures Verdicts(l, b, xs + ys) == Verdicts(l, b, xs) + Verdicts(l, Final(l, b, xs), ys)
  {
    FinalSplit(l, b, xs, ys);
    VerdictsSplit(l, b, xs, ys, Final(l, b, xs));
  }

  lemma {:induction false} VerdictsSplit(l: Limits, b: Level, xs: seq<nat>, ys: seq<nat>, mid: Level)
    requires mid == Final(l, b, xs)
    ensures Verdicts(l, b, xs + ys) == Verdicts(l, b, xs) + Verdicts(l, mid, ys)
  {
    if ys == [] {
      assert xs + ys == xs;
    } else {
      var front, now := ys[..|ys| - 1], ys[|ys| - 1];
      assert ys == front + [now];
      VerdictsSplit(l, b, xs, front, mid);
      FinalSplit(l, b, xs, front);
      SplitOneMore(l, b, xs, front, now, mid);
    }
  }

  lemma SplitOneMore(l: Limits, b: Level, xs: seq<nat>, front: seq<nat>, now: nat, mid: Level)
    requires Final(l, b, xs + front) == Final(l, mid, front)
    requires Verdicts(l, b, xs + front) == Verdicts(l, b, xs) + Verdicts(l, mid, front)
    ensures Verdicts(l, b, xs + (front + [now])) == Verdicts(l, b, xs) + Verdicts(l, mid, front + [now])
  {
    Regroup(xs, front, now);
    AppendCall(l, b, xs + front, now);
    AppendCall(l, mid, front, now);
    Regroup(Verdicts(l, b, xs), Verdicts(l, mid, front), Verdict(l, Final(l, mid, front), now));
  }

  lemma {:induction false} GrantsSplit(xs: seq<Outcome>, ys: seq<Outcome>)
    ensures Grants(xs + ys) == Grants(xs) + Grants(ys)
  {
    if ys == [] {
      assert xs + ys == xs;
    } else {
      GrantsSplit(xs, ys[..|ys| - 1]);
      assert (xs + ys)[..|xs + ys| - 1] == xs + ys[..|ys| - 1];
    }
  }

  /**
   With clocks that do not run backwards, the grants of any stretch of calls fit under
   capacity plus rate times the time between its first and last call.
   */
  lemma {:induction false} WindowBound(l: Limits, b: Level, nows: seq<nat>)
    requires b.tokens <= l.capacity && nows != [] && NonDecreasing(nows[0], nows)
    ensures MILLI * Grants(Verdicts(l, b, nows)) <= l.capacity + Gain(l.rate, nows[|nows| - 1] - nows[0])
  {
    var now, rest := nows[0], nows[1..];
    assert nows == [now] + rest;
    ElapsedFromFirst(nows);
    GrantsAfterFirst(l, b, now, rest);
  }

  lemma ElapsedFromFirst(nows: seq<nat>)
    requires nows != [] && NonDecreasing(nows[0], nows)
    ensures Forward(nows[0], nows[1..]) == nows[|nows| - 1] - nows[0]
  {
    var rest := nows[1..];
    assert forall i :: 0 <= i < |rest| ==> rest[i] == nows[i + 1];
    ForwardIsElapsed(nows[0], rest);
  }

  lemma GrantsAfterFirst(l: Limits, b: Level, now: nat, rest: seq<nat>)
    requires b.tokens <= l.capacity
    ensures MILLI * Grants(Verdicts(l, b, [now] + rest)) <= l.capacity + Gain(l.rate, Forward(now, rest))
  {
    var next := Consumed(l, b, now);
    FirstCall(l, b, now, rest);
    Conservation(l, next, rest);
    RefilledBound(l, next, rest);
  }

  lemma FirstCall(l: Limits, b: Level, now: nat, rest: seq<nat>)
    ensures Grants(Verdicts(l, b, [now] + rest)) ==
            Grants(Verdicts(l, Consumed(l, b, now), rest)) + if Verdict(l, b, now).granted then 1 else 0
  {
    RunSplit(l, b, [now], rest);
    GrantsSplit(Verdicts(l, b, [now]), Verdicts(l, Final(l, b, [now]), rest));
    assert [now][..0] == [];
    assert Verdicts(l, b, [now])[..0] == [];
  }

  // ---------- Clocks that run backwards ----------

  ghost predicate Between(nows: seq<nat>, lo: nat, hi: nat) {
    forall i :: 0 <= i < |nows| ==> lo <= nows[i] <= hi
  }

  /** A clock that falls back from `hi` to `lo` and recovers, `n` times. */
  function Sawtooth(lo: nat, hi: nat, n: nat): seq<nat> {
    if n == 0 then [] else Sawtooth(lo, hi, n - 1) + [lo] + [hi]
  }

  lemma GrantsStep(l: Limits, b: Level, front: seq<nat>, now: nat)
    ensures Grants(Verdicts(l, b, front + [now])) ==
            Grants(Verdicts(l, b, front)) + if Verdict(l, Final(l, b, front), now).granted then 1 else 0
  {
    AppendCall(l, b, front, now);
    var os := Verdicts(l, b, front + [now]);
    assert os[..|os| - 1] == Verdicts(l, b, front);
  }

  lemma RefillAfterFallback(l: Limits, b: Level, hi: nat)
    requires l.Valid() && b.last < hi
    ensures Verdict(l, b, hi).granted
  {
    GainMono(l.rate, 1, hi - b.last);
    assert Gain(l.rate, 1) == Gain(l.rate, 0) + l.rate;
  }

  lemma RoundGrants(l: Limits, b: Level, front: seq<nat>, lo: nat, hi: nat)
    requires l.Valid() && lo < hi
    ensures Grants(Verdicts(l, b, front + [lo] + [hi])) >= Grants(Verdicts(l, b, front)) + 1
  {
    GrantsStep(l, b, front, lo);
    GrantsStep(l, b, front + [lo], hi);
    AppendCall(l, b, front, lo);
    RefillAfterFallback(l, Final(l, b, front + [lo]), hi);
  }

  lemma {:induction false} SawtoothBetween(lo: nat, hi: nat, n: nat)
    requires lo <= hi
    ensures Between(Sawtooth(lo, hi, n), lo, hi)
  {
    if n > 0 {
      SawtoothBetween(lo, hi, n - 1);
    }
  }

  /**
   A commit with an older clock moves `last` back, and the same seconds are refilled again:
   between any two different readings a bucket can be made to grant any number of tokens.
   */
  lemma {:induction false} BackwardClockMints(l: Limits, b: Level, lo: nat, hi: nat, n: nat, nows: seq<nat>)
    requires l.Valid() && lo < hi && nows == Sawtooth(lo, hi, n)
    ensures Between(nows, lo, hi)
    ensures Grants(Verdicts(l, b, nows)) >= n
  {
    SawtoothBetween(lo, hi, n);
    if n > 0 {
      var front := Sawtooth(lo, hi, n - 1);
      BackwardClockMints(l, b, lo, hi, n - 1, front);
      RoundGrants(l, b, front, lo, hi);
    }
  }

  /**
   When elapsed time bounds the grants of calls in any order: readings that may lie anywhere
   between `lo` and `hi` keep every run under capacity plus rate times `hi - lo` if and only
   if they cannot differ at all.
   */
  lemma {:induction false} ElapsedBoundIff(l: Limits, lo: nat, hi: nat)
    requires l.Valid() && lo <= hi
    ensures (forall b: Level, nows :: b.tokens <= l.capacity && Between(nows, lo, hi) ==>
               MILLI * Grants(Verdicts(l, b, nows)) <= l.capacity + Gain(l.rate, hi - lo))
            <==> lo == hi
  {
    if lo == hi {
      forall b: Level, nows | b.tokens <= l.capacity && Between(nows, lo, hi)
        ensures MILLI * Grants(Verdicts(l, b, nows)) <= l.capacity + Gain(l.rate, hi - lo)
      {
        if nows != [] {
          WindowBound(l, b, nows);
        }
      }
    } else {
      var n, b := l.capacity + Gain(l.rate, hi - lo) + 1, Level(lo, 0);
      BackwardClockMints(l, b, lo, hi, n, Sawtooth(lo, hi, n));
      assert MILLI * Grants(Verdicts(l, b, Sawtooth(lo, hi, n))) > l.capacity + Gain(l.rate, hi - lo);
    }
  }

  // ---------- Whole tokens, waiting, and transparent rejections ----------

  ghost predicate Whole(b: Level) { b.tokens % MILLI == 0 }

  lemma WholeStep(l: Limits, b: Level, now: nat)
    requires l.Valid() && Whole(b)
    ensures Accrued(l, b, now) % MILLI == 0 && Whole(Consumed(l, b, now))
  {
    GainWhole(l, SatSub(now, b.last));
    WholeSum(b.tokens, Gain(l.rate, SatSub(now, b.last)));
    WholeSum(Accrued(l, b, now), 0);
  }

  lemma WholeSum(x: nat, y: nat)
    requires x % 1000 == 0 && y % 1000 == 0
    ensures (x + y) % 1000 == 0
    ensures x >= 1000 ==> (x - 1000) % 1000 == 0
  {
    var p, q := x / 1000, y / 1000;
    assert x == 1000 * p && y == 1000 * q;
    Multiple(p + q);
    if x >= 1000 {
      Multiple(p - 1);
    }
  }

  lemma Multiple(k: nat)
    ensures (1000 * k) % 1000 == 0
  {
  }

  lemma {:induction false} GainWhole(l: Limits, secs: nat)
    requires l.Valid()
    ensures Gain(l.rate, secs) % MILLI == 0
  {
    if secs != 0 {
      GainWhole(l, secs - 1);
      WholeSum(Gain(l.rate, secs - 1), l.rate);
    }
  }

  /** Every balance reached from a whole one is whole. */
  lemma {:induction false} AlwaysWhole(l: Limits, b: Level, nows: seq<nat>)
    requires l.Valid() && Whole(b)
    ensures Whole(Final(l, b, nows))
  {
    if nows != [] {
      AlwaysWhole(l, b, nows[..|nows| - 1]);
      WholeStep(l, Final(l, b, nows[..|nows| - 1]), nows[|nows| - 1]);
    }
  }

  /** A call reports a reset exactly when it finds the bucket empty at a later second than the last commit. */
  lemma {:induction false} ResetIff(l: Limits, b: Level, front: seq<nat>, now: nat)
    requires l.Valid()
    ensures var before, os := Final(l, b, front), Verdicts(l, b, front + [now]);
            os[|front|].reset <==> before.tokens == 0 && before.last < now
  {
    var before := Final(l, b, front);
    AppendCall(l, b, front, now);
    if before.last < now {
      GainMono(l.rate, 1, now - before.last);
      assert Gain(l.rate, 1) == Gain(l.rate, 0) + l.rate;
    }
  }

  function DivCeil(x: nat, y: nat): nat
    requires y > 0
  {
    (x + y - 1) / y
  }

  function TimeToNextToken(l: Limits, word: u64, now: u32): nat
    requires l.Valid()
  {
    var (last, tokens) := Unpack(word);
    var refilled := Refilled(l, tokens, last, now);
    if refilled >= MILLI then 0 else Max(DivCeil(MILLI - refilled, l.rate), 1)
  }

  /**
   The wait advertised after a rejection is exactly one second, and a caller that is
   alone on its bucket is granted when it comes back after it.
   */
  lemma {:induction false} AdvertisedWaitSuffices(l: Limits, word: u64, now: u32)
    requires l.Valid() && InRange(l, LevelOf(word)) && Whole(LevelOf(word))
    requires !Verdict(l, LevelOf(word), now).granted
    ensures InRange(l, Consumed(l, LevelOf(word), now))
    ensures var after := Consumed(l, LevelOf(word), now);
            var wait := TimeToNextToken(l, WordOf(after), now);
            wait == 1 && Verdict(l, after, now + wait).granted
  {
    WholeStep(l, LevelOf(word), now);
    var after := Consumed(l, LevelOf(word), now);
    assert after == Level(now, 0);
    PackUnpack(now, 0);
    EmptyBucketWait(l, now);
  }

  /** The reported wait is the first number of seconds after which a bucket left alone grants. */
  lemma {:induction false} WaitIsFirst(l: Limits, word: u64, now: u32, d: nat)
    requires l.Valid() && InRange(l, LevelOf(word)) && LevelOf(word).last <= now
    ensures Verdict(l, LevelOf(word), now + d).granted <==> TimeToNextToken(l, word, now) <= d
  {
    var b := LevelOf(word);
    var t := Accrued(l, b, now);
    GainAdds(l.rate, now - b.last, d);
    if t < MILLI {
      SecondSuffices(l, t);
      if d > 0 {
        GainMono(l.rate, 1, d);
        assert Gain(l.rate, 1) == Gain(l.rate, 0) + l.rate;
      }
    }
  }

  lemma SecondSuffices(l: Limits, t: nat)
    requires l.Valid() && t < MILLI
    ensures Max(DivCeil(MILLI - t, l.rate), 1) == 1
  {
    DivCeilGalois(MILLI - t, l.rate, 1);
  }

  lemma EmptyBucketWait(l: Limits, now: nat)
    requires l.Valid()
    ensures DivCeil(MILLI, l.rate) == 1
    ensures Accrued(l, Level(now, 0), now) == 0 && Accrued(l, Level(now, 0), now + 1) >= MILLI
  {
    DivCeilGalois(MILLI, l.rate, 1);
    DivCeilGalois(MILLI, l.rate, 0);
    assert Gain(l.rate, 1) == Gain(l.rate, 0) + l.rate;
  }

  function Kept<T>(xs: seq<T>, keep: seq<bool>): seq<T>
    requires |xs| == |keep|
  {
    if xs == [] then []
    else Kept(xs[..|xs| - 1], keep[..|xs| - 1]) + if keep[|xs| - 1] then [xs[|xs| - 1]] else []
  }

  /** `lag` has missed refills that `b` has already folded in, and nothing else. */
  ghost predicate Lags(l: Limits, lag: Level, b: Level) {
    lag.last <= b.last && b.tokens == Accrued(l, lag, b.last)
  }

  lemma LagCatchesUp(l: Limits, lag: Level, b: Level, now: nat)
    requires Lags(l, lag, b) && b.last <= now
    ensures Accrued(l, lag, now) == Accrued(l, b, now)
  {
    GainAdds(l.rate, b.last - lag.last, now - b.last);
  }

  /**
   Rejected calls are transparent: leaving any of them out of a run with a clock that
   never goes back changes no other decision.
   */
  lemma {:induction false} RejectionsTransparent(l: Limits, b: Level, nows: seq<nat>, keep: seq<bool>)
    requires b.tokens <= l.capacity && NonDecreasing(b.last, nows)
    requires |keep| == |nows|
    requires forall i :: 0 <= i < |nows| && !keep[i] ==> !Verdicts(l, b, nows)[i].granted
    ensures Granted(Verdicts(l, b, Kept(nows, keep))) == Kept(Granted(Verdicts(l, b, nows)), keep)
    ensures Lags(l, Final(l, b, Kept(nows, keep)), Final(l, b, nows))
  {
    if nows == [] {
      NoLag(l, b);
    } else {
      var n := |nows| - 1;
      var front, kfront := nows[..n], keep[..n];
      assert nows == front + [nows[n]] && keep == kfront + [keep[n]];
      DecisionsPrefix(l, b, front, nows[n], kfront, keep[n]);
      RejectionsTransparent(l, b, front, kfront);
      FinalInRange(l, b, front);
      OneMoreKept(l, b, front, kfront, nows[n], keep[n], Kept(front, kfront));
    }
  }

  lemma OneMoreKept(l: Limits, b: Level, front: seq<nat>, keep: seq<bool>, now: nat, k: bool, kept: seq<nat>)
    requires |keep| == |front| && kept == Kept(front, keep) && Final(l, b, front).last <= now
    requires k || !Verdict(l, Final(l, b, front), now).granted
    requires Granted(Verdicts(l, b, kept)) == Kept(Granted(Verdicts(l, b, front)), keep)
    requires Lags(l, Final(l, b, kept), Final(l, b, front))
    ensures var all := Kept(front + [now], keep + [k]);
            && Granted(Verdicts(l, b, all)) == Kept(Granted(Verdicts(l, b, front + [now])), keep + [k])
            && Lags(l, Final(l, b, all), Final(l, b, front + [now]))
  {
    LastDecision(l, b, front, now);
    LagStep(l, Final(l, b, kept), Final(l, b, front), now);
    KeptAppend(front, keep, now, k);
    KeptAppend(Granted(Verdicts(l, b, front)), keep, Verdict(l, Final(l, b, front), now).granted, k);
    if k {
      LastDecision(l, b, kept, now);
    } else {
      assert Kept(front + [now], keep + [k]) == kept;
    }
  }

  lemma DecisionsPrefix(l: Limits, b: Level, front: seq<nat>, now: nat, keep: seq<bool>, k: bool)
    requires |keep| == |front|
    requires forall i :: 0 <= i <= |front| && !(keep + [k])[i] ==> !Verdicts(l, b, front + [now])[i].granted
    ensures forall i :: 0 <= i < |front| && !keep[i] ==> !Verdicts(l, b, front)[i].granted
    ensures k || !Verdict(l, Final(l, b, front), now).granted
  {
    assert (front + [now])[..|front|] == front;
    var all := Verdicts(l, b, front + [now]);
    assert all == Verdicts(l, b, front) + [Verdict(l, Final(l, b, front), now)];
    assert all[|front|].granted ==> (keep + [k])[|front|];
    assert forall i :: 0 <= i < |front| ==> (keep + [k])[i] == keep[i] && all[i] == Verdicts(l, b, front)[i];
  }

  lemma KeptAppend<T>(xs: seq<T>, keep: seq<bool>, x: T, k: bool)
    requires |xs| == |keep|
    ensures Kept(xs + [x], keep + [k]) == Kept(xs, keep) + if k then [x] else []
  {
    assert (xs + [x])[..|xs|] == xs && (keep + [k])[..|xs|] == keep;
  }

  lemma NoLag(l: Limits, b: Level)
    requires b.tokens <= l.capacity
    ensures Lags(l, b, b)
  {
  }

  lemma LagStep(l: Limits, lag: Level, b: Level, now: nat)
    requires Lags(l, lag, b) && b.last <= now
    ensures Verdict(l, lag, now).granted == Verdict(l, b, now).granted
    ensures Lags(l, Consumed(l, lag, now), Consumed(l, b, now))
    ensures !Verdict(l, b, now).granted ==> Lags(l, lag, Consumed(l, b, now))
  {
    LagCatchesUp(l, lag, b, now);
    NoLag(l, Consumed(l, b, now));
  }

  lemma LastDecision(l: Limits, b: Level, front: seq<nat>, now: nat)
    ensures Final(l, b, front + [now]) == Consumed(l, Final(l, b, front), now)
    ensures Granted(Verdicts(l, b, front + [now])) ==
            Granted(Verdicts(l, b, front)) + [Verdict(l, Final(l, b, front), now).granted]
  {
    assert (front + [now])[..|front|] == front;
  }

  function Granted(os: seq<Outcome>): seq<bool> {
    seq(|os|, i requires 0 <= i < |os| => os[i].granted)
  }

  /** The second at which the bucket is full again, before the per-issuer jitter is added. */
  function FullAt(l: Limits, tokens: u32, now: nat): nat
    requires l.Valid()
  {
    now + DivCeil(SatSub(l.capacity, tokens), l.rate)
  }

  /** The reported reset time is the first second at which an untouched bucket is full. */
  lemma {:induction false} FullAtIsFirst(l: Limits, tokens: u32, now: nat, t: nat)
    requires l.Valid() && tokens <= l.capacity && now <= t
    ensures Accrued(l, Level(now, tokens), t) == l.capacity <==> FullAt(l, tokens, now) <= t
  {
    var d, e := l.capacity - tokens, t - now;
    DivCeilGalois(d, l.rate, e);
    GainIsProduct(l.rate, e);
  }

  lemma DivCeilGalois(x: nat, y: nat, e: nat)
    requires y > 0
    ensures x <= y * e <==> DivCeil(x, y) <= e
  {
    var q := DivCeil(x, y);
    Division(x + y - 1, y);
    if q <= e {
      MulMono(q, e, y);
    } else {
      MulMono(e + 1, q, y);
      assert (e + 1) * y == e * y + y;
    }
    assert q * y == y * q && e * y == y * e;
  }

  lemma Division(n: nat, y: nat)
    requires y > 0
    ensures y * (n / y) <= n < y * (n / y) + y
  {
  }
}
