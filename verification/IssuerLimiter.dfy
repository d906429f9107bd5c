/**
 The per-issuer tier of `PerIssuerRateLimiter`: a map of token buckets created on first use
 and evicted when stale. The global tier is outside this model.
 */
module IssuerLimiter {
  import opened Ints
  import opened TokenBucket

  datatype Config = Config(limits: Limits, ttl: u64)

  type Buckets = map<string, Level>

  datatype Op =
    | Check(issuer: string, now: u32)
    | Evict(now: u32)

  function Fetch(l: Limits, m: Buckets, issuer: string, now: u32): Level {
    if issuer in m then m[issuer] else Level(now, l.capacity)
  }

  function Fresh(m: Buckets, cutoff: nat): Buckets {
    map i | i in m && m[i].last >= cutoff :: m[i]
  }

  /** `evicting == false` gives the limiter that never forgets a bucket. */
  function Step(c: Config, m: Buckets, op: Op, evicting: bool): Buckets {
    match op
    case Check(issuer, now) => m[issuer := Consumed(c.limits, Fetch(c.limits, m, issuer, now), now)]
    case Evict(now) => if evicting then Fresh(m, SatSub(now, c.ttl)) else m
  }

  function Decide(c: Config, m: Buckets, op: Op): bool {
    op.Check? && Verdict(c.limits, Fetch(c.limits, m, op.issuer, op.now), op.now).granted
  }

  function After(c: Config, m: Buckets, ops: seq<Op>, evicting: bool): Buckets {
    if ops == [] then m
    else Step(c, After(c, m, ops[..|ops| - 1], evicting), ops[|ops| - 1], evicting)
  }

  function Decisions(c: Config, m: Buckets, ops: seq<Op>, evicting: bool): (r: seq<bool>)
    ensures |r| == |ops|
  {
    if ops == [] then []
    else
      var front := ops[..|ops| - 1];
      Decisions(c, m, front, evicting) + [Decide(c, After(c, m, front, evicting), ops[|ops| - 1])]
  }

  ghost predicate ClockForward(ops: seq<Op>) {
    forall i, j :: 0 <= i <= j < |ops| ==> ops[i].now <= ops[j].now
  }

  class Limiter {
    const limits: Limits
    const ttl: u64
    var buckets: map<string, u64>

    ghost predicate Valid()
      reads this
    {
      limits.Valid() && forall i :: i in buckets ==> InRange(limits, LevelOf(buckets[i]))
    }

    ghost function Levels(): Buckets
      reads this
    {
      map i | i in buckets :: LevelOf(buckets[i])
    }

    constructor (burst: u32, perSecond: u32, ttl: u64)
      ensures Valid() && Levels() == map[] && limits == NewLimits(burst, perSecond) && this.ttl == ttl
      ensures limits.capacity == 1000 * Max(1, Min(burst, 4294967))
      ensures limits.rate == 1000 * Max(1, Min(perSecond, 4294967))
    {
      limits := NewLimits(burst, perSecond);
      this.ttl := ttl;
      buckets := map[];
    }

    method ConsumeIssuer(issuer: string, now: u32, spurious: nat) returns (o: Outcome)
      requires Valid()
      modifies this
      ensures Valid()
      ensures Levels() == Step(Config(limits, ttl), old(Levels()), Check(issuer, now), true)
      ensures o == Verdict(limits, Fetch(limits, old(Levels()), issuer, now), now)
      ensures o.granted == Decide(Config(limits, ttl), old(Levels()), Check(issuer, now))
    {
      if issuer !in buckets {
        PackUnpack(now, limits.capacity);
        buckets := buckets[issuer := Pack(now, limits.capacity)];
      }
      var next;
      next, o := TryConsume(limits, buckets[issuer], now, spurious);
      buckets := buckets[issuer := next];
    }

    method EvictStale(now: u32)
      requires Valid()
      modifies this
      ensures Valid()
      ensures Levels() == Step(Config(limits, ttl), old(Levels()), Evict(now), true)
    {
      var cutoff := SatSub(now, ttl);
      buckets := map i | i in buckets && Unpack(buckets[i]).0 >= cutoff :: buckets[i];
    }
  }

  // ---------- Eviction is invisible exactly when a stale bucket must be full ----------

  /** How an evicting limiter may trail one that never evicts, at clock `now`. */
  ghost predicate Hidden(c: Config, m: Buckets, full: Buckets, now: nat) {
    && m.Keys <= full.Keys
    && (forall i :: i in m ==> m[i] == full[i])
    && (forall i :: i in full && i !in m ==> full[i].last + c.ttl + 1 <= now)
    && (forall i :: i in full ==> full[i].tokens <= c.limits.capacity && full[i].last <= now)
  }

  lemma StaleIsFull(c: Config, b: Level, now: u32)
    requires c.limits.capacity <= Gain(c.limits.rate, c.ttl + 1)
    requires b.last + c.ttl + 1 <= now
    ensures Accrued(c.limits, b, now) == c.limits.capacity
    ensures Accrued(c.limits, Level(now, c.limits.capacity), now) == c.limits.capacity
  {
    GainMono(c.limits.rate, c.ttl + 1, now - b.last);
  }

  lemma HiddenStep(c: Config, m: Buckets, full: Buckets, op: Op, now: nat)
    requires c.limits.Valid() && c.limits.capacity <= Gain(c.limits.rate, c.ttl + 1)
    requires Hidden(c, m, full, now) && now <= op.now
    ensures Decide(c, m, op) == Decide(c, full, op)
    ensures Hidden(c, Step(c, m, op, true), Step(c, full, op, false), op.now)
  {
    if op.Check? && op.issuer in full && op.issuer !in m {
      StaleIsFull(c, full[op.issuer], op.now);
    }
  }

  /** Evicting stale buckets changes no decision of any run with a forward clock. */
  lemma {:induction false} EvictionTransparent(c: Config, ops: seq<Op>)
    requires c.limits.Valid() && c.limits.capacity <= Gain(c.limits.rate, c.ttl + 1)
    requires ClockForward(ops)
    ensures Decisions(c, map[], ops, true) == Decisions(c, map[], ops, false)
    ensures Hidden(c, After(c, map[], ops, true), After(c, map[], ops, false),
                   if ops == [] then 0 else ops[|ops| - 1].now)
  {
    if ops != [] {
      var n := |ops| - 1;
      var front := ops[..n];
      EvictionTransparent(c, front);
      HiddenStep(c, After(c, map[], front, true), After(c, map[], front, false), ops[n],
                 if n == 0 then 0 else front[n - 1].now);
    }
  }

  function Repeat(issuer: string, now: u32, n: nat): seq<Op> {
    seq(n, _ => Check(issuer, now))
  }

  /** Checking one bucket `n` times in one second takes `n` whole tokens while they last. */
  lemma {:induction false} DrainRepeat(c: Config, m: Buckets, issuer: string, now: u32, n: nat, e: bool)
    requires c.limits.Valid()
    requires Whole(Fetch(c.limits, m, issuer, now)) && Fetch(c.limits, m, issuer, now).tokens <= c.limits.capacity
    ensures var t := Accrued(c.limits, Fetch(c.limits, m, issuer, now), now);
            n > 0 ==>
              && issuer in After(c, m, Repeat(issuer, now, n), e)
              && After(c, m, Repeat(issuer, now, n), e)[issuer] == Level(now, SatSub(t, MILLI * n))
              && Decisions(c, m, Repeat(issuer, now, n), e)[n - 1] == (t >= MILLI * n)
  {
    if n > 0 {
      var b := Fetch(c.limits, m, issuer, now);
      WholeStep(c.limits, b, now);
      DrainRepeat(c, m, issuer, now, n - 1, e);
      var ops := Repeat(issuer, now, n - 1);
      assert Repeat(issuer, now, n) == ops + [Check(issuer, now)];
      DrainLevel(c.limits, b, now, n - 1);
      DrainOne(c, m, ops, issuer, now, e, After(c, m, ops, e), Accrued(c.limits, b, now), n - 1);
    }
  }

  /** What is left of a whole bucket after `k` tokens. */
  lemma DrainLevel(l: Limits, b: Level, now: nat, k: nat)
    requires l.Valid() && b.tokens <= l.capacity
    ensures var t := Accrued(l, b, now);
            && (k == 0 ==> SatSub(t, MILLI * k) == t)
            && Accrued(l, Level(now, SatSub(t, MILLI * k)), now) == SatSub(t, MILLI * k)
  {
  }

  lemma DrainOne(c: Config, m: Buckets, ops: seq<Op>, issuer: string, now: u32, e: bool, mid: Buckets, t: nat, k: nat)
    requires c.limits.Valid() && mid == After(c, m, ops, e) && t % MILLI == 0
    requires Accrued(c.limits, Fetch(c.limits, mid, issuer, now), now) == SatSub(t, MILLI * k)
    ensures var all := ops + [Check(issuer, now)];
            && issuer in After(c, m, all, e)
            && After(c, m, all, e)[issuer] == Level(now, SatSub(t, MILLI * (k + 1)))
            && Decisions(c, m, all, e)[|ops|] == (t >= MILLI * (k + 1))
  {
    AppendOp(c, m, ops, Check(issuer, now), e);
    TakeOne(t, k);
  }

  lemma TakeOne(t: nat, k: nat)
    requires t % MILLI == 0
    ensures var left := SatSub(t, MILLI * k);
            && (left >= MILLI <==> t >= MILLI * (k + 1))
            && SatSub(t, MILLI * (k + 1)) == if left >= MILLI then left - MILLI else left
  {
  }

  /** A new issuer's checks in one second: as many are granted as the configured burst, and no more. */
  lemma {:induction false} NewIssuerBurst(c: Config, burst: u32, perSecond: u32, m: Buckets, issuer: string,
                                          now: u32, k: nat, e: bool)
    requires c.limits == NewLimits(burst, perSecond) && issuer !in m && k > 0
    ensures Decisions(c, m, Repeat(issuer, now, k), e)[k - 1] <==> k <= Max(1, Min(burst, 4294967))
  {
    WholeTokens(Max(1, Min(burst, 4294967)), k);
    DrainRepeat(c, m, issuer, now, k, e);
  }

  lemma WholeTokens(n: nat, k: nat)
    ensures (1000 * n) % 1000 == 0 && (1000 * n >= MILLI * k <==> k <= n)
  {
  }

  /** `d` seconds after that burst, as many are granted as the configured rate regains. */
  lemma {:induction false} NewIssuerRefill(c: Config, burst: u32, perSecond: u32, m: Buckets, issuer: string,
                                           now: u32, n: nat, later: u32, k: nat, e: bool)
    requires c.limits == NewLimits(burst, perSecond) && issuer !in m && k > 0 && now <= later
    requires n == Max(1, Min(burst, 4294967))
    ensures var drained := After(c, m, Repeat(issuer, now, n), e);
            Decisions(c, drained, Repeat(issuer, later, k), e)[k - 1] <==>
              k <= Min(n, Gain(Max(1, Min(perSecond, 4294967)), later - now))
  {
    BurstEmpties(c, m, issuer, now, n, e);
    EmptyRefills(c, After(c, m, Repeat(issuer, now, n), e), issuer, now, later, k, n,
                 Max(1, Min(perSecond, 4294967)), e);
  }

  lemma BurstEmpties(c: Config, m: Buckets, issuer: string, now: u32, n: nat, e: bool)
    requires issuer !in m && n > 0 && c.limits.Valid() && c.limits.capacity == 1000 * n
    ensures var drained := After(c, m, Repeat(issuer, now, n), e);
            issuer in drained && drained[issuer] == Level(now, 0)
  {
    WholeTokens(n, n);
    DrainRepeat(c, m, issuer, now, n, e);
  }

  lemma EmptyRefills(c: Config, m: Buckets, issuer: string, now: u32, later: u32, k: nat, n: nat, r: nat, e: bool)
    requires c.limits.Valid() && c.limits.capacity == 1000 * n && c.limits.rate == 1000 * r
    requires issuer in m && m[issuer] == Level(now, 0) && k > 0 && now <= later
    ensures Decisions(c, m, Repeat(issuer, later, k), e)[k - 1] <==> k <= Min(n, Gain(r, later - now))
  {
    GainThousand(r, later - now);
    TokensTaken(n, Gain(r, later - now), k);
    DrainRepeat(c, m, issuer, later, k, e);
  }

  lemma {:induction false} GainThousand(r: nat, d: nat)
    ensures Gain(1000 * r, d) == 1000 * Gain(r, d)
  {
    if d > 0 {
      GainThousand(r, d - 1);
    }
  }

  lemma TokensTaken(n: nat, x: nat, k: nat)
    ensures Min(1000 * n, 1000 * x) >= MILLI * k <==> k <= Min(n, x)
  {
  }

  // ---------- Which issuers are still tracked ----------

  /** The last check of the issuer is at `p`, and no later eviction came more than a TTL after it. */
  ghost predicate StaysFrom(c: Config, ops: seq<Op>, p: nat, issuer: string) {
    && p < |ops| && ops[p].Check? && ops[p].issuer == issuer
    && (forall q :: p < q < |ops| && ops[q].Check? ==> ops[q].issuer != issuer)
    && (forall q :: p < q < |ops| && ops[q].Evict? ==> ops[q].now <= ops[p].now + c.ttl)
  }

  lemma {:induction false} TrackedStays(c: Config, ops: seq<Op>, issuer: string) returns (p: nat)
    requires issuer in After(c, map[], ops, true)
    ensures StaysFrom(c, ops, p, issuer) && After(c, map[], ops, true)[issuer].last == ops[p].now
  {
    var n := |ops| - 1;
    if ops[n].Check? && ops[n].issuer == issuer {
      p := n;
    } else {
      p := TrackedStays(c, ops[..n], issuer);
    }
  }

  lemma {:induction false} StaysTracked(c: Config, ops: seq<Op>, issuer: string, p: nat)
    requires StaysFrom(c, ops, p, issuer)
    ensures issuer in After(c, map[], ops, true) && After(c, map[], ops, true)[issuer].last == ops[p].now
  {
    var n := |ops| - 1;
    if p < n {
      assert StaysFrom(c, ops[..n], p, issuer);
      StaysTracked(c, ops[..n], issuer, p);
    }
  }

  /** After every run, an issuer is tracked exactly when no eviction came more than a TTL after its last check. */
  lemma {:induction false} TrackedIff(c: Config, ops: seq<Op>, issuer: string)
    ensures issuer in After(c, map[], ops, true) <==> exists p: nat :: StaysFrom(c, ops, p, issuer)
  {
    if issuer in After(c, map[], ops, true) {
      var p := TrackedStays(c, ops, issuer);
    }
    if p: nat :| StaysFrom(c, ops, p, issuer) {
      StaysTracked(c, ops, issuer, p);
    }
  }

  lemma AppendOp(c: Config, m: Buckets, ops: seq<Op>, op: Op, e: bool)
    ensures After(c, m, ops + [op], e) == Step(c, After(c, m, ops, e), op, e)
    ensures Decisions(c, m, ops + [op], e) == Decisions(c, m, ops, e) + [Decide(c, After(c, m, ops, e), op)]
  {
    assert (ops + [op])[..|ops|] == ops;
  }

  lemma {:induction false} RunSplits(c: Config, m: Buckets, xs: seq<Op>, ys: seq<Op>, e: bool, mid: Buckets)
    requires mid == After(c, m, xs, e)
    ensures After(c, m, xs + ys, e) == After(c, mid, ys, e)
    ensures Decisions(c, m, xs + ys, e) == Decisions(c, m, xs, e) + Decisions(c, mid, ys, e)
  {
    if ys == [] {
      assert xs + ys == xs;
    } else {
      var front, op := ys[..|ys| - 1], ys[|ys| - 1];
      assert ys == front + [op];
      RunSplits(c, m, xs, front, e, mid);
      SplitOneMoreOp(c, m, xs, front, op, e, mid);
    }
  }

  lemma SplitOneMoreOp(c: Config, m: Buckets, xs: seq<Op>, front: seq<Op>, op: Op, e: bool, mid: Buckets)
    requires After(c, m, xs + front, e) == After(c, mid, front, e)
    requires Decisions(c, m, xs + front, e) == Decisions(c, m, xs, e) + Decisions(c, mid, front, e)
    ensures After(c, m, xs + (front + [op]), e) == After(c, mid, front + [op], e)
    ensures Decisions(c, m, xs + (front + [op]), e) == Decisions(c, m, xs, e) + Decisions(c, mid, front + [op], e)
  {
    Regroup(xs, front, op);
    AppendOp(c, m, xs + front, op, e);
    AppendOp(c, mid, front, op, e);
    Regroup(Decisions(c, m, xs, e), Decisions(c, mid, front, e), Decide(c, After(c, mid, front, e), op));
  }

  /** Exhaust a bucket of `n` tokens, let it be evicted, and exhaust it again. */
  function Probe(c: Config, n: nat): seq<Op>
    requires c.ttl + 1 < U32_LIMIT
  {
    Repeat("a", 0, n) + [Evict(c.ttl + 1)] + Repeat("a", c.ttl + 1, n)
  }

  lemma ProbeShows(c: Config, n: nat)
    requires c.limits.Valid() && c.limits.capacity == MILLI * n
    requires c.limits.capacity > Gain(c.limits.rate, c.ttl + 1)
    ensures c.ttl + 1 < U32_LIMIT && ClockForward(Probe(c, n))
    ensures Decisions(c, map[], Probe(c, n), true) != Decisions(c, map[], Probe(c, n), false)
  {
    ProbeFits(c);
    ProbeForward(c, n);
    ProbeEnd(c, n, true);
    ProbeEnd(c, n, false);
  }

  lemma ProbeFits(c: Config)
    requires c.limits.Valid() && c.limits.capacity > Gain(c.limits.rate, c.ttl + 1)
    ensures c.ttl + 1 < U32_LIMIT
  {
    GainIsProduct(c.limits.rate, c.ttl + 1);
    MulMono(MILLI, c.limits.rate, c.ttl + 1);
  }

  lemma ProbeForward(c: Config, n: nat)
    requires c.ttl + 1 < U32_LIMIT
    ensures ClockForward(Probe(c, n))
  {
  }

  lemma ProbeSize(c: Config, n: nat)
    requires c.limits.Valid() && c.limits.capacity == MILLI * n
    ensures n > 0
  {
  }

  lemma ProbeEnd(c: Config, n: nat, e: bool)
    requires c.limits.Valid() && c.limits.capacity == MILLI * n && c.ttl + 1 < U32_LIMIT
    ensures |Probe(c, n)| == 2 * n + 1 && n > 0
    ensures Decisions(c, map[], Probe(c, n), e)[2 * n] == (e || Gain(c.limits.rate, c.ttl + 1) >= c.limits.capacity)
  {
    var xs, ys := ProbeHalves(c, n);
    var m := After(c, map[], xs, e);
    ProbeSize(c, n);
    AfterEviction(c, n, e);
    SecondDrain(c, n, m, e);
    LastDecided(c, map[], xs, ys, e, m, 2 * n);
  }

  lemma ProbeHalves(c: Config, n: nat) returns (xs: seq<Op>, ys: seq<Op>)
    requires c.ttl + 1 < U32_LIMIT
    ensures xs == Repeat("a", 0, n) + [Evict(c.ttl + 1)] && ys == Repeat("a", c.ttl + 1, n)
    ensures |xs| == n + 1 && |ys| == n && Probe(c, n) == xs + ys
  {
    xs, ys := Repeat("a", 0, n) + [Evict(c.ttl + 1)], Repeat("a", c.ttl + 1, n);
  }

  lemma LastDecided(c: Config, m: Buckets, xs: seq<Op>, ys: seq<Op>, e: bool, mid: Buckets, i: nat)
    requires ys != [] && mid == After(c, m, xs, e) && i == |xs| + |ys| - 1
    ensures Decisions(c, m, xs + ys, e)[i] == Decisions(c, mid, ys, e)[|ys| - 1]
  {
    RunSplits(c, m, xs, ys, e, mid);
  }

  lemma SecondDrain(c: Config, n: nat, m: Buckets, e: bool)
    requires c.limits.Valid() && c.limits.capacity == MILLI * n && n > 0 && c.ttl + 1 < U32_LIMIT
    requires if e then "a" !in m else "a" in m && m["a"] == Level(0, 0)
    ensures Decisions(c, m, Repeat("a", c.ttl + 1, n), e)[n - 1]
            == (e || Gain(c.limits.rate, c.ttl + 1) >= c.limits.capacity)
  {
    DrainRepeat(c, m, "a", c.ttl + 1, n, e);
  }

  lemma AfterEviction(c: Config, n: nat, e: bool)
    requires c.limits.Valid() && c.limits.capacity == MILLI * n && c.ttl + 1 < U32_LIMIT
    ensures var m := After(c, map[], Repeat("a", 0, n) + [Evict(c.ttl + 1)], e);
            if e then "a" !in m else "a" in m && m["a"] == Level(0, 0)
  {
    DrainRepeat(c, map[], "a", 0, n, e);
    AppendOp(c, map[], Repeat("a", 0, n), Evict(c.ttl + 1), e);
  }

  /**
   The exact condition: eviction is invisible in every run with a forward clock if and only
   if the capacity is at most what the bucket regains in TTL + 1 seconds, the shortest
   absence that makes it stale.
   */
  lemma {:induction false} EvictionInvisibleIff(c: Config)
    requires c.limits.Valid()
    ensures (forall ops :: ClockForward(ops) ==>
               Decisions(c, map[], ops, true) == Decisions(c, map[], ops, false))
            <==> c.limits.capacity <= c.limits.rate * (c.ttl + 1)
  {
    GainIsProduct(c.limits.rate, c.ttl + 1);
    if c.limits.capacity <= Gain(c.limits.rate, c.ttl + 1) {
      forall ops | ClockForward(ops)
        ensures Decisions(c, map[], ops, true) == Decisions(c, map[], ops, false)
      {
        EvictionTransparent(c, ops);
      }
    } else {
      ProbeShows(c, c.limits.capacity / MILLI);
    }
  }

  // ---------- Issuers do not affect each other ----------

  predicate Concerns(op: Op, issuer: string) { op.Evict? || op.issuer == issuer }

  function Mask(ops: seq<Op>, issuer: string): seq<bool> {
    seq(|ops|, i requires 0 <= i < |ops| => Concerns(ops[i], issuer))
  }

  ghost predicate SameFor(m: Buckets, m': Buckets, issuer: string) {
    (issuer in m <==> issuer in m') && (issuer in m ==> m[issuer] == m'[issuer])
  }

  /** Dropping every other issuer's calls leaves an issuer's bucket and decisions as they were. */
  lemma {:induction false} IssuersIndependent(c: Config, m: Buckets, ops: seq<Op>, issuer: string, e: bool)
    ensures var own := Kept(ops, Mask(ops, issuer));
            && SameFor(After(c, m, ops, e), After(c, m, own, e), issuer)
            && Decisions(c, m, own, e) == Kept(Decisions(c, m, ops, e), Mask(ops, issuer))
  {
    if ops != [] {
      var n := |ops| - 1;
      var front, op := ops[..n], ops[n];
      IssuersIndependent(c, m, front, issuer, e);
      assert ops == front + [op] && Mask(ops, issuer) == Mask(front, issuer) + [Concerns(op, issuer)];
      IndependentStep(c, m, front, op, issuer, e, Mask(front, issuer), Kept(front, Mask(front, issuer)));
    }
  }

  lemma IndependentStep(c: Config, m: Buckets, front: seq<Op>, op: Op, issuer: string, e: bool,
                        mask: seq<bool>, own: seq<Op>)
    requires |mask| == |front| && own == Kept(front, mask)
    requires SameFor(After(c, m, front, e), After(c, m, own, e), issuer)
    requires Decisions(c, m, own, e) == Kept(Decisions(c, m, front, e), mask)
    ensures var k := Concerns(op, issuer);
            var all := Kept(front + [op], mask + [k]);
            && SameFor(After(c, m, front + [op], e), After(c, m, all, e), issuer)
            && Decisions(c, m, all, e) == Kept(Decisions(c, m, front + [op], e), mask + [k])
  {
    var k := Concerns(op, issuer);
    AppendOp(c, m, front, op, e);
    SameStep(c, After(c, m, front, e), After(c, m, own, e), op, issuer, e);
    KeptAppend(front, mask, op, k);
    KeptAppend(Decisions(c, m, front, e), mask, Decide(c, After(c, m, front, e), op), k);
    if k {
      AppendOp(c, m, own, op, e);
    } else {
      assert Kept(front + [op], mask + [k]) == own;
    }
  }

  lemma SameStep(c: Config, m: Buckets, m': Buckets, op: Op, issuer: string, e: bool)
    requires SameFor(m, m', issuer)
    ensures Concerns(op, issuer) ==> Decide(c, m, op) == Decide(c, m', op)
    ensures Concerns(op, issuer) ==> SameFor(Step(c, m, op, e), Step(c, m', op, e), issuer)
    ensures !Concerns(op, issuer) ==> SameFor(Step(c, m, op, e), m', issuer)
  {
  }
}
