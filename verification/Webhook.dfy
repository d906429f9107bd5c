/**
 The webhook dispatcher of `src/webhook.rs`: deduplication through the cache, a bounded
 retry loop per URL, and a dead-letter queue that drops its oldest entries. The network, the
 clock, the jitter source and the JSON codec are oracles.
 */
module Webhook {
  import opened Common
  import opened Ints
  import opened Cache
  import opened CacheRuns

  datatype Event = Event(id: string, idempotencyKey: string)

  datatype Reply = Delivered | Refused(error: string)

  datatype DeadLetter = DeadLetter(url: string, event: Event, attempts: u32, lastError: string)

  /** One HTTP request, with the time slept before it. */
  datatype Request = Request(url: string, event: Event, attempt: nat, waited: u64)

  datatype Config = Config(urls: seq<string>, maxRetries: u32, baseDelay: u64, maxDelay: u64,
                           jitter: bool, ttl: u64, cached: bool, limit: nat)

  /** `net` and `noise` by number of the request, `clock` by number of the cache access. */
  datatype World = World(net: nat -> Reply, noise: nat -> u64, clock: nat -> u64,
                         encode: DeadLetter -> string, decode: string -> Option<DeadLetter>)

  const MAX_DLQ_DEPTH: nat := 10_000
  const DLQ_TTL: u64 := 604800
  const DLQ_PREFIX := "webhook:dlq:"
  const DEDUP_PREFIX := "webhook:dedup:"

  function DedupKey(key: string): CacheKey { CacheKey.Events(DEDUP_PREFIX + key) }

  function DlqKey(url: string): CacheKey { CacheKey.Events(DLQ_PREFIX + url) }

  // ---------- Backoff ----------

  function Pow2(n: nat): nat { if n == 0 then 1 else 2 * Pow2(n - 1) }

  lemma {:induction false} Pow2Fits(n: nat)
    requires n <= 20
    ensures 1 <= Pow2(n) < U64_LIMIT
  {
    assert Pow2(5) == 32;
    assert Pow2(10) == 32 * Pow2(5);
    assert Pow2(15) == 32 * Pow2(10);
    assert Pow2(20) == 32 * Pow2(15);
    Pow2Mono(n, 20);
  }

  lemma {:induction false} Pow2Mono(m: nat, n: nat)
    requires m <= n
    ensures 1 <= Pow2(m) <= Pow2(n)
  {
    if m < n {
      Pow2Mono(m, n - 1);
    } else if n > 0 {
      Pow2Mono(m - 1, n - 1);
    }
  }

  /** The exponent stops growing at 20 and the product saturates. */
  function Capped(c: Config, attempt: nat): u64 {
    Pow2Fits(Min(attempt, 20));
    Min(SatMul64(c.baseDelay, Pow2(Min(attempt, 20))), c.maxDelay)
  }

  function Jitter(max: u64, noise: u64): u64 { if max == 0 then 0 else noise % max }

  function BackoffDelay(c: Config, attempt: nat, noise: u64): u64 {
    var capped := Capped(c, attempt);
    if c.jitter then SatAdd64(capped, Jitter(capped / 4, noise)) else capped
  }

  /** Without jitter delays double until the cap or the twentieth retry, and never shrink. */
  lemma {:induction false} BackoffDoubles(c: Config, n: nat)
    ensures Capped(c, n) <= Capped(c, n + 1) <= c.maxDelay
    ensures n < 20 ==> Capped(c, n + 1) == Min(c.maxDelay, 2 * Capped(c, n))
    ensures Capped(c, 0) == Min(c.maxDelay, c.baseDelay)
    ensures n >= 20 ==> Capped(c, n) == Capped(c, 20)
  {
    Pow2Fits(Min(n, 20));
    Pow2Fits(Min(n + 1, 20));
    if n < 20 {
      ScaleDoubles(c.baseDelay, Pow2(n), c.maxDelay);
    }
    assert Pow2(0) == 1;
    ScaleOne(c.baseDelay);
  }

  lemma ScaleOne(x: u64)
    ensures SatMul64(x, 1) == x
  {
  }

  lemma ScaleDoubles(x: u64, p: u64, cap: u64)
    requires 2 * p < U64_LIMIT
    ensures Min(SatMul64(x, 2 * p), cap) == Min(cap, 2 * Min(SatMul64(x, p), cap))
  {
    var y := x * p;
    assert x * (2 * p) == 2 * y;
  }

  /** Jitter adds less than a quarter, and takes nothing away. */
  lemma JitterBounded(c: Config, attempt: nat, noise: u64)
    ensures Capped(c, attempt) <= BackoffDelay(c, attempt, noise) <= Capped(c, attempt) + Capped(c, attempt) / 4
    ensures !c.jitter ==> BackoffDelay(c, attempt, noise) == Capped(c, attempt)
  {
  }

  // ---------- One delivery ----------

  /** Requests made from number `from` on, given at most `left`: up to and including the first success. */
  function Tries(w: World, from: nat, left: nat): nat
    decreases left
  {
    if left == 0 then 0
    else if w.net(from).Delivered? then 1
    else 1 + Tries(w, from + 1, left - 1)
  }

  predicate Lost(w: World, from: nat, left: nat) {
    forall i :: from <= i < from + left ==> w.net(i).Refused?
  }

  /** The loop stops at the first success and otherwise uses every attempt. */
  lemma {:induction false} TriesStops(w: World, from: nat, left: nat)
    ensures Tries(w, from, left) <= left && (left > 0 ==> Tries(w, from, left) >= 1)
    ensures forall i :: from <= i < from + Tries(w, from, left) - 1 ==> w.net(i).Refused?
    ensures Lost(w, from, left) ==> Tries(w, from, left) == left
    ensures !Lost(w, from, left) ==> w.net(from + Tries(w, from, left) - 1).Delivered?
    decreases left
  {
    if left > 0 && w.net(from).Refused? {
      TriesStops(w, from + 1, left - 1);
    }
  }

  lemma {:induction false} FirstSuccess(w: World, from: nat, left: nat, n: nat)
    requires n < left && Lost(w, from, n) && w.net(from + n).Delivered?
    ensures Tries(w, from, left) == n + 1 && !Lost(w, from, left)
    decreases n
  {
    if n > 0 {
      assert w.net(from).Refused?;
      FirstSuccess(w, from + 1, left - 1, n - 1);
    }
  }

  function Budget(c: Config): nat { c.maxRetries + 1 }

  function Waited(w: World, c: Config, from: nat, attempt: nat): u64 {
    if attempt == 0 then 0 else BackoffDelay(c, attempt - 1, w.noise(from + attempt))
  }

  function Sends(w: World, c: Config, url: string, ev: Event, from: nat, n: nat): seq<Request> {
    seq(n, i requires 0 <= i < n => Request(url, ev, i, Waited(w, c, from, i)))
  }

  lemma SendsGrow(w: World, c: Config, url: string, ev: Event, from: nat, n: nat, waited: u64)
    requires waited == if n == 0 then 0 else BackoffDelay(c, n - 1, w.noise(from + n))
    ensures Sends(w, c, url, ev, from, n + 1) == Sends(w, c, url, ev, from, n) + [Request(url, ev, n, waited)]
  {
  }

  function LastError(w: World, c: Config, from: nat): string {
    match w.net(from + c.maxRetries) case Refused(e) => e case Delivered => ""
  }

  function Letter(w: World, c: Config, url: string, ev: Event, from: nat): DeadLetter {
    DeadLetter(url, ev, (c.maxRetries + 1) % U32_LIMIT, LastError(w, c, from))
  }

  /** Drop the oldest entry when full, then append. */
  function Push(q: seq<DeadLetter>, e: DeadLetter): seq<DeadLetter> {
    (if |q| >= MAX_DLQ_DEPTH then q[1..] else q) + [e]
  }

  /** Cache operations so far, the in-memory queue, and the requests made. */
  datatype Desk = Desk(ops: seq<Op>, dlq: seq<DeadLetter>, requests: seq<Request>)

  const IDLE := Desk([], [], [])

  function Lookup(w: World, ops: seq<Op>, k: CacheKey): Op { DoGet(k, w.clock(|ops|)) }

  function Write(w: World, ops: seq<Op>, k: CacheKey, value: string, ttl: u64): Op {
    DoSet(Item(k, value, ttl, w.clock(|ops|)))
  }

  /** Counting the persisted entries looks every URL up. */
  function CountDepth(w: World, ops: seq<Op>, urls: seq<string>): seq<Op> {
    if urls == [] then ops
    else
      var prev := CountDepth(w, ops, urls[..|urls| - 1]);
      prev + [Lookup(w, prev, DlqKey(urls[|urls| - 1]))]
  }

  /** With a cache the entry goes there, one slot per URL; otherwise into the queue. */
  function Bury(w: World, c: Config, d: Desk, e: DeadLetter): Desk {
    if c.cached then
      d.(ops := CountDepth(w, d.ops + [Write(w, d.ops, DlqKey(e.url), w.encode(e), DLQ_TTL)], c.urls))
    else d.(dlq := Push(d.dlq, e))
  }

  function Deliver(w: World, c: Config, d: Desk, url: string, ev: Event): Desk {
    var from := |d.requests|;
    var d1 := d.(requests := d.requests + Sends(w, c, url, ev, from, Tries(w, from, Budget(c))));
    if Lost(w, from, Budget(c)) then Bury(w, c, d1, Letter(w, c, url, ev, from)) else d1
  }

  function DeliverAll(w: World, c: Config, d: Desk, urls: seq<string>, ev: Event): Desk {
    if urls == [] then d
    else Deliver(w, c, DeliverAll(w, c, d, urls[..|urls| - 1], ev), urls[|urls| - 1], ev)
  }

  lemma DeliverNext(w: World, c: Config, d: Desk, urls: seq<string>, ev: Event, i: nat)
    requires i < |urls|
    ensures DeliverAll(w, c, d, urls[..i + 1], ev) == Deliver(w, c, DeliverAll(w, c, d, urls[..i], ev), urls[i], ev)
  {
    assert urls[..i + 1][..i] == urls[..i];
  }

  // ---------- Dispatch and drain ----------

  /** Whether a dispatch gets past the deduplication check. */
  predicate Reaches(w: World, c: Config, d: Desk, ev: Event) {
    c.cached ==> Answer(After(d.ops, c.limit), DedupKey(ev.idempotencyKey), w.clock(|d.ops|)).None?
  }

  function Looked(w: World, d: Desk, ev: Event): Desk {
    d.(ops := d.ops + [Lookup(w, d.ops, DedupKey(ev.idempotencyKey))])
  }

  function Marked(w: World, c: Config, d: Desk, ev: Event): Desk {
    d.(ops := d.ops + [Write(w, d.ops, DedupKey(ev.idempotencyKey), "delivered", c.ttl)])
  }

  function Dispatch(w: World, c: Config, d: Desk, ev: Event): Desk {
    if c.urls == [] then d
    else if !c.cached then DeliverAll(w, c, d, c.urls, ev)
    else if !Reaches(w, c, d, ev) then Looked(w, d, ev)
    else DeliverAll(w, c, Marked(w, c, Looked(w, d, ev), ev), c.urls, ev)
  }

  function DrainOne(w: World, ops: seq<Op>, url: string): seq<Op> {
    var looked := ops + [Lookup(w, ops, DlqKey(url))];
    looked + [DoDelete(DlqKey(url), w.clock(|looked|))]
  }

  function DrainOps(w: World, ops: seq<Op>, urls: seq<string>): seq<Op> {
    if urls == [] then ops else DrainOne(w, DrainOps(w, ops, urls[..|urls| - 1]), urls[|urls| - 1])
  }

  /** What looking one slot up yields: unreadable entries are skipped. */
  function Recovered(w: World, c: Config, ops: seq<Op>, url: string): seq<DeadLetter> {
    match Answer(After(ops, c.limit), DlqKey(url), w.clock(|ops|))
    case None => []
    case Some(raw) => (match w.decode(raw) case Some(e) => [e] case None => [])
  }

  function RecoveredAll(w: World, c: Config, ops: seq<Op>, urls: seq<string>): seq<DeadLetter> {
    if urls == [] then []
    else
      var front := urls[..|urls| - 1];
      RecoveredAll(w, c, ops, front) + Recovered(w, c, DrainOps(w, ops, front), urls[|urls| - 1])
  }

  function Drained(w: World, c: Config, d: Desk): Desk {
    if c.cached then d.(ops := DrainOps(w, d.ops, c.urls)) else d.(dlq := [])
  }

  function Taken(w: World, c: Config, d: Desk): seq<DeadLetter> {
    if c.cached then RecoveredAll(w, c, d.ops, c.urls) else d.dlq
  }

  datatype Command = Publish(event: Event) | Drain

  function Step(w: World, c: Config, d: Desk, cmd: Command): Desk {
    match cmd
    case Publish(ev) => Dispatch(w, c, d, ev)
    case Drain => Drained(w, c, d)
  }

  function Run(w: World, c: Config, cmds: seq<Command>): Desk {
    if cmds == [] then IDLE else Step(w, c, Run(w, c, cmds[..|cmds| - 1]), cmds[|cmds| - 1])
  }

  // ---------- The object ----------

  class WebhookDispatcher {
    const w: World
    const c: Config
    const cache: InMemoryCache?
    var dlq: seq<DeadLetter>
    var requests: seq<Request>
    var ticks: nat
    ghost var ops: seq<Op>

    ghost predicate Valid()
      reads this, cache
    {
      && (c.cached <==> cache != null)
      && ticks == |ops|
      && (cache != null ==> cache.maxSize == c.limit && cache.Valid() && cache.View() == After(ops, c.limit))
    }

    ghost function View(): Desk
      reads this
    {
      Desk(ops, dlq, requests)
    }

    constructor (w: World, c: Config)
      ensures Valid() && View() == IDLE && this.w == w && this.c == c
      ensures cache != null ==> fresh(cache)
    {
      this.w, this.c := w, c;
      dlq, requests, ticks, ops := [], [], 0, [];
      if c.cached {
        var memory := new InMemoryCache(c.limit);
        cache := memory;
      } else {
        cache := null;
      }
    }

    method CacheGet(k: CacheKey) returns (value: Option<string>)
      requires Valid() && c.cached
      modifies this`ticks, this`ops, cache
      ensures Valid() && View() == old(View()).(ops := old(ops) + [Lookup(w, old(ops), k)])
      ensures value == Answer(After(old(ops), c.limit), k, w.clock(|old(ops)|))
    {
      var now, wasExpired := w.clock(ticks), false;
      value, wasExpired := cache.GetRaw(k, now);
      ticks := ticks + 1;
      ops := ops + [DoGet(k, now)];
      assert ops[..|ops| - 1] == old(ops);
    }

    method CacheSet(k: CacheKey, value: string, ttl: u64)
      requires Valid() && c.cached
      modifies this`ticks, this`ops, cache
      ensures Valid() && View() == old(View()).(ops := old(ops) + [Write(w, old(ops), k, value, ttl)])
    {
      var now := w.clock(ticks);
      cache.SetRaw(k, value, ttl, now);
      ticks := ticks + 1;
      ops := ops + [DoSet(Item(k, value, ttl, now))];
      assert ops[..|ops| - 1] == old(ops);
    }

    method CacheDelete(k: CacheKey)
      requires Valid() && c.cached
      modifies this`ticks, this`ops, cache
      ensures Valid() && View() == old(View()).(ops := old(ops) + [DoDelete(k, w.clock(|old(ops)|))])
    {
      cache.DeleteKey(k);
      ops := ops + [DoDelete(k, w.clock(ticks))];
      ticks := ticks + 1;
      assert ops[..|ops| - 1] == old(ops);
    }

    method DispatchEvent(ev: Event)
      requires Valid()
      modifies this, cache
      ensures Valid() && View() == Dispatch(w, c, old(View()), ev)
    {
      if |c.urls| == 0 { return; }
      if cache != null {
        var seen := CacheGet(DedupKey(ev.idempotencyKey));
        if seen.Some? { return; }
        CacheSet(DedupKey(ev.idempotencyKey), "delivered", c.ttl);
      }
      DeliverToEach(ev);
    }

    method DeliverToEach(ev: Event)
      requires Valid()
      modifies this, cache
      ensures Valid() && View() == DeliverAll(w, c, old(View()), c.urls, ev)
    {
      var i := 0;
      while i < |c.urls|
        invariant 0 <= i <= |c.urls|
        invariant Valid() && View() == DeliverAll(w, c, old(View()), c.urls[..i], ev)
      {
        DeliverNext(w, c, old(View()), c.urls, ev, i);
        DeliverWithRetry(c.urls[i], ev);
        i := i + 1;
      }
      assert c.urls[..i] == c.urls;
    }

    method DeliverWithRetry(url: string, ev: Event)
      requires Valid()
      modifies this, cache
      ensures Valid() && View() == Deliver(w, c, old(View()), url, ev)
    {
      var delivered, lastError := SendUntilDelivered(url, ev);
      if delivered { return; }
      Persist(DeadLetter(url, ev, (c.maxRetries + 1) % U32_LIMIT, lastError));
    }

    /** The attempt loop. */
    method SendUntilDelivered(url: string, ev: Event) returns (delivered: bool, lastError: string)
      requires Valid()
      modifies this`requests
      ensures Valid()
      ensures var from := |old(requests)|;
              && requests == old(requests) + Sends(w, c, url, ev, from, Tries(w, from, Budget(c)))
              && (delivered <==> !Lost(w, from, Budget(c)))
              && (!delivered ==> lastError == LastError(w, c, from))
    {
      ghost var from := |requests|;
      lastError := "no attempts made";
      var attempt := 0;
      while attempt <= c.maxRetries
        invariant 0 <= attempt <= c.maxRetries + 1
        invariant requests == old(requests) + Sends(w, c, url, ev, from, attempt)
        invariant Lost(w, from, attempt)
        invariant attempt == c.maxRetries + 1 ==> lastError == LastError(w, c, from)
      {
        var reply := SendOnce(url, ev, attempt, old(requests));
        if reply.Delivered? {
          FirstSuccess(w, from, Budget(c), attempt);
          return true, "";
        }
        lastError := reply.error;
        attempt := attempt + 1;
      }
      TriesStops(w, from, Budget(c));
      return false, lastError;
    }

    /** The pause before a retry, then one request. */
    method SendOnce(url: string, ev: Event, attempt: nat, ghost before: seq<Request>) returns (reply: Reply)
      requires Valid() && requests == before + Sends(w, c, url, ev, |before|, attempt)
      modifies this`requests
      ensures Valid() && requests == before + Sends(w, c, url, ev, |before|, attempt + 1)
      ensures reply == w.net(|before| + attempt)
    {
      var waited: u64 := 0;
      if attempt > 0 {
        waited := BackoffDelay(c, attempt - 1, w.noise(|requests|));
      }
      reply := w.net(|requests|);
      assert |requests| == |before| + attempt;
      SendsGrow(w, c, url, ev, |before|, attempt, waited);
      requests := requests + [Request(url, ev, attempt, waited)];
    }

    method Persist(entry: DeadLetter)
      requires Valid()
      modifies this, cache
      ensures Valid() && View() == Bury(w, c, old(View()), entry)
    {
      if cache != null {
        CacheSet(DlqKey(entry.url), w.encode(entry), DLQ_TTL);
        CountPersisted();
      } else {
        if |dlq| >= MAX_DLQ_DEPTH { dlq := dlq[1..]; }
        dlq := dlq + [entry];
      }
    }

    method CountPersisted()
      requires Valid() && c.cached
      modifies this`ticks, this`ops, cache
      ensures Valid() && View() == old(View()).(ops := CountDepth(w, old(ops), c.urls))
    {
      var i := 0;
      while i < |c.urls|
        invariant 0 <= i <= |c.urls|
        invariant Valid() && View() == old(View()).(ops := CountDepth(w, old(ops), c.urls[..i]))
      {
        assert c.urls[..i + 1][..i] == c.urls[..i];
        var _ := CacheGet(DlqKey(c.urls[i]));
        i := i + 1;
      }
      assert c.urls[..i] == c.urls;
    }

    method DrainSlot(url: string) returns (found: seq<DeadLetter>)
      requires Valid() && c.cached
      modifies this`ticks, this`ops, cache
      ensures Valid() && View() == old(View()).(ops := DrainOne(w, old(ops), url))
      ensures found == Recovered(w, c, old(ops), url)
    {
      found := [];
      var raw := CacheGet(DlqKey(url));
      if raw.Some? {
        var entry := w.decode(raw.value);
        if entry.Some? { found := [entry.value]; }
      }
      CacheDelete(DlqKey(url));
    }

    method DrainDlq() returns (entries: seq<DeadLetter>)
      requires Valid()
      modifies this, cache
      ensures Valid() && View() == Drained(w, c, old(View()))
      ensures entries == Taken(w, c, old(View()))
    {
      if cache == null {
        entries := dlq;
        dlq := [];
        return;
      }
      entries := [];
      var i := 0;
      while i < |c.urls|
        invariant 0 <= i <= |c.urls|
        invariant Valid() && View() == old(View()).(ops := DrainOps(w, old(ops), c.urls[..i]))
        invariant entries == RecoveredAll(w, c, old(ops), c.urls[..i])
      {
        assert c.urls[..i + 1][..i] == c.urls[..i];
        var found := DrainSlot(c.urls[i]);
        entries := entries + found;
        i := i + 1;
      }
      assert c.urls[..i] == c.urls;
    }
  }
}
