/** Properties of whole runs of dispatches and drains. */
module WebhookRuns {
  import opened Common
  import opened Ints
  import opened Cache
  import opened CacheRuns
  import opened Webhook
  import Recency

  // ---------- Every delivery has one outcome ----------

  datatype Delivery = Delivery(url: string, event: Event)

  function PlanFor(urls: seq<string>, ev: Event): seq<Delivery> {
    if urls == [] then []
    else PlanFor(urls[..|urls| - 1], ev) + [Delivery(urls[|urls| - 1], ev)]
  }

  /** The deliveries a run owes: each event that gets past deduplication, to each URL, in order. */
  function Planned(w: World, c: Config, cmds: seq<Command>): seq<Delivery> {
    if cmds == [] then []
    else
      var front := Planned(w, c, cmds[..|cmds| - 1]);
      match cmds[|cmds| - 1]
      case Publish(ev) =>
        if Reaches(w, c, Run(w, c, cmds[..|cmds| - 1]), ev) then front + PlanFor(c.urls, ev) else front
      case Drain => front
  }

  /** How many of them came before the last drain. */
  function BeforeDrain(w: World, c: Config, cmds: seq<Command>): nat {
    if cmds == [] then 0
    else if cmds[|cmds| - 1].Drain? then |Planned(w, c, cmds)|
    else BeforeDrain(w, c, cmds[..|cmds| - 1])
  }

  /** Number of the first request of delivery `k`. */
  function StartOf(w: World, c: Config, k: nat): nat {
    if k == 0 then 0 else StartOf(w, c, k - 1) + Tries(w, StartOf(w, c, k - 1), Budget(c))
  }

  /** All requests of the planned deliveries, one delivery after the other. */
  function Trace(w: World, c: Config, plan: seq<Delivery>): seq<Request> {
    if plan == [] then []
    else
      var n := |plan| - 1;
      var from := StartOf(w, c, n);
      Trace(w, c, plan[..n]) + Sends(w, c, plan[n].url, plan[n].event, from, Tries(w, from, Budget(c)))
  }

  /** One dead letter for each lost delivery from number `lo` on, in order. */
  function Letters(w: World, c: Config, plan: seq<Delivery>, lo: nat): seq<DeadLetter> {
    if |plan| <= lo then []
    else
      var n := |plan| - 1;
      var from := StartOf(w, c, n);
      Letters(w, c, plan[..n], lo) +
      if Lost(w, from, Budget(c)) then [Letter(w, c, plan[n].url, plan[n].event, from)] else []
  }

  function LastN<T>(s: seq<T>, n: nat): seq<T> { if |s| <= n then s else s[|s| - n..] }

  /** Dropping the oldest on overflow keeps exactly the newest entries. */
  lemma PushKeepsNewest(s: seq<DeadLetter>, e: DeadLetter)
    ensures Push(LastN(s, 10_000), e) == LastN(s + [e], 10_000)
  {
  }

  /** The requests are those of the plan; without a cache the queue holds the newest letters since `lo`. */
  ghost predicate Accounted(w: World, c: Config, d: Desk, plan: seq<Delivery>, lo: nat) {
    && d.requests == Trace(w, c, plan)
    && |d.requests| == StartOf(w, c, |plan|)
    && d.dlq == if c.cached then [] else LastN(Letters(w, c, plan, lo), 10_000)
  }

  lemma TraceSnoc(w: World, c: Config, plan: seq<Delivery>, p: Delivery, from: nat)
    requires from == StartOf(w, c, |plan|)
    ensures Trace(w, c, plan + [p]) ==
            Trace(w, c, plan) + Sends(w, c, p.url, p.event, from, Tries(w, from, Budget(c)))
    ensures StartOf(w, c, |plan + [p]|) == from + Tries(w, from, Budget(c))
  {
    assert (plan + [p])[..|plan|] == plan;
  }

  lemma LettersSnoc(w: World, c: Config, plan: seq<Delivery>, p: Delivery, lo: nat, from: nat)
    requires from == StartOf(w, c, |plan|) && lo <= |plan|
    ensures Letters(w, c, plan + [p], lo) ==
            Letters(w, c, plan, lo) + if Lost(w, from, Budget(c)) then [Letter(w, c, p.url, p.event, from)] else []
  {
    assert (plan + [p])[..|plan|] == plan;
  }

  lemma DeliverAccounted(w: World, c: Config, d: Desk, url: string, ev: Event, plan: seq<Delivery>, lo: nat)
    requires Accounted(w, c, d, plan, lo) && lo <= |plan|
    ensures Accounted(w, c, Deliver(w, c, d, url, ev), plan + [Delivery(url, ev)], lo)
  {
    var from := |d.requests|;
    TraceSnoc(w, c, plan, Delivery(url, ev), from);
    LettersSnoc(w, c, plan, Delivery(url, ev), lo, from);
    DeliverDesk(w, c, d, url, ev);
    if !c.cached && Lost(w, from, Budget(c)) {
      PushKeepsNewest(Letters(w, c, plan, lo), Letter(w, c, url, ev, from));
    }
  }

  lemma DeliverDesk(w: World, c: Config, d: Desk, url: string, ev: Event)
    ensures var from, d' := |d.requests|, Deliver(w, c, d, url, ev);
            && d'.requests == d.requests + Sends(w, c, url, ev, from, Tries(w, from, Budget(c)))
            && d'.dlq == if !c.cached && Lost(w, from, Budget(c)) then Push(d.dlq, Letter(w, c, url, ev, from))
                         else d.dlq
  {
  }

  lemma PlanExtends(plan: seq<Delivery>, urls: seq<string>, ev: Event)
    requires urls != []
    ensures plan + PlanFor(urls[..|urls| - 1], ev) + [Delivery(urls[|urls| - 1], ev)] == plan + PlanFor(urls, ev)
  {
  }

  lemma {:induction false} DeliverAllAccounted(w: World, c: Config, d: Desk, urls: seq<string>, ev: Event,
                                               plan: seq<Delivery>, lo: nat)
    requires Accounted(w, c, d, plan, lo) && lo <= |plan|
    ensures Accounted(w, c, DeliverAll(w, c, d, urls, ev), plan + PlanFor(urls, ev), lo)
  {
    if urls == [] {
      assert plan + PlanFor(urls, ev) == plan;
    } else {
      var n := |urls| - 1;
      DeliverAllAccounted(w, c, d, urls[..n], ev, plan, lo);
      var before := plan + PlanFor(urls[..n], ev);
      DeliverAccounted(w, c, DeliverAll(w, c, d, urls[..n], ev), urls[n], ev, before, lo);
      PlanExtends(plan, urls, ev);
    }
  }

  /**
   After every run the requests are those of the planned deliveries, each once and in order.
   Without a cache the queue is exactly the newest 10,000 dead letters since the last drain,
   in order; with one it stays empty.
   */
  lemma {:induction false} EveryDeliveryAccounted(w: World, c: Config, cmds: seq<Command>)
    ensures BeforeDrain(w, c, cmds) <= |Planned(w, c, cmds)|
    ensures Accounted(w, c, Run(w, c, cmds), Planned(w, c, cmds), BeforeDrain(w, c, cmds))
  {
    if cmds != [] {
      var n := |cmds| - 1;
      EveryDeliveryAccounted(w, c, cmds[..n]);
      StepAccounted(w, c, Run(w, c, cmds[..n]), cmds[n], Planned(w, c, cmds[..n]), BeforeDrain(w, c, cmds[..n]),
                    Planned(w, c, cmds), BeforeDrain(w, c, cmds));
    }
  }

  lemma StepAccounted(w: World, c: Config, d: Desk, cmd: Command, plan: seq<Delivery>, lo: nat,
                      plan': seq<Delivery>, lo': nat)
    requires Accounted(w, c, d, plan, lo) && lo <= |plan|
    requires match cmd
             case Publish(ev) =>
               lo' == lo && plan' == if Reaches(w, c, d, ev) then plan + PlanFor(c.urls, ev) else plan
             case Drain => plan' == plan && lo' == |plan|
    ensures lo' <= |plan'| && Accounted(w, c, Step(w, c, d, cmd), plan', lo')
  {
    match cmd {
      case Publish(ev) =>
        if c.urls == [] {
          assert plan + PlanFor(c.urls, ev) == plan;
        } else if Reaches(w, c, d, ev) {
          DeliverAllAccounted(w, c, if c.cached then Marked(w, c, Looked(w, d, ev), ev) else d, c.urls, ev, plan, lo);
        }
      case Drain =>
    }
  }

  /** Where the requests of delivery `k` lie in the trace. */
  lemma {:induction false} TraceSlice(w: World, c: Config, plan: seq<Delivery>, rs: seq<Request>,
                                      k: nat, s: nat, e: nat)
    requires k < |plan| && rs == Trace(w, c, plan) && s == StartOf(w, c, k) && e == StartOf(w, c, k + 1)
    ensures s <= e <= |rs|
    ensures rs[s..e] == Sends(w, c, plan[k].url, plan[k].event, s, e - s)
    decreases |plan|
  {
    var n := |plan| - 1;
    if k < n {
      var front := Trace(w, c, plan[..n]);
      TraceSlice(w, c, plan[..n], front, k, s, e);
      TraceExtends(w, c, plan, rs, front);
      assert rs[s..e] == front[s..e];
    } else {
      TraceEnd(w, c, plan, rs, s, e);
    }
  }

  lemma TraceExtends(w: World, c: Config, plan: seq<Delivery>, rs: seq<Request>, front: seq<Request>)
    requires plan != [] && rs == Trace(w, c, plan) && front == Trace(w, c, plan[..|plan| - 1])
    ensures front <= rs
  {
  }

  lemma TraceEnd(w: World, c: Config, plan: seq<Delivery>, rs: seq<Request>, s: nat, e: nat)
    requires plan != [] && rs == Trace(w, c, plan)
    requires s == StartOf(w, c, |plan| - 1) && e == StartOf(w, c, |plan|)
    ensures s <= e <= |rs|
    ensures rs[s..e] == Sends(w, c, plan[|plan| - 1].url, plan[|plan| - 1].event, s, e - s)
  {
    var n := |plan| - 1;
    TraceLength(w, c, plan[..n]);
    TailIs(Trace(w, c, plan[..n]), Sends(w, c, plan[n].url, plan[n].event, s, Tries(w, s, Budget(c))), rs);
  }

  lemma TailIs(a: seq<Request>, b: seq<Request>, rs: seq<Request>)
    requires rs == a + b
    ensures |rs| == |a| + |b| && rs[|a|..|a| + |b|] == b
  {
  }

  lemma {:induction false} TraceLength(w: World, c: Config, plan: seq<Delivery>)
    ensures |Trace(w, c, plan)| == StartOf(w, c, |plan|)
  {
    if plan != [] {
      TraceLength(w, c, plan[..|plan| - 1]);
    }
  }

  /** What the backoff asks for before retry number `n`, counted from zero, without jitter. */
  function Due(c: Config, n: nat): nat { Min(c.maxDelay, c.baseDelay * Pow2(Min(n, 20))) }

  /** The first request goes out at once; a retry waits its due time, and up to a quarter more with jitter. */
  ghost predicate Paced(c: Config, r: Request) {
    if r.attempt == 0 then r.waited == 0
    else
      var due := Due(c, r.attempt - 1);
      due <= r.waited <= due + if c.jitter then due / 4 else 0
  }

  lemma CappedIsDue(c: Config, n: nat)
    ensures Capped(c, n) == Due(c, n)
  {
    Pow2Fits(Min(n, 20));
  }

  lemma WaitedIsPaced(w: World, c: Config, url: string, ev: Event, from: nat, attempt: nat)
    ensures Paced(c, Request(url, ev, attempt, Waited(w, c, from, attempt)))
  {
    if attempt > 0 {
      CappedIsDue(c, attempt - 1);
      JitterBounded(c, attempt - 1, w.noise(from + attempt));
    }
  }

  /** Jitter can add any amount below a quarter. */
  lemma {:induction false} JitterReaches(c: Config, n: nat, due: u64, extra: u64)
    requires c.jitter && due == Due(c, n) && extra < due / 4 && due + extra < U64_LIMIT
    ensures BackoffDelay(c, n, extra) == due + extra
  {
    CappedIsDue(c, n);
    SmallRemainder(extra, due / 4);
    DelayIs(c, n, due, extra);
  }

  lemma SmallRemainder(x: nat, m: nat)
    requires x < m
    ensures x % m == x
  {
  }

  lemma DelayIs(c: Config, n: nat, due: u64, noise: u64)
    requires c.jitter && due == Capped(c, n)
    ensures BackoffDelay(c, n, noise) == SatAdd64(due, Jitter(due / 4, noise))
  {
  }

  /**
   Delivery `k` of a run: it makes between 1 and max_retries + 1 requests, all to its URL,
   numbered from zero and paced by the backoff; all but the last are refused; and it ends in
   one success or, after using every attempt, in one dead letter with the last error.
   */
  lemma {:induction false} OneOutcomePerDelivery(w: World, c: Config, cmds: seq<Command>, rs: seq<Request>,
                                                 k: nat, p: Delivery, s: nat, e: nat)
    requires rs == Run(w, c, cmds).requests && k < |Planned(w, c, cmds)| && p == Planned(w, c, cmds)[k]
    requires s == StartOf(w, c, k) && e == StartOf(w, c, k + 1)
    ensures s < e <= s + c.maxRetries + 1 && e <= |rs|
    ensures forall i :: s <= i < e ==> rs[i] == Request(p.url, p.event, i - s, Waited(w, c, s, i - s))
    ensures forall i :: s <= i < e ==> Paced(c, rs[i])
    ensures forall i :: s <= i < e - 1 ==> w.net(i).Refused?
    ensures w.net(e - 1).Delivered? <==> !Lost(w, s, Budget(c))
    ensures w.net(e - 1).Refused? ==> e == s + c.maxRetries + 1
    ensures Letters(w, c, Planned(w, c, cmds)[..k + 1], 0) ==
            Letters(w, c, Planned(w, c, cmds)[..k], 0) +
            match w.net(e - 1)
            case Refused(error) => [DeadLetter(p.url, p.event, (c.maxRetries + 1) % 0x1_0000_0000, error)]
            case Delivered => []
  {
    EveryDeliveryAccounted(w, c, cmds);
    TraceElements(w, c, Planned(w, c, cmds), rs, k, s, e);
    OutcomeOf(w, c, s, e);
    forall i | s <= i < e ensures Paced(c, rs[i]) {
      WaitedIsPaced(w, c, p.url, p.event, s, i - s);
    }
    LetterOf(w, c, Planned(w, c, cmds), k, p, s, e);
  }

  lemma OutcomeOf(w: World, c: Config, s: nat, e: nat)
    requires e == s + Tries(w, s, Budget(c))
    ensures s < e <= s + c.maxRetries + 1
    ensures forall i :: s <= i < e - 1 ==> w.net(i).Refused?
    ensures w.net(e - 1).Delivered? <==> !Lost(w, s, Budget(c))
    ensures w.net(e - 1).Refused? ==> e == s + c.maxRetries + 1
  {
    TriesStops(w, s, Budget(c));
  }

  lemma LetterOf(w: World, c: Config, plan: seq<Delivery>, k: nat, p: Delivery, s: nat, e: nat)
    requires k < |plan| && p == plan[k] && s == StartOf(w, c, k) && e > s
    requires w.net(e - 1).Delivered? <==> !Lost(w, s, Budget(c))
    requires w.net(e - 1).Refused? ==> e == s + c.maxRetries + 1
    ensures Letters(w, c, plan[..k + 1], 0) ==
            Letters(w, c, plan[..k], 0) +
            match w.net(e - 1)
            case Refused(error) => [DeadLetter(p.url, p.event, (c.maxRetries + 1) % 0x1_0000_0000, error)]
            case Delivered => []
  {
    LettersSnoc(w, c, plan[..k], p, 0, s);
    assert plan[..k] + [p] == plan[..k + 1];
    if w.net(e - 1).Refused? {
      LetterIs(w, c, p, s, e);
    }
  }

  lemma LetterIs(w: World, c: Config, p: Delivery, s: nat, e: nat)
    requires e == s + c.maxRetries + 1 && w.net(e - 1).Refused?
    ensures Letter(w, c, p.url, p.event, s) ==
            DeadLetter(p.url, p.event, (c.maxRetries + 1) % 0x1_0000_0000, w.net(e - 1).error)
  {
  }

  lemma TraceElements(w: World, c: Config, plan: seq<Delivery>, rs: seq<Request>, k: nat, s: nat, e: nat)
    requires k < |plan| && rs == Trace(w, c, plan) && s == StartOf(w, c, k) && e == StartOf(w, c, k + 1)
    ensures s <= e <= |rs|
    ensures forall i :: s <= i < e ==> rs[i] == Request(plan[k].url, plan[k].event, i - s, Waited(w, c, s, i - s))
  {
    TraceSlice(w, c, plan, rs, k, s, e);
    forall i | s <= i < e ensures rs[i] == Request(plan[k].url, plan[k].event, i - s, Waited(w, c, s, i - s)) {
      SliceAt(rs, s, e, i);
      SendsAt(w, c, plan[k].url, plan[k].event, s, e - s, i - s);
    }
  }

  lemma SliceAt(rs: seq<Request>, s: nat, e: nat, i: nat)
    requires s <= i < e <= |rs|
    ensures rs[s..e][i - s] == rs[i]
  {
  }

  lemma SendsAt(w: World, c: Config, url: string, ev: Event, from: nat, n: nat, i: nat)
    requires i < n
    ensures Sends(w, c, url, ev, from, n)[i] == Request(url, ev, i, Waited(w, c, from, i))
  {
  }

  /** Without a cache, a drain hands out exactly the newest dead letters since the drain before it. */
  lemma {:induction false} DrainReturnsNewest(w: World, c: Config, cmds: seq<Command>)
    requires !c.cached
    ensures Taken(w, c, Run(w, c, cmds)) ==
            LastN(Letters(w, c, Planned(w, c, cmds), BeforeDrain(w, c, cmds)), 10_000)
  {
    EveryDeliveryAccounted(w, c, cmds);
  }

  // ---------- With a cache: the accesses a dead letter and a drain make ----------

  function SlotKey(url: string): CacheKey { CacheKey.Events("webhook:dlq:" + url) }

  function NoteKey(ev: Event): CacheKey { CacheKey.Events("webhook:dedup:" + ev.idempotencyKey) }

  /** A dispatch looks its mark up; if it gets past, it writes the mark before the first delivery. */
  lemma {:induction false} DispatchAccesses(w: World, c: Config, d: Desk, ev: Event)
    requires c.cached && c.urls != []
    ensures var n, look := |d.ops|, d.(ops := d.ops + [DoGet(NoteKey(ev), w.clock(|d.ops|))]);
            Dispatch(w, c, d, ev) ==
            if Reaches(w, c, d, ev) then
              DeliverAll(w, c, look.(ops := look.ops + [DoSet(Item(NoteKey(ev), "delivered", c.ttl, w.clock(n + 1)))]),
                         c.urls, ev)
            else look
  {
    assert |Looked(w, d, ev).ops| == |d.ops| + 1;
  }

  /** A dead letter is written to the slot of its URL, and then every slot is looked up once to count them. */
  lemma {:induction false} BuryAccesses(w: World, c: Config, d: Desk, e: DeadLetter)
    requires c.cached
    ensures var n := |d.ops|;
            Bury(w, c, d, e) == d.(ops := d.ops +
              [DoSet(Item(SlotKey(e.url), w.encode(e), 604800, w.clock(n)))] +
              seq(|c.urls|, i requires 0 <= i < |c.urls| => DoGet(SlotKey(c.urls[i]), w.clock(n + 1 + i))))
  {
    CountLooksUp(w, d.ops + [Write(w, d.ops, DlqKey(e.url), w.encode(e), DLQ_TTL)], c.urls);
  }

  lemma {:induction false} CountLooksUp(w: World, ops: seq<Op>, urls: seq<string>)
    ensures CountDepth(w, ops, urls) ==
            ops + seq(|urls|, i requires 0 <= i < |urls| => DoGet(SlotKey(urls[i]), w.clock(|ops| + i)))
  {
    if urls != [] {
      CountLooksUp(w, ops, urls[..|urls| - 1]);
    }
  }

  /** A drain looks each slot up and deletes it, in the order of the URLs. */
  lemma {:induction false} DrainAccesses(w: World, ops: seq<Op>, urls: seq<string>)
    ensures DrainOps(w, ops, urls) == ops + seq(2 * |urls|, i requires 0 <= i < 2 * |urls| =>
              if i % 2 == 0 then DoGet(SlotKey(urls[i / 2]), w.clock(|ops| + i))
              else DoDelete(SlotKey(urls[i / 2]), w.clock(|ops| + i)))
  {
    if urls != [] {
      DrainAccesses(w, ops, urls[..|urls| - 1]);
    }
  }

  // ---------- With a cache: deduplication ----------

  function LookTime(w: World, d: Desk): u64 { w.clock(|d.ops|) }

  function MarkTime(w: World, d: Desk): u64 { w.clock(|d.ops| + 1) }

  /** When the key was last marked by a dispatch that reached the URLs. */
  function LastMark(w: World, c: Config, cmds: seq<Command>, key: string): Option<u64> {
    if cmds == [] then None
    else
      var front, cmd := cmds[..|cmds| - 1], cmds[|cmds| - 1];
      if cmd.Publish? && cmd.event.idempotencyKey == key && Reaches(w, c, Run(w, c, front), cmd.event)
      then Some(MarkTime(w, Run(w, c, front)))
      else LastMark(w, c, front, key)
  }

  predicate OnDlqKey(op: Op) {
    match op
    case DoGet(_, _) => true
    case DoSet(it) => it.key.Events? && DLQ_PREFIX <= it.key.id
    case DoDelete(k, _) => k.Events? && DLQ_PREFIX <= k.id
  }

  /** `later` adds to `ops` only lookups and operations on dead-letter slots, at the clock's times. */
  ghost predicate Adds(w: World, ops: seq<Op>, later: seq<Op>) {
    && ops <= later
    && (forall i :: |ops| <= i < |later| ==> OnDlqKey(later[i]) && OpTime(later[i]) == w.clock(i))
  }

  lemma AddsOne(w: World, ops: seq<Op>, later: seq<Op>, op: Op)
    requires Adds(w, ops, later) && OnDlqKey(op) && OpTime(op) == w.clock(|later|)
    ensures Adds(w, ops, later + [op])
  {
  }

  lemma DlqKeyPrefix(url: string)
    ensures DLQ_PREFIX <= DlqKey(url).id
  {
  }

  lemma {:induction false} CountDepthAdds(w: World, start: seq<Op>, ops: seq<Op>, urls: seq<string>)
    requires Adds(w, start, ops)
    ensures Adds(w, start, CountDepth(w, ops, urls))
  {
    if urls != [] {
      var prev := CountDepth(w, ops, urls[..|urls| - 1]);
      CountDepthAdds(w, start, ops, urls[..|urls| - 1]);
      AddsOne(w, start, prev, Lookup(w, prev, DlqKey(urls[|urls| - 1])));
    }
  }

  lemma DeliverAdds(w: World, c: Config, start: seq<Op>, d: Desk, url: string, ev: Event)
    requires Adds(w, start, d.ops)
    ensures Adds(w, start, Deliver(w, c, d, url, ev).ops)
  {
    var e := Letter(w, c, url, ev, |d.requests|);
    var write := Write(w, d.ops, DlqKey(e.url), w.encode(e), DLQ_TTL);
    DlqKeyPrefix(e.url);
    AddsOne(w, start, d.ops, write);
    CountDepthAdds(w, start, d.ops + [write], c.urls);
  }

  lemma {:induction false} DeliverAllAdds(w: World, c: Config, d: Desk, urls: seq<string>, ev: Event)
    ensures Adds(w, d.ops, DeliverAll(w, c, d, urls, ev).ops)
  {
    if urls != [] {
      DeliverAllAdds(w, c, d, urls[..|urls| - 1], ev);
      DeliverAdds(w, c, d.ops, DeliverAll(w, c, d, urls[..|urls| - 1], ev), urls[|urls| - 1], ev);
    }
  }

  lemma {:induction false} DrainAdds(w: World, ops: seq<Op>, urls: seq<string>)
    ensures Adds(w, ops, DrainOps(w, ops, urls))
  {
    if urls != [] {
      var prev, url := DrainOps(w, ops, urls[..|urls| - 1]), urls[|urls| - 1];
      DrainAdds(w, ops, urls[..|urls| - 1]);
      var look := Lookup(w, prev, DlqKey(url));
      AddsOne(w, ops, prev, look);
      DlqKeyPrefix(url);
      AddsOne(w, ops, prev + [look], DoDelete(DlqKey(url), w.clock(|prev| + 1)));
    }
  }

  /** The two namespaces do not meet. */
  lemma PrefixesDiffer(key: string, id: string)
    requires DLQ_PREFIX <= id
    ensures DedupKey(key) != CacheKey.Events(id)
  {
    assert DedupKey(key).id[9] == 'e' && id[9] == DLQ_PREFIX[9] == 'l';
  }

  lemma {:induction false} AddsKeepsLatest(w: World, ops: seq<Op>, later: seq<Op>, key: string)
    requires Adds(w, ops, later)
    ensures Latest(later, DedupKey(key)) == Latest(ops, DedupKey(key))
    decreases |later|
  {
    if |later| == |ops| {
      assert later == ops;
    } else {
      var n := |later| - 1;
      assert Adds(w, ops, later[..n]);
      AddsKeepsLatest(w, ops, later[..n], key);
      match later[n] {
        case DoSet(it) => PrefixesDiffer(key, it.key.id);
        case DoDelete(k, _) => PrefixesDiffer(key, k.id);
        case DoGet(_, _) =>
      }
    }
  }

  ghost predicate Stamped(w: World, ops: seq<Op>) {
    forall i :: 0 <= i < |ops| ==> OpTime(ops[i]) == w.clock(i)
  }

  function MarkEntry(c: Config, mark: Option<u64>): Option<Entry> {
    match mark case None => None case Some(t) => Some(Entry("delivered", SatAdd64(t, c.ttl)))
  }

  /** What the plain map holds under a key is the last mark. */
  ghost predicate MarksHeld(w: World, c: Config, cmds: seq<Command>, ops: seq<Op>, key: string) {
    Stamped(w, ops) && Latest(ops, DedupKey(key)) == MarkEntry(c, LastMark(w, c, cmds, key))
  }

  lemma LookedMarked(w: World, c: Config, d: Desk, ev: Event, key: string)
    requires Stamped(w, d.ops)
    ensures Stamped(w, Looked(w, d, ev).ops) && Stamped(w, Marked(w, c, Looked(w, d, ev), ev).ops)
    ensures Latest(Looked(w, d, ev).ops, DedupKey(key)) == Latest(d.ops, DedupKey(key))
    ensures Latest(Marked(w, c, Looked(w, d, ev), ev).ops, DedupKey(key)) ==
            if ev.idempotencyKey == key then Some(Entry("delivered", SatAdd64(MarkTime(w, d), c.ttl)))
            else Latest(d.ops, DedupKey(key))
  {
    var looked := Looked(w, d, ev).ops;
    var marked := Marked(w, c, Looked(w, d, ev), ev).ops;
    assert looked[..|d.ops|] == d.ops && marked[..|looked|] == looked;
    if DedupKey(ev.idempotencyKey) == DedupKey(key) {
      DedupKeyInjective(ev.idempotencyKey, key);
    }
  }

  lemma {:induction false} MarksAlwaysHeld(w: World, c: Config, cmds: seq<Command>, key: string)
    requires c.cached && c.urls != []
    ensures MarksHeld(w, c, cmds, Run(w, c, cmds).ops, key)
  {
    if cmds != [] {
      var front, cmd := cmds[..|cmds| - 1], cmds[|cmds| - 1];
      MarksAlwaysHeld(w, c, front, key);
      var d := Run(w, c, front);
      match cmd {
        case Drain =>
          DrainAdds(w, d.ops, c.urls);
          AddsKeepsLatest(w, d.ops, DrainOps(w, d.ops, c.urls), key);
        case Publish(ev) =>
          LookedMarked(w, c, d, ev, key);
          if Reaches(w, c, d, ev) {
            var marked := Marked(w, c, Looked(w, d, ev), ev);
            DeliverAllAdds(w, c, marked, c.urls, ev);
            AddsKeepsLatest(w, marked.ops, DeliverAll(w, c, marked, c.urls, ev).ops, key);
          }
      }
    }
  }

  ghost predicate Forward(w: World) { forall i: nat, j: nat :: i <= j ==> w.clock(i) <= w.clock(j) }

  lemma StampedForward(w: World, ops: seq<Op>)
    requires Forward(w) && Stamped(w, ops)
    ensures ClockForward(ops) && (ops != [] ==> OpTime(ops[|ops| - 1]) <= w.clock(|ops|))
  {
  }

  /** At any cache size and with any clock, a dispatch is skipped only under an unexpired mark of its key. */
  lemma {:induction false} SkipHasCause(w: World, c: Config, cmds: seq<Command>, ev: Event)
    requires c.cached && c.urls != [] && !Reaches(w, c, Run(w, c, cmds), ev)
    ensures var mark := LastMark(w, c, cmds, ev.idempotencyKey);
            mark.Some? && SatAdd64(mark.value, c.ttl) > LookTime(w, Run(w, c, cmds))
  {
    var ops := Run(w, c, cmds).ops;
    MarksAlwaysHeld(w, c, cmds, ev.idempotencyKey);
    NeverInvents(ops, c.limit, DedupKey(ev.idempotencyKey), w.clock(|ops|));
  }

  /**
   With an unlimited cache and a clock that does not run backwards, a dispatch reaches the
   URLs if and only if its key was never marked or the last mark has expired.
   */
  lemma {:induction false} ReachesIff(w: World, c: Config, cmds: seq<Command>, ev: Event)
    requires c.cached && c.urls != [] && c.limit == 0 && Forward(w)
    ensures var mark := LastMark(w, c, cmds, ev.idempotencyKey);
            Reaches(w, c, Run(w, c, cmds), ev) <==>
              mark.None? || SatAdd64(mark.value, c.ttl) <= LookTime(w, Run(w, c, cmds))
  {
    var ops := Run(w, c, cmds).ops;
    MarksAlwaysHeld(w, c, cmds, ev.idempotencyKey);
    StampedForward(w, ops);
    UnlimitedIsPlainMap(ops, DedupKey(ev.idempotencyKey), w.clock(|ops|));
  }

  lemma {:induction false} OpsGrow(w: World, c: Config, cmds: seq<Command>, n: nat)
    requires n <= |cmds|
    ensures |Run(w, c, cmds[..n]).ops| <= |Run(w, c, cmds).ops|
  {
    if n == |cmds| {
      assert cmds[..n] == cmds;
    } else {
      var front := cmds[..|cmds| - 1];
      assert front[..n] == cmds[..n];
      OpsGrow(w, c, front, n);
      StepGrows(w, c, Run(w, c, front), cmds[|cmds| - 1]);
    }
  }

  lemma StepGrows(w: World, c: Config, d: Desk, cmd: Command)
    ensures |d.ops| <= |Step(w, c, d, cmd).ops|
  {
    match cmd
    case Drain => DrainAdds(w, d.ops, c.urls);
    case Publish(ev) =>
      DeliverAllAdds(w, c, d, c.urls, ev);
      DeliverAllAdds(w, c, Marked(w, c, Looked(w, d, ev), ev), c.urls, ev);
  }

  ghost predicate ReachedAt(w: World, c: Config, cmds: seq<Command>, i: nat, key: string) {
    i < |cmds| && cmds[i].Publish? && cmds[i].event.idempotencyKey == key &&
    Reaches(w, c, Run(w, c, cmds[..i]), cmds[i].event)
  }

  /** The last mark is no older than any dispatch that reached before. */
  lemma {:induction false} LastMarkIsLatest(w: World, c: Config, cmds: seq<Command>, i: nat, key: string)
    requires Forward(w) && ReachedAt(w, c, cmds, i, key)
    ensures var mark := LastMark(w, c, cmds, key);
            mark.Some? && MarkTime(w, Run(w, c, cmds[..i])) <= mark.value
  {
    var front := cmds[..|cmds| - 1];
    if i < |front| {
      assert front[..i] == cmds[..i];
      LastMarkIsLatest(w, c, front, i, key);
      OpsGrow(w, c, front, i);
    } else {
      assert front == cmds[..i];
    }
  }

  /**
   Two dispatches of one key that reach the URLs, in any run with an unlimited cache and a
   forward clock: the later looks up only when the earlier one's mark has expired, so the
   two are at least the deduplication time apart.
   */
  lemma {:induction false} ReachesAreSpaced(w: World, c: Config, cmds: seq<Command>, i: nat, j: nat, key: string)
    requires c.cached && c.urls != [] && c.limit == 0 && Forward(w)
    requires i < j && ReachedAt(w, c, cmds, i, key) && ReachedAt(w, c, cmds, j, key)
    ensures var marked, looked := MarkTime(w, Run(w, c, cmds[..i])), LookTime(w, Run(w, c, cmds[..j]));
            SatAdd64(marked, c.ttl) <= looked && (marked + c.ttl < U64_LIMIT ==> c.ttl <= looked - marked)
  {
    var before := cmds[..j];
    assert before[..i] == cmds[..i] && before[i] == cmds[i];
    LastMarkIsLatest(w, c, before, i, key);
    ReachesIff(w, c, before, cmds[j].event);
  }

  // ---------- Exactly which configurations keep the spacing ----------

  ghost predicate Spaced(w: World, c: Config, cmds: seq<Command>) {
    forall i: nat, j: nat, key ::
      i < j && ReachedAt(w, c, cmds, i, key) && ReachedAt(w, c, cmds, j, key) ==>
        SatAdd64(MarkTime(w, Run(w, c, cmds[..i])), c.ttl) <= LookTime(w, Run(w, c, cmds[..j]))
  }

  lemma ReachGrows(w: World, c: Config, cmds: seq<Command>, i: nat, j: nat, key: string)
    requires c.cached && c.urls != [] && i < j <= |cmds| && ReachedAt(w, c, cmds, i, key)
    ensures |Run(w, c, cmds[..i]).ops| + 2 <= |Run(w, c, cmds[..j]).ops|
  {
    var d, ev := Run(w, c, cmds[..i]), cmds[i].event;
    assert cmds[..i + 1][..i] == cmds[..i] && cmds[..j][..i + 1] == cmds[..i + 1];
    DeliverAllAdds(w, c, Marked(w, c, Looked(w, d, ev), ev), c.urls, ev);
    OpsGrow(w, c, cmds[..j], i + 1);
  }

  /** Without a limit the marks last; without a lifetime there is nothing to keep. */
  lemma SpacedWhen(w: World, c: Config, cmds: seq<Command>)
    requires c.cached && c.urls != [] && Forward(w) && (c.limit == 0 || c.ttl == 0)
    ensures Spaced(w, c, cmds)
  {
    forall i: nat, j: nat, key | i < j && ReachedAt(w, c, cmds, i, key) && ReachedAt(w, c, cmds, j, key)
      ensures SatAdd64(MarkTime(w, Run(w, c, cmds[..i])), c.ttl) <= LookTime(w, Run(w, c, cmds[..j]))
    {
      if c.limit == 0 {
        ReachesAreSpaced(w, c, cmds, i, j, key);
      } else {
        ReachGrows(w, c, cmds, i, j, key);
      }
    }
  }

  /** Everything is delivered at once and the clock stands still. */
  function Calm(): World {
    World(_ => Delivered, _ => 0, _ => 0, _ => "", _ => None)
  }

  /** Events with pairwise different keys. */
  function Nth(i: nat): Event { Event("", seq(i, _ => 'k')) }

  function MarkKey(i: nat): CacheKey { DedupKey(Nth(i).idempotencyKey) }

  function Flood(n: nat): seq<Command> { seq(n, i requires 0 <= i < n => Publish(Nth(i))) }

  lemma DedupKeyInjective(a: string, b: string)
    requires DedupKey(a) == DedupKey(b)
    ensures a == b
  {
    assert (DEDUP_PREFIX + a)[|DEDUP_PREFIX|..] == a;
    assert (DEDUP_PREFIX + b)[|DEDUP_PREFIX|..] == b;
  }

  lemma MarkKeysDiffer(i: nat, j: nat)
    requires i != j
    ensures MarkKey(i) != MarkKey(j)
  {
    assert |Nth(i).idempotencyKey| == i && |Nth(j).idempotencyKey| == j;
    if MarkKey(i) == MarkKey(j) {
      DedupKeyInjective(Nth(i).idempotencyKey, Nth(j).idempotencyKey);
    }
  }

  lemma {:induction false} NeverPublishedNeverMarked(w: World, c: Config, cmds: seq<Command>, key: string)
    requires forall i :: 0 <= i < |cmds| ==> !(cmds[i].Publish? && cmds[i].event.idempotencyKey == key)
    ensures LastMark(w, c, cmds, key) == None
  {
    if cmds != [] {
      NeverPublishedNeverMarked(w, c, cmds[..|cmds| - 1], key);
    }
  }

  lemma {:induction false} RequestsGrow(w: World, c: Config, d: Desk, urls: seq<string>, ev: Event)
    ensures |d.requests| <= |DeliverAll(w, c, d, urls, ev).requests|
  {
    if urls != [] {
      RequestsGrow(w, c, d, urls[..|urls| - 1], ev);
    }
  }

  lemma {:induction false} HealthyKeepsOps(w: World, c: Config, d: Desk, urls: seq<string>, ev: Event)
    requires forall i :: i >= |d.requests| ==> w.net(i).Delivered?
    ensures DeliverAll(w, c, d, urls, ev).ops == d.ops
  {
    if urls != [] {
      HealthyKeepsOps(w, c, d, urls[..|urls| - 1], ev);
      RequestsGrow(w, c, d, urls[..|urls| - 1], ev);
      var from := |DeliverAll(w, c, d, urls[..|urls| - 1], ev).requests|;
      assert w.net(from).Delivered? && !Lost(w, from, Budget(c));
    }
  }

  /** After the first event of the flood every request succeeds. */
  ghost predicate CalmsDown(w: World, c: Config) {
    forall i :: i >= |Run(w, c, Flood(1)).requests| ==> w.net(i).Delivered?
  }

  lemma {:induction false} FloodCalm(w: World, c: Config, n: nat)
    requires CalmsDown(w, c) && n > 0
    ensures forall i :: i >= |Run(w, c, Flood(n)).requests| ==> w.net(i).Delivered?
  {
    if n > 1 {
      FloodCalm(w, c, n - 1);
      var d, ev := Run(w, c, Flood(n - 1)), Nth(n - 1);
      assert Flood(n)[..n - 1] == Flood(n - 1);
      RequestsGrow(w, c, d, c.urls, ev);
      RequestsGrow(w, c, Marked(w, c, Looked(w, d, ev), ev), c.urls, ev);
    }
  }

  /** An event of the flood is new to the cache, so it goes through and leaves only its mark. */
  lemma FloodStep(w: World, c: Config, n: nat, d: Desk, d': Desk)
    requires c.cached && c.urls != [] && CalmsDown(w, c) && n > 0
    requires d == Run(w, c, Flood(n)) && d' == Run(w, c, Flood(n + 1))
    ensures Reaches(w, c, d, Nth(n))
    ensures d'.ops == Marked(w, c, Looked(w, d, Nth(n)), Nth(n)).ops
  {
    assert Flood(n + 1)[..n] == Flood(n);
    NewToCache(w, c, n);
    FloodCalm(w, c, n);
    HealthyKeepsOps(w, c, Marked(w, c, Looked(w, d, Nth(n)), Nth(n)), c.urls, Nth(n));
  }

  /** The mark of an event that is new to the cache goes in front. */
  lemma MarkedInFront(w: World, c: Config, d: Desk, ev: Event, s: State, s': State)
    requires c.limit > 0 && s == After(d.ops, c.limit)
    requires s' == After(Marked(w, c, Looked(w, d, ev), ev).ops, c.limit)
    requires DedupKey(ev.idempotencyKey) !in s.store && DedupKey(ev.idempotencyKey) !in s.queue
    ensures s'.queue == Recency.Take([DedupKey(ev.idempotencyKey)] + s.queue, c.limit)
  {
    var looked := Looked(w, d, ev).ops;
    var marked := Marked(w, c, Looked(w, d, ev), ev).ops;
    assert looked[..|d.ops|] == d.ops && marked[..|looked|] == looked;
    MarkInFront(s, After(looked, c.limit), marked[|looked|].item, c.limit);
  }

  lemma MarkInFront(before: State, s: State, it: Item, limit: nat)
    requires limit > 0 && s.queue == before.queue && it.key !in before.queue
    ensures Set(s, it, limit).queue == Recency.Take([it.key] + before.queue, limit)
  {
    Recency.WithoutAbsent(before.queue, it.key);
    TrimQueue(Insert(s, it), limit);
  }

  lemma NewToCache(w: World, c: Config, n: nat)
    requires c.cached && c.urls != []
    ensures var s := After(Run(w, c, Flood(n)).ops, c.limit);
            MarkKey(n) !in s.store && MarkKey(n) !in s.queue
  {
    var ops, key := Run(w, c, Flood(n)).ops, Nth(n).idempotencyKey;
    forall i | 0 <= i < n ensures Nth(i).idempotencyKey != key {
      assert |Nth(i).idempotencyKey| == i && |key| == n;
    }
    NeverPublishedNeverMarked(w, c, Flood(n), key);
    MarksAlwaysHeld(w, c, Flood(n), key);
    StoredIsLatest(ops, c.limit);
    AlwaysWithin(ops, c.limit);
    MembersStored(After(ops, c.limit));
  }

  /** The marks of events 1 to `j`, newest first. */
  function Newest(j: nat): (ks: seq<CacheKey>)
    ensures |ks| == j
  {
    if j == 0 then [] else [MarkKey(j)] + Newest(j - 1)
  }

  lemma {:induction false} NewestLacksFirst(j: nat)
    ensures MarkKey(0) !in Newest(j)
  {
    if j > 0 {
      NewestLacksFirst(j - 1);
      MarkKeysDiffer(0, j);
    }
  }

  lemma FrontGrows(j: nat, q: seq<CacheKey>, limit: nat)
    requires Newest(j) <= q && j < limit
    ensures Newest(j + 1) <= Recency.Take([MarkKey(j + 1)] + q, limit)
  {
  }

  /** What the cache holds, in order, after the first `j + 1` events of the flood. */
  function FloodQueue(w: World, c: Config, j: nat): seq<CacheKey> {
    After(Run(w, c, Flood(j + 1)).ops, c.limit).queue
  }

  lemma FloodQueueStep(w: World, c: Config, j: nat, q: seq<CacheKey>, q': seq<CacheKey>)
    requires c.cached && c.urls != [] && c.limit > 0 && CalmsDown(w, c) && j > 0
    requires q == FloodQueue(w, c, j - 1) && q' == FloodQueue(w, c, j)
    ensures q' == Recency.Take([MarkKey(j)] + q, c.limit)
  {
    var d, d' := Run(w, c, Flood(j)), Run(w, c, Flood(j + 1));
    NewToCache(w, c, j);
    FloodStep(w, c, j, d, d');
    MarkedInFront(w, c, d, Nth(j), After(d.ops, c.limit), After(d'.ops, c.limit));
  }

  lemma {:induction false} FloodFillsFront(w: World, c: Config, j: nat, q: seq<CacheKey>)
    requires c.cached && c.urls != [] && CalmsDown(w, c) && j <= c.limit && c.limit > 0
    requires q == FloodQueue(w, c, j)
    ensures Newest(j) <= q
  {
    if j > 0 {
      var q0 := FloodQueue(w, c, j - 1);
      FloodFillsFront(w, c, j - 1, q0);
      FloodQueueStep(w, c, j, q0, q);
      FrontGrows(j - 1, q0, c.limit);
    }
  }

  /** As many other events as the cache holds push everything older out. */
  lemma FloodForgets(w: World, c: Config, s: State)
    requires c.cached && c.urls != [] && c.limit > 0 && CalmsDown(w, c)
    requires s == After(Run(w, c, Flood(c.limit + 1)).ops, c.limit)
    ensures s.queue == Newest(c.limit) && forall k :: k in s.store <==> k in s.queue
  {
    FloodFillsFront(w, c, c.limit, s.queue);
    AlwaysWithin(Run(w, c, Flood(c.limit + 1)).ops, c.limit);
    MembersStored(s);
  }

  lemma FloodBreaksSpacing(c: Config)
    requires c.cached && c.urls != [] && c.limit > 0 && c.ttl > 0
    ensures !Spaced(Calm(), c, Flood(c.limit + 1) + [Publish(Nth(0))])
  {
    var w, n := Calm(), c.limit + 1;
    var cmds := Flood(n) + [Publish(Nth(0))];
    assert cmds[..n] == Flood(n) && cmds[..0] == [];
    FloodForgets(w, c, After(Run(w, c, Flood(n)).ops, c.limit));
    NewestLacksFirst(c.limit);
    assert ReachedAt(w, c, cmds, 0, Nth(0).idempotencyKey);
    assert ReachedAt(w, c, cmds, n, Nth(0).idempotencyKey);
  }

  /**
   The exact condition: two dispatches of one key that reach the URLs are the deduplication
   time apart, in every run with a forward clock, if and only if the cache has no limit or
   the deduplication time is zero.
   */
  lemma {:induction false} SpacingIff(c: Config)
    requires c.cached && c.urls != []
    ensures (forall w, cmds :: Forward(w) ==> Spaced(w, c, cmds)) <==> c.limit == 0 || c.ttl == 0
  {
    if c.limit == 0 || c.ttl == 0 {
      forall w, cmds | Forward(w) ensures Spaced(w, c, cmds) {
        SpacedWhen(w, c, cmds);
      }
    } else {
      FloodBreaksSpacing(c);
      assert Forward(Calm());
    }
  }
}
