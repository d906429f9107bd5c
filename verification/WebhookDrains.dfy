/** What a drain hands out when the dead letters are kept in the cache, one slot per URL. */
module WebhookDrains {
  import opened Common
  import opened Ints
  import opened Cache
  import opened CacheRuns
  import opened Webhook
  import opened WebhookRuns

  /** A dead letter and when it was written. */
  datatype Buried = Buried(letter: DeadLetter, at: u64)

  /** The last delivery to `url` that one dispatch lost. */
  function LostTo(w: World, c: Config, d: Desk, urls: seq<string>, ev: Event, url: string): Option<Buried> {
    if urls == [] then None
    else
      var n := |urls| - 1;
      var before := DeliverAll(w, c, d, urls[..n], ev);
      var from := |before.requests|;
      if urls[n] == url && Lost(w, from, Budget(c)) then
        Some(Buried(Letter(w, c, url, ev, from), w.clock(|before.ops|)))
      else LostTo(w, c, d, urls[..n], ev, url)
  }

  /** The newest dead letter of `url` since the last drain. */
  function NewestLetter(w: World, c: Config, cmds: seq<Command>, url: string): Option<Buried> {
    if cmds == [] then None
    else
      var front := cmds[..|cmds| - 1];
      var d := Run(w, c, front);
      match cmds[|cmds| - 1]
      case Drain => None
      case Publish(ev) =>
        var lost := LostTo(w, c, Marked(w, c, Looked(w, d, ev), ev), c.urls, ev, url);
        if Reaches(w, c, d, ev) && lost.Some? then lost else NewestLetter(w, c, front, url)
  }

  /** The slot that holds it. */
  function Slot(w: World, b: Option<Buried>): Option<Entry> {
    match b case None => None case Some(x) => Some(Entry(w.encode(x.letter), SatAdd64(x.at, DLQ_TTL)))
  }

  // ---------- What each operation does to a slot ----------

  lemma LatestSnoc(ops: seq<Op>, op: Op, k: CacheKey)
    ensures Latest(ops + [op], k) ==
            match op
            case DoSet(it) =>
              if it.key == k then Some(Entry(it.value, SatAdd64(it.now, it.ttl))) else Latest(ops, k)
            case DoDelete(key, _) => if key == k then None else Latest(ops, k)
            case DoGet(_, _) => Latest(ops, k)
  {
    assert (ops + [op])[..|ops|] == ops;
  }

  lemma DlqKeyInjective(a: string, b: string)
    requires DlqKey(a) == DlqKey(b)
    ensures a == b
  {
    assert (DLQ_PREFIX + a)[|DLQ_PREFIX|..] == a;
    assert (DLQ_PREFIX + b)[|DLQ_PREFIX|..] == b;
  }

  lemma {:induction false} CountDepthKeeps(w: World, ops: seq<Op>, urls: seq<string>, k: CacheKey)
    ensures Latest(CountDepth(w, ops, urls), k) == Latest(ops, k)
  {
    if urls != [] {
      var prev := CountDepth(w, ops, urls[..|urls| - 1]);
      CountDepthKeeps(w, ops, urls[..|urls| - 1], k);
      LatestSnoc(prev, Lookup(w, prev, DlqKey(urls[|urls| - 1])), k);
    }
  }

  lemma DeliverSlot(w: World, c: Config, d: Desk, u: string, ev: Event, url: string)
    requires c.cached
    ensures var from := |d.requests|;
            Latest(Deliver(w, c, d, u, ev).ops, DlqKey(url)) ==
            if u == url && Lost(w, from, Budget(c))
            then Slot(w, Some(Buried(Letter(w, c, url, ev, from), w.clock(|d.ops|))))
            else Latest(d.ops, DlqKey(url))
  {
    var e := Letter(w, c, u, ev, |d.requests|);
    var write := Write(w, d.ops, DlqKey(u), w.encode(e), DLQ_TTL);
    LatestSnoc(d.ops, write, DlqKey(url));
    CountDepthKeeps(w, d.ops + [write], c.urls, DlqKey(url));
    if DlqKey(u) == DlqKey(url) {
      DlqKeyInjective(u, url);
    }
  }

  lemma {:induction false} DeliverAllSlot(w: World, c: Config, d: Desk, urls: seq<string>, ev: Event, url: string)
    requires c.cached
    ensures var lost := LostTo(w, c, d, urls, ev, url);
            Latest(DeliverAll(w, c, d, urls, ev).ops, DlqKey(url)) ==
            if lost.Some? then Slot(w, lost) else Latest(d.ops, DlqKey(url))
  {
    if urls != [] {
      var n := |urls| - 1;
      DeliverAllSlot(w, c, d, urls[..n], ev, url);
      DeliverSlot(w, c, DeliverAll(w, c, d, urls[..n], ev), urls[n], ev, url);
    }
  }

  lemma MarkKeepsSlot(w: World, c: Config, d: Desk, ev: Event, url: string)
    ensures Latest(Looked(w, d, ev).ops, DlqKey(url)) == Latest(d.ops, DlqKey(url))
    ensures Latest(Marked(w, c, Looked(w, d, ev), ev).ops, DlqKey(url)) == Latest(d.ops, DlqKey(url))
  {
    var looked := Looked(w, d, ev).ops;
    var k := DedupKey(ev.idempotencyKey);
    LatestSnoc(d.ops, Lookup(w, d.ops, k), DlqKey(url));
    LatestSnoc(looked, Write(w, looked, k, "delivered", c.ttl), DlqKey(url));
    DlqKeyPrefix(url);
    PrefixesDiffer(ev.idempotencyKey, DlqKey(url).id);
  }

  lemma {:induction false} DrainSlot(w: World, ops: seq<Op>, urls: seq<string>, url: string)
    ensures Latest(DrainOps(w, ops, urls), DlqKey(url)) == if url in urls then None else Latest(ops, DlqKey(url))
    ensures |DrainOps(w, ops, urls)| == |ops| + 2 * |urls|
  {
    if urls != [] {
      var n := |urls| - 1;
      var prev, u := DrainOps(w, ops, urls[..n]), urls[n];
      DrainSlot(w, ops, urls[..n], url);
      var look := Lookup(w, prev, DlqKey(u));
      LatestSnoc(prev, look, DlqKey(url));
      LatestSnoc(prev + [look], DoDelete(DlqKey(u), w.clock(|prev + [look]|)), DlqKey(url));
      if DlqKey(u) == DlqKey(url) {
        DlqKeyInjective(u, url);
      }
      assert url in urls <==> url in urls[..n] || url == u;
    }
  }

  // ---------- The slots of a run ----------

  /** After every run, at any limit and with any clock, the last write to a URL's slot is its newest letter. */
  lemma {:induction false} SlotsHoldNewest(w: World, c: Config, cmds: seq<Command>, d: Desk, url: string)
    requires c.cached && url in c.urls && d == Run(w, c, cmds)
    ensures Latest(d.ops, DlqKey(url)) == Slot(w, NewestLetter(w, c, cmds, url))
  {
    if cmds != [] {
      var front := cmds[..|cmds| - 1];
      var d0 := Run(w, c, front);
      SlotsHoldNewest(w, c, front, d0, url);
      match cmds[|cmds| - 1] {
        case Drain =>
          DrainSlot(w, d0.ops, c.urls, url);
        case Publish(ev) =>
          MarkKeepsSlot(w, c, d0, ev, url);
          DeliverAllSlot(w, c, Marked(w, c, Looked(w, d0, ev), ev), c.urls, ev, url);
      }
    }
  }

  // ---------- What a drain hands out ----------

  /** A letter handed out at `now`, if there is one and its slot has not expired. */
  function Fresh(b: Option<Buried>, now: u64): seq<DeadLetter> {
    if b.Some? && SatAdd64(b.value.at, 604800) > now then [b.value.letter] else []
  }

  /** What a drain should yield for URL number `n`: where it is listed first, its newest letter if not too old. */
  function Share(w: World, c: Config, cmds: seq<Command>, n: nat): seq<DeadLetter>
    requires n < |c.urls|
  {
    if c.urls[n] in c.urls[..n] then []
    else Fresh(NewestLetter(w, c, cmds, c.urls[n]), w.clock(|Run(w, c, cmds).ops| + 2 * n))
  }

  function HandedOut(w: World, c: Config, cmds: seq<Command>, n: nat): seq<DeadLetter>
    requires n <= |c.urls|
  {
    if n == 0 then [] else HandedOut(w, c, cmds, n - 1) + Share(w, c, cmds, n - 1)
  }

  ghost predicate RoundTrips(w: World) { forall e :: w.decode(w.encode(e)) == Some(e) }

  /** The letter whose slot a drain looks up for URL number `n`, unless it has just emptied that slot. */
  function Sought(w: World, c: Config, cmds: seq<Command>, n: nat): Option<Buried>
    requires n < |c.urls|
  {
    if c.urls[n] in c.urls[..n] then None else NewestLetter(w, c, cmds, c.urls[n])
  }

  lemma DrainLooksUp(w: World, c: Config, cmds: seq<Command>, d: Desk, n: nat, ops: seq<Op>)
    requires c.cached && n < |c.urls| && d == Run(w, c, cmds) && ops == DrainOps(w, d.ops, c.urls[..n])
    ensures |ops| == |d.ops| + 2 * n && Stamped(w, ops)
    ensures Latest(ops, DlqKey(c.urls[n])) == Slot(w, Sought(w, c, cmds, n))
  {
    SlotsHoldNewest(w, c, cmds, d, c.urls[n]);
    DrainSlot(w, d.ops, c.urls[..n], c.urls[n]);
    MarksAlwaysHeld(w, c, cmds, "");
    DrainAdds(w, d.ops, c.urls[..n]);
  }

  function Readable(e: Option<Entry>, now: u64): Option<string> {
    match e case None => None case Some(x) => if x.expiresAt > now then Some(x.value) else None
  }

  lemma ReadsBack(w: World, c: Config, ops: seq<Op>, url: string, b: Option<Buried>)
    requires RoundTrips(w)
    requires Answer(After(ops, c.limit), DlqKey(url), w.clock(|ops|)) == Readable(Slot(w, b), w.clock(|ops|))
    ensures Recovered(w, c, ops, url) == Fresh(b, w.clock(|ops|))
  {
  }

  lemma ReadsNothing(w: World, c: Config, ops: seq<Op>, url: string)
    requires Answer(After(ops, c.limit), DlqKey(url), w.clock(|ops|)) == None
    ensures Recovered(w, c, ops, url) == []
  {
  }

  lemma AnswerIsReadable(w: World, ops: seq<Op>, limit: nat, k: CacheKey, e: Option<Entry>)
    requires Stamped(w, ops) && Latest(ops, k) == e
    ensures var got := Answer(After(ops, limit), k, w.clock(|ops|));
            && (got == None || got == Readable(e, w.clock(|ops|)))
            && (limit == 0 && Forward(w) ==> got == Readable(e, w.clock(|ops|)))
  {
    NeverInvents(ops, limit, k, w.clock(|ops|));
    if limit == 0 && Forward(w) {
      StampedForward(w, ops);
      UnlimitedIsPlainMap(ops, k, w.clock(|ops|));
    }
  }

  lemma LookupYields(w: World, c: Config, ops: seq<Op>, url: string, b: Option<Buried>, now: u64)
    requires RoundTrips(w) && Stamped(w, ops) && Latest(ops, DlqKey(url)) == Slot(w, b) && now == w.clock(|ops|)
    ensures var got := Recovered(w, c, ops, url);
            && (got == [] || got == Fresh(b, now))
            && (c.limit == 0 && Forward(w) ==> got == Fresh(b, now))
  {
    AnswerIsReadable(w, ops, c.limit, DlqKey(url), Slot(w, b));
    if Answer(After(ops, c.limit), DlqKey(url), now) == Readable(Slot(w, b), now) {
      ReadsBack(w, c, ops, url, b);
    } else {
      ReadsNothing(w, c, ops, url);
    }
  }

  lemma ShareIsFresh(w: World, c: Config, cmds: seq<Command>, d: Desk, n: nat, now: u64)
    requires n < |c.urls| && d == Run(w, c, cmds) && now == w.clock(|d.ops| + 2 * n)
    ensures Share(w, c, cmds, n) == Fresh(Sought(w, c, cmds, n), now)
  {
  }

  /** The slot a drain finds for a URL holds the letter it should yield. */
  lemma SlotFound(w: World, c: Config, cmds: seq<Command>, d: Desk, n: nat, ops: seq<Op>)
    returns (b: Option<Buried>)
    requires c.cached && n < |c.urls| && d == Run(w, c, cmds)
    requires ops == DrainOps(w, d.ops, c.urls[..n])
    ensures Stamped(w, ops) && Latest(ops, DlqKey(c.urls[n])) == Slot(w, b)
    ensures Share(w, c, cmds, n) == Fresh(b, w.clock(|ops|))
  {
    b := Sought(w, c, cmds, n);
    var now := w.clock(|d.ops| + 2 * n);
    ShareIsFresh(w, c, cmds, d, n, now);
    DrainLooksUp(w, c, cmds, d, n, ops);
  }

  /**
   At any cache size and with any clock, a lookup of a drain yields nothing or the newest
   unexpired dead letter of its URL since the drain before.
   */
  lemma {:induction false} DrainInventsNothing(w: World, c: Config, cmds: seq<Command>, d: Desk, n: nat,
                                               ops: seq<Op>, share: seq<DeadLetter>)
    requires c.cached && n < |c.urls| && RoundTrips(w) && d == Run(w, c, cmds)
    requires ops == DrainOps(w, d.ops, c.urls[..n]) && share == Share(w, c, cmds, n)
    ensures var got := Recovered(w, c, ops, c.urls[n]);
            && (got == [] || got == share)
            && (c.limit == 0 && Forward(w) ==> got == share)
  {
    var b := SlotFound(w, c, cmds, d, n, ops);
    LookupYields(w, c, ops, c.urls[n], b, w.clock(|ops|));
  }

  lemma {:induction false} RecoversEach(w: World, c: Config, cmds: seq<Command>, d: Desk, n: nat)
    requires c.cached && c.limit == 0 && Forward(w) && n <= |c.urls| && RoundTrips(w) && d == Run(w, c, cmds)
    ensures RecoveredAll(w, c, d.ops, c.urls[..n]) == HandedOut(w, c, cmds, n)
  {
    if n > 0 {
      assert c.urls[..n][..n - 1] == c.urls[..n - 1];
      RecoversEach(w, c, cmds, d, n - 1);
      DrainInventsNothing(w, c, cmds, d, n - 1, DrainOps(w, d.ops, c.urls[..n - 1]), Share(w, c, cmds, n - 1));
    }
  }

  /**
   With an unlimited cache and a clock that does not run backwards, a drain hands out for
   each URL exactly its newest dead letter since the drain before, if that was written less
   than the lifetime of a slot before the lookup, in the order of the URLs.
   */
  lemma {:induction false} CachedDrainReturns(w: World, c: Config, cmds: seq<Command>)
    requires c.cached && c.limit == 0 && Forward(w) && RoundTrips(w)
    ensures Taken(w, c, Run(w, c, cmds)) == HandedOut(w, c, cmds, |c.urls|)
  {
    assert c.urls[..|c.urls|] == c.urls;
    RecoversEach(w, c, cmds, Run(w, c, cmds), |c.urls|);
  }

  // ---------- Exactly which caches keep the newest letters ----------

  lemma RecoversNext(w: World, c: Config, ops: seq<Op>, n: nat)
    requires n < |c.urls|
    ensures RecoveredAll(w, c, ops, c.urls[..n + 1]) ==
            RecoveredAll(w, c, ops, c.urls[..n]) + Recovered(w, c, DrainOps(w, ops, c.urls[..n]), c.urls[n])
  {
    assert c.urls[..n + 1][..n] == c.urls[..n];
  }

  /** At any limit, a drain that misses the first letter takes fewer than `HandedOut` lists. */
  lemma {:induction false} TakesFewer(w: World, c: Config, cmds: seq<Command>, d: Desk, n: nat)
    requires c.cached && 0 < n <= |c.urls| && RoundTrips(w) && d == Run(w, c, cmds)
    requires Recovered(w, c, d.ops, c.urls[0]) == [] && Share(w, c, cmds, 0) != []
    ensures |RecoveredAll(w, c, d.ops, c.urls[..n])| < |HandedOut(w, c, cmds, n)|
  {
    RecoversNext(w, c, d.ops, n - 1);
    if n > 1 {
      TakesFewer(w, c, cmds, d, n - 1);
      DrainInventsNothing(w, c, cmds, d, n - 1, DrainOps(w, d.ops, c.urls[..n - 1]), Share(w, c, cmds, n - 1));
    } else {
      assert c.urls[..0] == [];
    }
  }

  /** The clock stands still; only the first delivery of all fails. */
  function Storm(c: Config, encode: DeadLetter -> string, decode: string -> Option<DeadLetter>): World {
    World((i: nat) => if i < Budget(c) then Refused("") else Delivered, _ => 0, _ => 0, encode, decode)
  }

  ghost predicate Stormy(w: World, c: Config) {
    && (forall i :: 0 <= i < Budget(c) ==> w.net(i).Refused?)
    && (forall i :: i >= Budget(c) ==> w.net(i).Delivered?)
    && (forall i :: w.clock(i) == 0)
  }

  lemma {:induction false} FirstIsLost(w: World, c: Config, d: Desk, urls: seq<string>, ev: Event)
    requires Stormy(w, c) && urls != [] && d.requests == []
    ensures |DeliverAll(w, c, d, urls, ev).requests| >= Budget(c)
    ensures LostTo(w, c, d, urls, ev, urls[0]).Some?
  {
    var n := |urls| - 1;
    if n == 0 {
      assert urls[..n] == [];
      assert Lost(w, 0, Budget(c));
      TriesStops(w, 0, Budget(c));
    } else {
      FirstIsLost(w, c, d, urls[..n], ev);
      assert urls[..n][0] == urls[0];
    }
  }

  lemma {:induction false} LostAtZero(w: World, c: Config, d: Desk, urls: seq<string>, ev: Event, url: string)
    requires Stormy(w, c)
    ensures LostTo(w, c, d, urls, ev, url).Some? ==> LostTo(w, c, d, urls, ev, url).value.at == 0
  {
    if urls != [] {
      LostAtZero(w, c, d, urls[..|urls| - 1], ev, url);
    }
  }

  /** What the first event of the flood does. */
  lemma StormBreaks(w: World, c: Config)
    requires c.cached && c.urls != [] && Stormy(w, c)
    ensures CalmsDown(w, c)
    ensures var b := NewestLetter(w, c, Flood(1), c.urls[0]);
            b.Some? && b.value.at == 0
  {
    var ev := Nth(0);
    assert Flood(1)[..0] == [] && Flood(1)[0] == Publish(ev);
    var marked := Marked(w, c, Looked(w, IDLE, ev), ev);
    FirstIsLost(w, c, marked, c.urls, ev);
    LostAtZero(w, c, marked, c.urls, ev, c.urls[0]);
    assert Reaches(w, c, IDLE, ev);
  }

  lemma {:induction false} LetterStays(w: World, c: Config, n: nat)
    requires c.cached && c.urls != [] && Stormy(w, c) && n > 0
    ensures var b := NewestLetter(w, c, Flood(n), c.urls[0]);
            b.Some? && b.value.at == 0
  {
    if n == 1 {
      StormBreaks(w, c);
    } else {
      LetterStays(w, c, n - 1);
      assert Flood(n)[..n - 1] == Flood(n - 1) && Flood(n)[n - 1] == Publish(Nth(n - 1));
      var d := Run(w, c, Flood(n - 1));
      LostAtZero(w, c, Marked(w, c, Looked(w, d, Nth(n - 1)), Nth(n - 1)), c.urls, Nth(n - 1), c.urls[0]);
    }
  }

  lemma {:induction false} NewestLacksSlot(j: nat, url: string)
    ensures DlqKey(url) !in Newest(j)
  {
    if j > 0 {
      NewestLacksSlot(j - 1, url);
      DlqKeyPrefix(url);
      PrefixesDiffer(Nth(j).idempotencyKey, DlqKey(url).id);
    }
  }

  lemma SlotPushedOut(w: World, c: Config, d: Desk)
    requires c.cached && c.urls != [] && c.limit > 0 && Stormy(w, c) && d == Run(w, c, Flood(c.limit + 1))
    ensures Recovered(w, c, d.ops, c.urls[0]) == []
  {
    StormBreaks(w, c);
    FloodForgets(w, c, After(d.ops, c.limit));
    NewestLacksSlot(c.limit, c.urls[0]);
  }

  /** With any limit, as many marks as the cache holds push the letter out before the drain. */
  lemma FloodLosesLetter(w: World, c: Config, cmds: seq<Command>, d: Desk)
    requires c.cached && c.urls != [] && c.limit > 0 && RoundTrips(w) && Stormy(w, c)
    requires cmds == Flood(c.limit + 1) && d == Run(w, c, cmds)
    ensures |Taken(w, c, d)| < |HandedOut(w, c, cmds, |c.urls|)|
  {
    SlotPushedOut(w, c, d);
    LetterStays(w, c, c.limit + 1);
    TakesFewer(w, c, cmds, d, |c.urls|);
    assert c.urls[..|c.urls|] == c.urls;
  }

  ghost predicate DrainsExactly(w: World, c: Config, cmds: seq<Command>) {
    Forward(w) ==> Taken(w, c, Run(w, c, cmds)) == HandedOut(w, c, cmds, |c.urls|)
  }

  /**
   The exact condition: with a codec that reads back what it wrote, every drain of every
   forward run hands out exactly the newest letters if and only if the cache has no limit.
   */
  lemma {:induction false} CachedDrainIff(c: Config, encode: DeadLetter -> string,
                                          decode: string -> Option<DeadLetter>)
    requires c.cached && c.urls != [] && forall e :: decode(encode(e)) == Some(e)
    ensures (forall w: World, cmds :: w.encode == encode && w.decode == decode ==> DrainsExactly(w, c, cmds))
            <==> c.limit == 0
  {
    if c.limit == 0 {
      forall w: World, cmds | w.encode == encode && w.decode == decode && Forward(w)
        ensures DrainsExactly(w, c, cmds)
      {
        CachedDrainReturns(w, c, cmds);
      }
    } else {
      var w := Storm(c, encode, decode);
      FloodLosesLetter(w, c, Flood(c.limit + 1), Run(w, c, Flood(c.limit + 1)));
      assert w.encode == encode && w.decode == decode;
      assert !DrainsExactly(w, c, Flood(c.limit + 1));
    }
  }
}
