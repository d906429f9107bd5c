/** Properties of whole runs of cache operations. */
module CacheRuns {
  import opened Common
  import opened Ints
  import opened Recency
  import opened Cache

  datatype Op =
    | DoGet(key: CacheKey, now: u64)
    | DoSet(item: Item)
    | DoDelete(key: CacheKey, at: u64)

  function OpTime(op: Op): u64 {
    match op
    case DoGet(_, now) => now
    case DoSet(it) => it.now
    case DoDelete(_, at) => at
  }

  function Apply(s: State, op: Op, limit: nat): State {
    match op
    case DoGet(k, now) => Get(s, k, now)
    case DoSet(it) => Set(s, it, limit)
    case DoDelete(k, _) => Delete(s, k)
  }

  /** The cache after a run that starts empty. */
  function After(ops: seq<Op>, limit: nat): State {
    if ops == [] then EMPTY else Apply(After(ops[..|ops| - 1], limit), ops[|ops| - 1], limit)
  }

  /** In every reachable state the queue permutes the stored keys and the size fits the limit. */
  lemma {:induction false} AlwaysWithin(ops: seq<Op>, limit: nat)
    ensures Within(After(ops, limit), limit)
  {
    if ops != [] {
      var front, op := ops[..|ops| - 1], ops[|ops| - 1];
      AlwaysWithin(front, limit);
      StepWithin(After(front, limit), op, limit);
    }
  }

  lemma StepWithin(s: State, op: Op, limit: nat)
    requires Within(s, limit)
    ensures Within(Apply(s, op, limit), limit)
  {
    match op
    case DoGet(k, now) => GetWithin(s, k, now, limit);
    case DoSet(it) => SetKeepsNewKey(s, it, limit);
    case DoDelete(k, _) => DeleteWithin(s, k, limit);
  }

  // ---------- Inclusion: a smaller cache holds a part of a larger one ----------

  /**
   `small` is the part of `large` on its own keys, in the same order and with the same
   entries. The last clause is what makes evictions agree: `large` may hold at most as many
   extra keys as its limit is larger.
   */
  ghost predicate Included(small: State, large: State, n: nat, m: nat) {
    && Within(small, n) && Within(large, m)
    && small.queue == Keep(large.queue, small.store.Keys)
    && (forall k :: k in small.store ==> k in large.store && small.store[k] == large.store[k])
    && (m > 0 ==> |large.queue| - |small.queue| <= m - n)
  }

  lemma MembersStored(s: State)
    requires Consistent(s)
    ensures forall k :: k in s.queue <==> k in s.store
  {
    assert forall k :: k in s.queue <==> k in Elements(s.queue);
  }

  lemma IncludedGet(small: State, large: State, k: CacheKey, now: u64, n: nat, m: nat)
    requires 0 < n && (m == 0 || n <= m) && Included(small, large, n, m)
    ensures Included(Get(small, k, now), Get(large, k, now), n, m)
    ensures Answer(small, k, now).Some? ==> Answer(large, k, now) == Answer(small, k, now)
  {
    if k in large.store {
      if large.store[k].expiresAt > now {
        IncludedHit(small, large, k, n, m);
        IncludedTouched(small, large, k, now, n, m);
      } else {
        IncludedExpired(small, large, k, now, n, m);
      }
    }
  }

  lemma IncludedTouched(small: State, large: State, k: CacheKey, now: u64, n: nat, m: nat)
    requires Included(small, large, n, m) && k in large.store && large.store[k].expiresAt > now
    requires |Touch(large.queue, k)| == |large.queue|
    requires var q := if k in small.store then Touch(small.queue, k) else small.queue;
             q == Keep(Touch(large.queue, k), small.store.Keys) && |q| == |small.queue|
    ensures Included(Get(small, k, now), Get(large, k, now), n, m)
  {
    GetWithin(small, k, now, n);
    GetWithin(large, k, now, m);
  }

  lemma IncludedExpired(small: State, large: State, k: CacheKey, now: u64, n: nat, m: nat)
    requires Included(small, large, n, m) && k in large.store && large.store[k].expiresAt <= now
    ensures Included(Get(small, k, now), Get(large, k, now), n, m)
  {
    IncludedDelete(small, large, k, n, m);
    if k !in small.store {
      DeleteAbsent(small, k);
    }
  }

  lemma DeleteAbsent(s: State, k: CacheKey)
    requires Consistent(s) && k !in s.store
    ensures Delete(s, k) == s
  {
    MembersStored(s);
    WithoutAbsent(s.queue, k);
    assert s.store - {k} == s.store;
  }

  lemma IncludedHit(small: State, large: State, k: CacheKey, n: nat, m: nat)
    requires Included(small, large, n, m) && k in large.store
    ensures |Touch(large.queue, k)| == |large.queue|
    ensures var q := if k in small.store then Touch(small.queue, k) else small.queue;
            q == Keep(Touch(large.queue, k), small.store.Keys) && |q| == |small.queue|
  {
    MembersStored(small);
    MembersStored(large);
    DistinctTouch(small.queue, k);
    DistinctTouch(large.queue, k);
    if k in small.store {
      KeepTouch(large.queue, small.store.Keys, k);
      assert small.store.Keys + {k} == small.store.Keys;
    } else {
      UntouchedKeep(large.queue, small.store.Keys, k);
    }
  }

  lemma UntouchedKeep(q: seq<CacheKey>, ks: set<CacheKey>, k: CacheKey)
    requires k !in ks
    ensures Keep(Touch(q, k), ks) == Keep(q, ks)
  {
    assert Touch(q, k)[1..] == Without(q, k);
    KeepWithout(q, ks, k);
    assert ks - {k} == ks;
  }

  lemma IncludedDelete(small: State, large: State, k: CacheKey, n: nat, m: nat)
    requires Included(small, large, n, m)
    ensures Included(Delete(small, k), Delete(large, k), n, m)
  {
    DeleteWithin(small, k, n);
    DeleteWithin(large, k, m);
    DeleteKeeps(small, large, k);
    DeleteLength(small, k);
    DeleteLength(large, k);
  }

  lemma DeleteKeeps(small: State, large: State, k: CacheKey)
    requires small.queue == Keep(large.queue, small.store.Keys)
    ensures Delete(small, k).queue == Keep(Delete(large, k).queue, Delete(small, k).store.Keys)
  {
    var ks := small.store.Keys;
    KeepWithout(large.queue, ks, k);
    assert Delete(small, k).store.Keys == ks - {k};
    KeepWithout(large.queue, ks - {k}, k);
    assert ks - {k} - {k} == ks - {k};
  }

  lemma DeleteLength(s: State, k: CacheKey)
    requires Consistent(s)
    ensures |Delete(s, k).queue| == |s.queue| - if k in s.store then 1 else 0
  {
    MembersStored(s);
    DistinctWithout(s.queue, k);
  }

  /** Inclusion after the insertion, before either cache has evicted. */
  lemma IncludedInsert(small: State, large: State, it: Item, n: nat, m: nat)
    requires Included(small, large, n, m)
    ensures var s, t := Insert(small, it), Insert(large, it);
            && Consistent(s) && Consistent(t)
            && s.queue == Keep(t.queue, s.store.Keys)
            && (forall k :: k in s.store ==> k in t.store && s.store[k] == t.store[k])
            && |s.queue| <= |small.queue| + 1 && |t.queue| <= |large.queue| + 1
            && (m > 0 ==> |t.queue| - |s.queue| <= m - n)
  {
    InsertConsistent(small, it);
    InsertConsistent(large, it);
    InsertKeeps(small, large, it);
  }

  lemma InsertKeeps(small: State, large: State, it: Item)
    requires small.queue == Keep(large.queue, small.store.Keys)
    ensures Insert(small, it).queue == Keep(Insert(large, it).queue, Insert(small, it).store.Keys)
  {
    KeepTouch(large.queue, small.store.Keys, it.key);
    assert Insert(small, it).store.Keys == small.store.Keys + {it.key};
  }

  /** Dropping the oldest key of the smaller cache alone. */
  lemma DropSmall(s: State, t: State, n: nat)
    requires Consistent(s) && Consistent(t) && s.queue == Keep(t.queue, s.store.Keys) && |s.queue| == n + 1
    ensures Cut(s, n).store.Keys == s.store.Keys - {s.queue[n]}
    ensures Cut(s, n).queue == Keep(t.queue, Cut(s, n).store.Keys)
  {
    var z := s.queue[n];
    CutConsistent(s, n);
    WithoutLast(s.queue);
    MembersStored(s);
    assert Elements(s.queue[..n]) == s.store.Keys - {z};
    KeepWithout(t.queue, s.store.Keys, z);
  }

  /** When the larger cache also drops its oldest key, that key is not left in the smaller one. */
  lemma DropBoth(s: State, t: State, n: nat, m: nat)
    requires Consistent(s) && Consistent(t) && s.queue == Keep(t.queue, s.store.Keys)
    requires |s.queue| == n + 1 && |t.queue| == m + 1
    ensures t.queue[m] !in Cut(s, n).store
    ensures Cut(s, n).queue == Keep(Cut(t, m).queue, Cut(s, n).store.Keys)
  {
    var w, a := t.queue[m], t.queue[..m];
    assert t.queue == a + [w];
    DropSmall(s, t, n);
    LastGoes(a, w, s.store.Keys, s.queue);
    KeepLast(a, w, Cut(s, n).store.Keys);
  }

  lemma LastGoes(a: seq<CacheKey>, w: CacheKey, ks: set<CacheKey>, q: seq<CacheKey>)
    requires q == Keep(a + [w], ks) && q != []
    ensures w !in ks - {q[|q| - 1]}
  {
    KeepLast(a, w, ks);
  }

  lemma IncludedSet(small: State, large: State, it: Item, n: nat, m: nat)
    requires 0 < n && (m == 0 || n <= m) && Included(small, large, n, m)
    ensures Included(Set(small, it, n), Set(large, it, m), n, m)
  {
    IncludedInsert(small, large, it, n, m);
    SetKeepsNewKey(small, it, n);
    SetKeepsNewKey(large, it, m);
    var s, t := Insert(small, it), Insert(large, it);
    MembersStored(t);
    MembersStored(s);
    if |s.queue| == n + 1 {
      if m > 0 && |t.queue| == m + 1 {
        DropBoth(s, t, n, m);
        CutStored(t, m);
      } else {
        DropSmall(s, t, n);
      }
    }
  }

  lemma CutStored(t: State, m: nat)
    requires Consistent(t) && |t.queue| == m + 1
    ensures forall k :: k in t.store && k != t.queue[m] ==> k in Cut(t, m).store
  {
    MembersStored(t);
    assert t.queue == t.queue[..m] + [t.queue[m]];
  }

  lemma IncludedStep(small: State, large: State, op: Op, n: nat, m: nat)
    requires 0 < n && (m == 0 || n <= m) && Included(small, large, n, m)
    ensures Included(Apply(small, op, n), Apply(large, op, m), n, m)
  {
    match op
    case DoGet(k, now) => IncludedGet(small, large, k, now, n, m);
    case DoSet(it) => IncludedSet(small, large, it, n, m);
    case DoDelete(k, _) => IncludedDelete(small, large, k, n, m);
  }

  /**
   Inclusion over every run: fed the same operations, the cache with the smaller limit is
   at every point a part of the one with the larger limit (or with none), so each of its
   hits is a hit with the same value there.
   */
  lemma {:induction false} LruInclusion(ops: seq<Op>, n: nat, m: nat)
    requires 0 < n && (m == 0 || n <= m)
    ensures Included(After(ops, n), After(ops, m), n, m)
    ensures forall k, now: u64 :: Answer(After(ops, n), k, now).Some? ==>
              Answer(After(ops, m), k, now) == Answer(After(ops, n), k, now)
  {
    if ops != [] {
      var front := ops[..|ops| - 1];
      LruInclusion(front, n, m);
      IncludedStep(After(front, n), After(front, m), ops[|ops| - 1], n, m);
    }
  }

  // ---------- The plain expiring map ----------

  /** The entry of the last write to `k` that no later delete removed. */
  function Latest(ops: seq<Op>, k: CacheKey): Option<Entry> {
    if ops == [] then None
    else match ops[|ops| - 1]
      case DoSet(it) =>
        if it.key == k then Some(Entry(it.value, SatAdd64(it.now, it.ttl)))
        else Latest(ops[..|ops| - 1], k)
      case DoDelete(key, _) => if key == k then None else Latest(ops[..|ops| - 1], k)
      case DoGet(_, _) => Latest(ops[..|ops| - 1], k)
  }

  function PlainAnswer(ops: seq<Op>, k: CacheKey, now: u64): Option<string> {
    match Latest(ops, k)
    case Some(e) => if e.expiresAt > now then Some(e.value) else None
    case None => None
  }

  ghost predicate ClockForward(ops: seq<Op>) {
    forall i, j :: 0 <= i <= j < |ops| ==> OpTime(ops[i]) <= OpTime(ops[j])
  }

  /** Whatever is stored is the latest surviving write, at any limit and with any clock. */
  lemma {:induction false} StoredIsLatest(ops: seq<Op>, limit: nat)
    ensures forall k :: k in After(ops, limit).store ==> Latest(ops, k) == Some(After(ops, limit).store[k])
  {
    if ops != [] {
      var front, op := ops[..|ops| - 1], ops[|ops| - 1];
      StoredIsLatest(front, limit);
      forall k | k in After(ops, limit).store
        ensures Latest(ops, k) == Some(After(ops, limit).store[k])
      {
        StepStored(After(front, limit), op, limit, k);
      }
    }
  }

  lemma StepStored(s: State, op: Op, limit: nat, k: CacheKey)
    requires k in Apply(s, op, limit).store
    ensures var e := Apply(s, op, limit).store[k];
            if op.DoSet? && op.item.key == k then e == Entry(op.item.value, SatAdd64(op.item.now, op.item.ttl))
            else k in s.store && e == s.store[k] && !(op.DoDelete? && op.key == k)
  {
  }

  /** A cache of any size returns only what the plain map would. */
  lemma {:induction false} NeverInvents(ops: seq<Op>, limit: nat, k: CacheKey, now: u64)
    ensures Answer(After(ops, limit), k, now).Some? ==>
              PlainAnswer(ops, k, now) == Answer(After(ops, limit), k, now)
  {
    StoredIsLatest(ops, limit);
  }

  lemma {:induction false} ForgottenIsExpired(ops: seq<Op>, k: CacheKey)
    requires ClockForward(ops)
    ensures var e := Latest(ops, k);
            e.Some? && k !in After(ops, 0).store ==>
              ops != [] && e.value.expiresAt <= OpTime(ops[|ops| - 1])
  {
    if ops != [] {
      var front, op := ops[..|ops| - 1], ops[|ops| - 1];
      ForgottenIsExpired(front, k);
      StoredIsLatest(front, 0);
      if front != [] {
        assert front[|front| - 1] == ops[|front| - 1];
        assert OpTime(ops[|front| - 1]) <= OpTime(ops[|ops| - 1]);
      }
    }
  }

  /** With a clock that does not run backwards, an unlimited cache answers exactly like the plain map. */
  lemma {:induction false} UnlimitedIsPlainMap(ops: seq<Op>, k: CacheKey, now: u64)
    requires ClockForward(ops) && (ops != [] ==> OpTime(ops[|ops| - 1]) <= now)
    ensures Answer(After(ops, 0), k, now) == PlainAnswer(ops, k, now)
  {
    StoredIsLatest(ops, 0);
    ForgottenIsExpired(ops, k);
  }

  function Lookups(ops: seq<Op>): nat {
    if ops == [] then 0 else Lookups(ops[..|ops| - 1]) + if ops[|ops| - 1].DoGet? then 1 else 0
  }

  /** Lookups that returned a value. */
  function Answered(ops: seq<Op>, limit: nat): nat {
    if ops == [] then 0
    else
      var front, op := ops[..|ops| - 1], ops[|ops| - 1];
      Answered(front, limit) + if op.DoGet? && Answer(After(front, limit), op.key, op.now).Some? then 1 else 0
  }

  /** Lookups of a key that was not stored. */
  function Absent(ops: seq<Op>, limit: nat): nat {
    if ops == [] then 0
    else
      var front, op := ops[..|ops| - 1], ops[|ops| - 1];
      Absent(front, limit) + if op.DoGet? && op.key !in After(front, limit).store then 1 else 0
  }

  /** Every lookup is counted once: as a hit if it returned a value, else as a miss or an expiry. */
  lemma {:induction false} LookupsCounted(ops: seq<Op>, limit: nat)
    ensures var st := After(ops, limit).stats;
            && st.hits == Answered(ops, limit) && st.misses == Absent(ops, limit)
            && st.hits + st.misses + st.expired == Lookups(ops)
  {
    if ops != [] {
      LookupsCounted(ops[..|ops| - 1], limit);
    }
  }

  // ---------- Every entry leaves once ----------

  /** Writes to a key that was not stored. */
  function Created(ops: seq<Op>, limit: nat): nat {
    if ops == [] then 0
    else
      var front, op := ops[..|ops| - 1], ops[|ops| - 1];
      Created(front, limit) + if op.DoSet? && op.item.key !in After(front, limit).store then 1 else 0
  }

  /** Deletes of a key that was stored. */
  function Deleted(ops: seq<Op>, limit: nat): nat {
    if ops == [] then 0
    else
      var front, op := ops[..|ops| - 1], ops[|ops| - 1];
      Deleted(front, limit) + if op.DoDelete? && op.key in After(front, limit).store then 1 else 0
  }

  function Departed(s: State): nat { s.stats.evictions + s.stats.expired }

  lemma StepConserves(s: State, op: Op, limit: nat)
    requires Within(s, limit)
    ensures var t := Apply(s, op, limit);
            |t.store| + Departed(t) + (if op.DoDelete? && op.key in s.store then 1 else 0)
            == |s.store| + Departed(s) + (if op.DoSet? && op.item.key !in s.store then 1 else 0)
  {
    StepWithin(s, op, limit);
    SizeOfStore(s);
    SizeOfStore(Apply(s, op, limit));
    MembersStored(s);
    match op
    case DoGet(k, now) => DistinctWithout(s.queue, k); DistinctTouch(s.queue, k);
    case DoSet(it) => InsertConsistent(s, it);
    case DoDelete(k, _) => DistinctWithout(s.queue, k);
  }

  /** Every entry ever created is still stored or was evicted, expired or deleted, exactly once. */
  lemma {:induction false} EntriesConserved(ops: seq<Op>, limit: nat)
    ensures var s := After(ops, limit);
            |s.store| + s.stats.evictions + s.stats.expired + Deleted(ops, limit) == Created(ops, limit)
  {
    if ops != [] {
      var front := ops[..|ops| - 1];
      EntriesConserved(front, limit);
      AlwaysWithin(front, limit);
      StepConserves(After(front, limit), ops[|ops| - 1], limit);
    }
  }

  // ---------- Recency order ----------

  /** Writes touch their key; lookups touch it when they hit. */
  predicate Touches(s: State, op: Op, k: CacheKey) {
    match op
    case DoGet(key, now) => key == k && Answer(s, k, now).Some?
    case DoSet(it) => it.key == k
    case DoDelete(_, _) => false
  }

  /** Position of the last operation that touched `k`, or -1. */
  function LastTouch(ops: seq<Op>, limit: nat, k: CacheKey): int {
    if ops == [] then -1
    else if Touches(After(ops[..|ops| - 1], limit), ops[|ops| - 1], k) then |ops| - 1
    else LastTouch(ops[..|ops| - 1], limit, k)
  }

  lemma {:induction false} LastTouchBound(ops: seq<Op>, limit: nat, k: CacheKey)
    ensures -1 <= LastTouch(ops, limit, k) < |ops|
  {
    if ops != [] {
      LastTouchBound(ops[..|ops| - 1], limit, k);
    }
  }

  /** The queue lists the stored keys by their last touch, newest first. */
  lemma {:induction false} QueueByLastTouch(ops: seq<Op>, limit: nat)
    ensures Descending(After(ops, limit).queue, k => LastTouch(ops, limit, k))
  {
    if ops != [] {
      var front, op := ops[..|ops| - 1], ops[|ops| - 1];
      QueueByLastTouch(front, limit);
      var s := After(front, limit);
      var rank := (k: CacheKey) => LastTouch(front, limit, k);
      var rank' := (k: CacheKey) => LastTouch(ops, limit, k);
      forall k ensures -1 <= rank(k) < |front| && (!Touches(s, op, k) ==> rank'(k) == rank(k)) {
        LastTouchBound(front, limit, k);
      }
      match op {
        case DoGet(k, now) =>
          if Answer(s, k, now).Some? {
            DescendingTouch(s.queue, k, rank, rank');
          } else {
            DescendingWithout(s.queue, k, rank);
            DescendingSame(Get(s, k, now).queue, rank, rank');
          }
        case DoSet(it) =>
          DescendingTouch(s.queue, it.key, rank, rank');
        case DoDelete(k, _) =>
          DescendingWithout(s.queue, k, rank);
          DescendingSame(Delete(s, k).queue, rank, rank');
      }
      assert Descending(After(ops, limit).queue, rank');
    }
  }

  lemma DescendingSame(q: seq<CacheKey>, rank: CacheKey -> int, rank': CacheKey -> int)
    requires Descending(q, rank) && forall k :: rank'(k) == rank(k)
    ensures Descending(q, rank')
  {
  }

  /** A write evicts only keys that were touched before every key it keeps. */
  lemma {:induction false} EvictsLeastRecentlyTouched(ops: seq<Op>, it: Item, limit: nat,
                                                      gone: CacheKey, kept: CacheKey)
    requires var s, t := After(ops, limit), After(ops + [DoSet(it)], limit);
             gone in s.store && gone !in t.store && kept in t.store
    ensures LastTouch(ops + [DoSet(it)], limit, gone) < LastTouch(ops + [DoSet(it)], limit, kept)
    ensures gone != it.key
  {
    var all := ops + [DoSet(it)];
    assert all[..|ops|] == ops;
    var s := After(ops, limit);
    AlwaysWithin(ops, limit);
    SetKeepsNewKey(s, it, limit);
    InsertConsistent(s, it);
    InsertDescending(ops, it, limit);
    CutSplits(Insert(s, it), limit, gone, kept, k => LastTouch(all, limit, k));
  }

  lemma CutSplits(u: State, limit: nat, gone: CacheKey, kept: CacheKey, rank: CacheKey -> int)
    requires Consistent(u) && Descending(u.queue, rank)
    requires gone in u.store && gone !in Trim(u, limit).store && kept in Trim(u, limit).store
    ensures rank(gone) < rank(kept)
  {
    var i := PlaceOf(u, limit, gone);
    var j := PlaceOf(u, limit, kept);
  }

  /** A stored key has a place in the queue; trimming keeps the first `limit` places. */
  lemma PlaceOf(u: State, limit: nat, k: CacheKey) returns (i: nat)
    requires Consistent(u) && k in u.store
    ensures i < |u.queue| && u.queue[i] == k
    ensures k in Trim(u, limit).store <==> limit == 0 || i < limit
  {
    MembersStored(u);
    i :| 0 <= i < |u.queue| && u.queue[i] == k;
    if 0 < limit < |u.queue| {
      FrontHolds(u.queue, limit, i);
    }
  }

  lemma FrontHolds(q: seq<CacheKey>, n: nat, i: nat)
    requires Distinct(q) && i < |q| && n <= |q|
    ensures q[i] in q[..n] <==> i < n
  {
    if i < n {
      assert q[..n][i] == q[i];
    } else {
      assert forall j :: 0 <= j < n ==> q[..n][j] == q[j] != q[i];
    }
  }

  lemma InsertDescending(ops: seq<Op>, it: Item, limit: nat)
    ensures Descending(Insert(After(ops, limit), it).queue, k => LastTouch(ops + [DoSet(it)], limit, k))
  {
    var all := ops + [DoSet(it)];
    assert all[..|ops|] == ops;
    QueueByLastTouch(ops, limit);
    var rank := (k: CacheKey) => LastTouch(ops, limit, k);
    var rank' := (k: CacheKey) => LastTouch(all, limit, k);
    forall k ensures -1 <= rank(k) < |ops| && (k != it.key ==> rank'(k) == rank(k)) {
      LastTouchBound(ops, limit, k);
    }
    DescendingTouch(After(ops, limit).queue, it.key, rank, rank');
  }
}
