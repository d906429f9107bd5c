/**
 `InMemoryCache` of `src/cache.rs`: a hash map with time-to-live, a recency queue, an
 optional size limit and counters. Clock readings are arguments.
 */
module Cache {
  import opened Common
  import opened Ints
  import opened Recency

  datatype CacheKey = Verification(id: string) | Config(id: string) | Events(id: string)

  datatype Entry = Entry(value: string, expiresAt: u64)

  datatype Stats = Stats(hits: nat, misses: nat, expired: nat, evictions: nat)

  datatype State = State(store: map<CacheKey, Entry>, queue: seq<CacheKey>, stats: Stats)

  const EMPTY := State(map[], [], Stats(0, 0, 0, 0))

  /** One write of a batch, with the clock reading taken while it is inserted. */
  datatype Item = Item(key: CacheKey, value: string, ttl: u64, now: u64)

  // ---------- What each operation does, on values ----------

  function Answer(s: State, k: CacheKey, now: u64): Option<string> {
    if k in s.store && s.store[k].expiresAt > now then Some(s.store[k].value) else None
  }

  function Get(s: State, k: CacheKey, now: u64): State {
    if k !in s.store then s.(stats := s.stats.(misses := s.stats.misses + 1))
    else if s.store[k].expiresAt > now then
      s.(queue := Touch(s.queue, k), stats := s.stats.(hits := s.stats.hits + 1))
    else
      State(s.store - {k}, Without(s.queue, k), s.stats.(expired := s.stats.expired + 1))
  }

  function Insert(s: State, it: Item): State {
    s.(store := s.store[it.key := Entry(it.value, SatAdd64(it.now, it.ttl))],
       queue := Touch(s.queue, it.key))
  }

  /** Keep only the `n` most recently used entries, counting the others as evicted. */
  function Cut(s: State, n: nat): State
    requires n <= |s.queue|
  {
    State(map k | k in s.store && k in s.queue[..n] :: s.store[k],
          s.queue[..n],
          s.stats.(evictions := s.stats.evictions + |s.queue| - n))
  }

  /** A limit of zero means no limit. */
  function Trim(s: State, limit: nat): State {
    if limit == 0 || |s.queue| <= limit then s else Cut(s, limit)
  }

  function Set(s: State, it: Item, limit: nat): State { Trim(Insert(s, it), limit) }

  function Delete(s: State, k: CacheKey): State {
    State(s.store - {k}, Without(s.queue, k), s.stats)
  }

  /** The queue is a duplicate-free permutation of the stored keys. */
  ghost predicate Consistent(s: State) {
    Distinct(s.queue) && Elements(s.queue) == s.store.Keys
  }

  ghost predicate Within(s: State, limit: nat) {
    Consistent(s) && (limit > 0 ==> |s.queue| <= limit)
  }

  lemma SizeOfStore(s: State)
    requires Consistent(s)
    ensures |s.store| == |s.queue|
  {
    ElementsSize(s.queue);
    assert |s.store| == |s.store.Keys|;
  }

  lemma InsertConsistent(s: State, it: Item)
    requires Consistent(s)
    ensures Consistent(Insert(s, it))
    ensures |Insert(s, it).queue| == |s.queue| + if it.key in s.store then 0 else 1
  {
    DistinctTouch(s.queue, it.key);
    assert it.key in s.queue <==> it.key in Elements(s.queue);
  }

  lemma TrimWithin(s: State, limit: nat)
    requires Consistent(s)
    ensures Within(Trim(s, limit), limit)
  {
    if !(limit == 0 || |s.queue| <= limit) {
      CutConsistent(s, limit);
    }
  }

  lemma GetWithin(s: State, k: CacheKey, now: u64, limit: nat)
    requires Within(s, limit)
    ensures Within(Get(s, k, now), limit)
  {
    assert k in s.queue <==> k in Elements(s.queue);
    DistinctTouch(s.queue, k);
    DistinctWithout(s.queue, k);
    assert Elements(Without(s.queue, k)) == Elements(s.queue) - {k};
  }

  lemma DeleteWithin(s: State, k: CacheKey, limit: nat)
    requires Within(s, limit)
    ensures Within(Delete(s, k), limit)
  {
    DistinctWithout(s.queue, k);
    assert Elements(Without(s.queue, k)) == Elements(s.queue) - {k};
  }

  /** A write ends up in front, holds its value, and pushes out at most the oldest entry. */
  lemma {:induction false} SetKeepsNewKey(s: State, it: Item, limit: nat)
    requires Within(s, limit)
    ensures Within(Set(s, it, limit), limit)
    ensures var t := Set(s, it, limit);
            && it.key in t.store && t.store[it.key] == Entry(it.value, SatAdd64(it.now, it.ttl))
            && t.queue != [] && t.queue[0] == it.key
            && t.stats.evictions <= s.stats.evictions + 1
  {
    InsertConsistent(s, it);
    TrimWithin(Insert(s, it), limit);
    assert Insert(s, it).queue[0] == it.key;
  }

  // ---------- The object ----------

  class InMemoryCache {
    const maxSize: nat
    var store: map<CacheKey, Entry>
    var queue: seq<CacheKey>
    var stats: Stats

    ghost function View(): State
      reads this
    {
      State(store, queue, stats)
    }

    ghost predicate Valid()
      reads this
    {
      Within(View(), maxSize)
    }

    constructor (maxSize: nat)
      ensures Valid() && View() == EMPTY && this.maxSize == maxSize
    {
      this.maxSize := maxSize;
      store, queue, stats := map[], [], Stats(0, 0, 0, 0);
    }

    method GetRaw(key: CacheKey, now: u64) returns (value: Option<string>, wasExpired: bool)
      requires Valid()
      modifies this
      ensures Valid() && View() == Get(old(View()), key, now)
      ensures value == Answer(old(View()), key, now)
      ensures wasExpired <==> key in old(store) && value == None
    {
      GetWithin(View(), key, now, maxSize);
      if key in store && store[key].expiresAt > now {
        value, wasExpired := Some(store[key].value), false;
        queue := Touch(queue, key);
        stats := stats.(hits := stats.hits + 1);
      } else if key in store {
        store, queue := store - {key}, Without(queue, key);
        stats := stats.(expired := stats.expired + 1);
        value, wasExpired := None, true;
      } else {
        stats := stats.(misses := stats.misses + 1);
        value, wasExpired := None, false;
      }
    }

    method PopBack()
      requires queue != []
      modifies this
      ensures View() == Pop(old(View()))
    {
      var lruKey := queue[|queue| - 1];
      queue := queue[..|queue| - 1];
      store := store - {lruKey};
      stats := stats.(evictions := stats.evictions + 1);
    }

    /** Pop from the back until the size fits; the queue never runs out first. */
    method EvictOverflow()
      requires Consistent(View())
      modifies this
      ensures Valid() && View() == Trim(old(View()), maxSize)
    {
      ghost var s := View();
      ghost var t := s;
      CutAll(s);
      if maxSize > 0 {
        while |store| > maxSize
          invariant View() == t && |t.store| == |t.queue| && IsCut(s, |t.queue|, t)
          invariant |t.queue| == |s.queue| || maxSize <= |t.queue|
          decreases |queue|
        {
          if |queue| == 0 { assert false; }  // the source's `break`
          PopOne(s, |queue|, t);
          t := Pop(t);
          PopBack();
        }
      }
      EvictionDone(s, t, maxSize);
    }

    method SetRaw(key: CacheKey, value: string, ttl: u64, now: u64)
      requires Valid()
      modifies this
      ensures Valid() && View() == Set(old(View()), Item(key, value, ttl, now), maxSize)
    {
      InsertConsistent(View(), Item(key, value, ttl, now));
      store := store[key := Entry(value, SatAdd64(now, ttl))];
      queue := Touch(queue, key);
      EvictOverflow();
    }

    method DeleteKey(key: CacheKey)
      requires Valid()
      modifies this
      ensures Valid() && View() == Delete(old(View()), key)
    {
      DeleteWithin(View(), key, maxSize);
      store, queue := store - {key}, Without(queue, key);
    }

    /** Both `set_batch` and `warm`: insert everything, then evict once. */
    method SetBatch(items: seq<Item>) returns (count: nat)
      requires Valid()
      modifies this
      ensures Valid() && View() == Trim(InsertAll(old(View()), items), maxSize)
      ensures count == |items|
    {
      count := 0;
      while count < |items|
        invariant 0 <= count <= |items|
        invariant Consistent(View()) && View() == InsertAll(old(View()), items[..count])
      {
        var it := items[count];
        InsertConsistent(View(), it);
        assert items[..count + 1][..count] == items[..count];
        store := store[it.key := Entry(it.value, SatAdd64(it.now, it.ttl))];
        queue := Touch(queue, it.key);
        count := count + 1;
      }
      assert items[..count] == items;
      EvictOverflow();
    }

    /** One clock reading for the whole batch. */
    method GetBatch(keys: seq<CacheKey>, now: u64) returns (results: seq<(CacheKey, Option<string>)>)
      requires Valid()
      modifies this
      ensures Valid() && View() == GetEach(old(View()), keys, now)
      ensures results == AnswersEach(old(View()), keys, now)
    {
      results := [];
      var i := 0;
      while i < |keys|
        invariant 0 <= i <= |keys|
        invariant View() == GetEach(old(View()), keys[..i], now)
        invariant results == AnswersEach(old(View()), keys[..i], now)
      {
        var key := keys[i];
        ghost var s := View();
        var value := None;
        if key in store && store[key].expiresAt > now {
          value := Some(store[key].value);
          queue := Touch(queue, key);
          stats := stats.(hits := stats.hits + 1);
        } else if key in store {
          store, queue := store - {key}, Without(queue, key);
          stats := stats.(expired := stats.expired + 1);
        } else {
          stats := stats.(misses := stats.misses + 1);
        }
        assert View() == Get(s, key, now) && value == Answer(s, key, now);
        GetNext(old(View()), keys, now, i);
        results := results + [(key, value)];
        i := i + 1;
      }
      assert keys[..i] == keys;
      GetEachWithin(old(View()), keys, now, maxSize);
    }
  }

  lemma CutAll(s: State)
    requires Consistent(s)
    ensures IsCut(s, |s.queue|, s) && |s.store| == |s.queue|
  {
    SizeOfStore(s);
    assert s.queue[..|s.queue|] == s.queue;
    assert forall k :: k in s.store ==> k in Elements(s.queue);
  }

  lemma CutConsistent(s: State, n: nat)
    requires Consistent(s) && n <= |s.queue|
    ensures Consistent(Cut(s, n)) && |Cut(s, n).store| == n
  {
    var t := Cut(s, n);
    assert forall k :: k in t.queue ==> k in Elements(s.queue);
    assert Elements(t.queue) == t.store.Keys;
    SizeOfStore(t);
  }

  ghost predicate IsCut(s: State, n: nat, t: State) {
    n <= |s.queue| && t == Cut(s, n)
  }

  lemma CutOne(s: State, n: nat)
    requires Consistent(s) && 0 < n <= |s.queue|
    ensures Cut(s, n - 1).store == Cut(s, n).store - {s.queue[n - 1]}
  {
    var q, z := s.queue[..n], s.queue[n - 1];
    assert q == q[..n - 1] + [z] && q[..n - 1] == s.queue[..n - 1];
    assert forall i :: 0 <= i < n - 1 ==> q[i] != z;
  }

  function Pop(t: State): State
    requires t.queue != []
  {
    State(t.store - {t.queue[|t.queue| - 1]}, t.queue[..|t.queue| - 1],
          t.stats.(evictions := t.stats.evictions + 1))
  }

  /** One pop from the back. */
  lemma PopIsCut(s: State, n: nat)
    requires Consistent(s) && 0 < n <= |s.queue|
    ensures Pop(Cut(s, n)) == Cut(s, n - 1)
  {
    CutOne(s, n);
    assert s.queue[..n][..n - 1] == s.queue[..n - 1];
  }

  lemma CutSize(s: State, n: nat, t: State)
    requires Consistent(s) && n <= |s.queue| && t == Cut(s, n)
    ensures |t.store| == |t.queue| == n && IsCut(s, |t.queue|, t)
  {
    CutConsistent(s, n);
  }

  lemma PopOne(s: State, n: nat, t: State)
    requires Consistent(s) && n > 0 && IsCut(s, n, t)
    ensures |t.queue| == n && |Pop(t).store| == |Pop(t).queue| == n - 1
    ensures IsCut(s, |Pop(t).queue|, Pop(t))
  {
    PopIsCut(s, n);
    CutSize(s, n - 1, Pop(t));
  }

  lemma EvictionDone(s: State, t: State, limit: nat)
    requires Consistent(s) && IsCut(s, |t.queue|, t)
    requires |t.queue| == |s.queue| || (limit > 0 && |t.queue| == limit)
    requires limit > 0 ==> |t.queue| <= limit
    ensures t == Trim(s, limit) && Within(t, limit)
  {
    CutAll(s);
    TrimWithin(s, limit);
  }

  // ---------- Batches against single operations ----------

  function InsertAll(s: State, items: seq<Item>): State {
    if items == [] then s else Insert(InsertAll(s, items[..|items| - 1]), items[|items| - 1])
  }

  function SetEach(s: State, items: seq<Item>, limit: nat): State {
    if items == [] then s else Set(SetEach(s, items[..|items| - 1], limit), items[|items| - 1], limit)
  }

  function GetEach(s: State, keys: seq<CacheKey>, now: u64): State {
    if keys == [] then s else Get(GetEach(s, keys[..|keys| - 1], now), keys[|keys| - 1], now)
  }

  function AnswersEach(s: State, keys: seq<CacheKey>, now: u64): seq<(CacheKey, Option<string>)> {
    if keys == [] then []
    else
      var front, k := keys[..|keys| - 1], keys[|keys| - 1];
      AnswersEach(s, front, now) + [(k, Answer(GetEach(s, front, now), k, now))]
  }

  /** A lookup changes no answer at the same clock reading. */
  lemma GetKeepsAnswers(s: State, k: CacheKey, now: u64, key: CacheKey)
    ensures Answer(Get(s, k, now), key, now) == Answer(s, key, now)
  {
  }

  lemma {:induction false} EachKeepsAnswers(s: State, keys: seq<CacheKey>, now: u64, key: CacheKey)
    ensures Answer(GetEach(s, keys, now), key, now) == Answer(s, key, now)
  {
    if keys != [] {
      EachKeepsAnswers(s, keys[..|keys| - 1], now, key);
      GetKeepsAnswers(GetEach(s, keys[..|keys| - 1], now), keys[|keys| - 1], now, key);
    }
  }

  /** A batch of lookups answers each key, in order, as one lookup at the start would. */
  lemma {:induction false} BatchAnswersEach(s: State, keys: seq<CacheKey>, now: u64)
    ensures |AnswersEach(s, keys, now)| == |keys|
    ensures forall i :: 0 <= i < |keys| ==> AnswersEach(s, keys, now)[i] == (keys[i], Answer(s, keys[i], now))
  {
    if keys != [] {
      var front := keys[..|keys| - 1];
      BatchAnswersEach(s, front, now);
      EachKeepsAnswers(s, front, now, keys[|keys| - 1]);
    }
  }

  lemma {:induction false} GetEachWithin(s: State, keys: seq<CacheKey>, now: u64, limit: nat)
    requires Within(s, limit)
    ensures Within(GetEach(s, keys, now), limit)
  {
    if keys != [] {
      GetEachWithin(s, keys[..|keys| - 1], now, limit);
      GetWithin(GetEach(s, keys[..|keys| - 1], now), keys[|keys| - 1], now, limit);
    }
  }

  lemma GetNext(s: State, keys: seq<CacheKey>, now: u64, i: nat)
    requires i < |keys|
    ensures GetEach(s, keys[..i + 1], now) == Get(GetEach(s, keys[..i], now), keys[i], now)
    ensures AnswersEach(s, keys[..i + 1], now) ==
            AnswersEach(s, keys[..i], now) + [(keys[i], Answer(GetEach(s, keys[..i], now), keys[i], now))]
  {
    assert keys[..i + 1][..i] == keys[..i];
  }

  /** `t` is the trimmed form of `u`, having evicted at least as often. */
  ghost predicate Trimmed(t: State, u: State, limit: nat)
    requires limit > 0
  {
    && Consistent(u) && Consistent(t)
    && t.queue == Take(u.queue, limit)
    && (forall k :: k in t.store ==> k in u.store && t.store[k] == u.store[k])
    && t.stats.evictions >= u.stats.evictions + |u.queue| - |t.queue|
    && t.stats == u.stats.(evictions := t.stats.evictions)
  }

  lemma TrimmedStep(t: State, u: State, it: Item, limit: nat)
    requires limit > 0 && Trimmed(t, u, limit)
    ensures Trimmed(Set(t, it, limit), Insert(u, it), limit)
  {
    InsertConsistent(t, it);
    InsertConsistent(u, it);
    TrimWithin(Insert(t, it), limit);
    TakeTouch(u.queue, it.key, limit);
    TrimQueue(Insert(t, it), limit);
    assert it.key in t.store ==> it.key in u.store;
  }

  lemma TrimQueue(s: State, limit: nat)
    requires limit > 0
    ensures Trim(s, limit).queue == Take(s.queue, limit)
    ensures Trim(s, limit).stats == s.stats.(evictions := s.stats.evictions + |s.queue| - |Trim(s, limit).queue|)
    ensures forall k :: k in Trim(s, limit).store ==> k in s.store && Trim(s, limit).store[k] == s.store[k]
  {
  }

  lemma {:induction false} TrimmedRun(s: State, items: seq<Item>, limit: nat)
    requires limit > 0 && Within(s, limit)
    ensures Trimmed(SetEach(s, items, limit), InsertAll(s, items), limit)
  {
    if items != [] {
      var front := items[..|items| - 1];
      TrimmedRun(s, front, limit);
      TrimmedStep(SetEach(s, front, limit), InsertAll(s, front), items[|items| - 1], limit);
    }
  }

  /** What is trimmed after every write is what one trim at the end leaves. */
  lemma TrimmedIsTrim(t: State, u: State, limit: nat)
    requires limit > 0 && Trimmed(t, u, limit)
    ensures Trim(u, limit).queue == t.queue && Trim(u, limit).store == t.store
    ensures Trim(u, limit).stats.evictions <= t.stats.evictions
    ensures Trim(u, limit).stats.(evictions := 0) == t.stats.(evictions := 0)
  {
    TrimQueue(u, limit);
    TrimWithin(u, limit);
    assert Trim(u, limit).store.Keys == t.store.Keys;
  }

  /**
   Evicting once at the end of a batch leaves the same entries in the same order as
   evicting after every write, and never counts more evictions.
   */
  lemma {:induction false} BatchEqualsSingles(s: State, items: seq<Item>, limit: nat)
    requires Within(s, limit)
    ensures var batch, each := Trim(InsertAll(s, items), limit), SetEach(s, items, limit);
            && batch.store == each.store && batch.queue == each.queue
            && batch.stats.evictions <= each.stats.evictions
            && batch.stats.(evictions := 0) == each.stats.(evictions := 0)
  {
    if limit == 0 {
      UnlimitedSetEach(s, items);
    } else {
      TrimmedRun(s, items, limit);
      TrimmedIsTrim(SetEach(s, items, limit), InsertAll(s, items), limit);
    }
  }

  lemma {:induction false} UnlimitedSetEach(s: State, items: seq<Item>)
    ensures SetEach(s, items, 0) == InsertAll(s, items)
  {
    if items != [] {
      UnlimitedSetEach(s, items[..|items| - 1]);
    }
  }
}
