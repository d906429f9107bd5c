/** Runs that also contain batch writes (`set_batch`, `warm`) and batch lookups (`get_batch`). */
module CacheBatches {
  import opened Ints
  import opened Cache
  import opened CacheRuns

  datatype BatchOp =
    | Single(op: Op)
    | SetMany(items: seq<Item>)
    | GetMany(keys: seq<CacheKey>, now: u64)

  function ApplyBatch(s: State, b: BatchOp, limit: nat): State {
    match b
    case Single(op) => Apply(s, op, limit)
    case SetMany(items) => Trim(InsertAll(s, items), limit)
    case GetMany(keys, now) => GetEach(s, keys, now)
  }

  function AfterBatches(bs: seq<BatchOp>, limit: nat): State {
    if bs == [] then EMPTY else ApplyBatch(AfterBatches(bs[..|bs| - 1], limit), bs[|bs| - 1], limit)
  }

  /** The single operations a batch stands for. */
  function Expand(b: BatchOp): seq<Op> {
    match b
    case Single(op) => [op]
    case SetMany(items) => seq(|items|, i requires 0 <= i < |items| => DoSet(items[i]))
    case GetMany(keys, now) => seq(|keys|, i requires 0 <= i < |keys| => DoGet(keys[i], now))
  }

  function Flatten(bs: seq<BatchOp>): seq<Op> {
    if bs == [] then [] else Flatten(bs[..|bs| - 1]) + Expand(bs[|bs| - 1])
  }

  /** The same cache, except that `s` may have counted fewer evictions. */
  predicate Alike(s: State, t: State) {
    && s.store == t.store && s.queue == t.queue
    && s.stats.evictions <= t.stats.evictions
    && s.stats.(evictions := 0) == t.stats.(evictions := 0)
  }

  lemma ApplyAlike(s: State, t: State, op: Op, limit: nat)
    requires Alike(s, t)
    ensures Alike(Apply(s, op, limit), Apply(t, op, limit))
  {
  }

  /** A run continued from a given state. */
  function Continue(s: State, ops: seq<Op>, limit: nat): State {
    if ops == [] then s else Apply(Continue(s, ops[..|ops| - 1], limit), ops[|ops| - 1], limit)
  }

  lemma {:induction false} ContinueAlike(s: State, t: State, ops: seq<Op>, limit: nat)
    requires Alike(s, t)
    ensures Alike(Continue(s, ops, limit), Continue(t, ops, limit))
  {
    if ops != [] {
      ContinueAlike(s, t, ops[..|ops| - 1], limit);
      ApplyAlike(Continue(s, ops[..|ops| - 1], limit), Continue(t, ops[..|ops| - 1], limit), ops[|ops| - 1], limit);
    }
  }

  lemma {:induction false} ContinueAfter(a: seq<Op>, b: seq<Op>, limit: nat)
    ensures After(a + b, limit) == Continue(After(a, limit), b, limit)
  {
    if b == [] {
      assert a + b == a;
    } else {
      assert (a + b)[..|a + b| - 1] == a + b[..|b| - 1];
      ContinueAfter(a, b[..|b| - 1], limit);
    }
  }

  lemma {:induction false} SetsContinue(s: State, items: seq<Item>, limit: nat)
    ensures Continue(s, Expand(SetMany(items)), limit) == SetEach(s, items, limit)
  {
    if items != [] {
      var front := items[..|items| - 1];
      SetsContinue(s, front, limit);
      assert Expand(SetMany(items))[..|items| - 1] == Expand(SetMany(front));
    }
  }

  lemma {:induction false} GetsContinue(s: State, keys: seq<CacheKey>, now: u64, limit: nat)
    ensures Continue(s, Expand(GetMany(keys, now)), limit) == GetEach(s, keys, now)
  {
    if keys != [] {
      var front := keys[..|keys| - 1];
      GetsContinue(s, front, now, limit);
      assert Expand(GetMany(keys, now))[..|keys| - 1] == Expand(GetMany(front, now));
    }
  }

  /** A batch does what its single operations do. */
  lemma BatchAlike(s: State, b: BatchOp, limit: nat)
    requires Within(s, limit)
    ensures Alike(ApplyBatch(s, b, limit), Continue(s, Expand(b), limit))
  {
    match b
    case Single(op) =>
      assert Expand(b)[..0] == [];
      assert Continue(s, Expand(b), limit) == Apply(Continue(s, [], limit), op, limit);
    case SetMany(items) =>
      BatchEqualsSingles(s, items, limit);
      SetsContinue(s, items, limit);
    case GetMany(keys, now) =>
      GetsContinue(s, keys, now, limit);
  }

  /**
   A run with batches leaves the same entries, order, hits, misses and expiries as the run of
   its single operations, and counts no more evictions. In every state it reaches the queue
   permutes the stored keys and the size fits the limit.
   */
  lemma {:induction false} BatchesFlatten(bs: seq<BatchOp>, limit: nat)
    ensures Alike(AfterBatches(bs, limit), After(Flatten(bs), limit))
    ensures Within(AfterBatches(bs, limit), limit)
  {
    AlwaysWithin(Flatten(bs), limit);
    if bs != [] {
      var front, b := bs[..|bs| - 1], bs[|bs| - 1];
      BatchesFlatten(front, limit);
      var s, t := AfterBatches(front, limit), After(Flatten(front), limit);
      BatchAlike(s, b, limit);
      ContinueAlike(s, t, Expand(b), limit);
      ContinueAfter(Flatten(front), Expand(b), limit);
    }
  }

  /** Inclusion, answers and lookup counts carry over to runs with batches. */
  lemma {:induction false} BatchInclusion(bs: seq<BatchOp>, n: nat, m: nat)
    requires 0 < n && (m == 0 || n <= m)
    ensures Included(AfterBatches(bs, n), AfterBatches(bs, m), n, m)
  {
    LruInclusion(Flatten(bs), n, m);
    BatchesFlatten(bs, n);
    BatchesFlatten(bs, m);
  }

  lemma {:induction false} BatchAnswers(bs: seq<BatchOp>, limit: nat, k: CacheKey, now: u64)
    ensures var s := AfterBatches(bs, limit);
            && (Answer(s, k, now).Some? ==> Answer(s, k, now) == PlainAnswer(Flatten(bs), k, now))
            && s.stats.hits == Answered(Flatten(bs), limit) && s.stats.misses == Absent(Flatten(bs), limit)
            && s.stats.hits + s.stats.misses + s.stats.expired == Lookups(Flatten(bs))
  {
    BatchesFlatten(bs, limit);
    NeverInvents(Flatten(bs), limit, k, now);
    LookupsCounted(Flatten(bs), limit);
  }

  /** In any run, the i-th answer of a batch lookup is for the i-th key, and never more than the plain map's. */
  lemma {:induction false} BatchLookup(bs: seq<BatchOp>, limit: nat, keys: seq<CacheKey>, now: u64, i: nat)
    requires i < |keys|
    ensures var answers := AnswersEach(AfterBatches(bs, limit), keys, now);
            && |answers| == |keys| && answers[i].0 == keys[i]
            && (answers[i].1.None? || answers[i].1 == PlainAnswer(Flatten(bs), keys[i], now))
  {
    BatchAnswersEach(AfterBatches(bs, limit), keys, now);
    BatchAnswers(bs, limit, keys[i], now);
  }
}
