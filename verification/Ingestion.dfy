/** `EventIngestor` and `EventStore` of `src/event.rs`. */
module Ingestion {
  import opened Ints
  import opened EventKeys

  datatype Event = Event(aggregateId: string, eventType: string, sequence: u64, key: string)

  datatype Verdict = Accepted | Duplicate | OutOfOrder

  /** Keys seen so far (accepted or not) and the last accepted sequence of each aggregate. */
  datatype Intake = Intake(seen: set<string>, last: map<string, u64>)

  const EMPTY := Intake({}, map[])

  function Judge(s: Intake, e: Event): Verdict {
    if e.key in s.seen then Duplicate
    else if e.aggregateId in s.last && e.sequence <= s.last[e.aggregateId] then OutOfOrder
    else Accepted
  }

  function Next(s: Intake, e: Event): Intake {
    Intake(s.seen + {e.key},
           if Judge(s, e) == Accepted then s.last[e.aggregateId := e.sequence] else s.last)
  }

  function After(es: seq<Event>): Intake {
    if es == [] then EMPTY else Next(After(es[..|es| - 1]), es[|es| - 1])
  }

  /** The verdict on the event at position `i` of a stream. */
  function VerdictAt(es: seq<Event>, i: nat): Verdict
    requires i < |es|
  {
    Judge(After(es[..i]), es[i])
  }

  class EventIngestor {
    var seenKeys: set<string>
    var lastSequence: map<string, u64>

    ghost function View(): Intake
      reads this
    {
      Intake(seenKeys, lastSequence)
    }

    constructor ()
      ensures View() == EMPTY
    {
      seenKeys, lastSequence := {}, map[];
    }

    /** The key is recorded before the order is checked. */
    method Ingest(e: Event) returns (v: Verdict)
      modifies this
      ensures View() == Next(old(View()), e)
      ensures v == Judge(old(View()), e)
    {
      if e.key in seenKeys {
        assert seenKeys + {e.key} == seenKeys;
        return Duplicate;
      }
      seenKeys := seenKeys + {e.key};
      if e.aggregateId in lastSequence {
        if e.sequence <= lastSequence[e.aggregateId] {
          return OutOfOrder;
        }
      }
      lastSequence := lastSequence[e.aggregateId := e.sequence];
      return Accepted;
    }
  }

  // ---------- Every stream ----------

  lemma {:induction false} SeenIsDelivered(es: seq<Event>, k: string)
    ensures k in After(es).seen <==> exists i :: 0 <= i < |es| && es[i].key == k
  {
    if es != [] {
      SeenIsDelivered(es[..|es| - 1], k);
      if k in After(es).seen && k != es[|es| - 1].key {
        var i :| 0 <= i < |es| - 1 && es[..|es| - 1][i].key == k;
        assert es[i].key == k;
      } else if i :| 0 <= i < |es| && es[i].key == k {
        assert i < |es| - 1 ==> es[..|es| - 1][i].key == k;
      }
    }
  }

  /** `last` is an upper bound of what was delivered for an aggregate, and was itself delivered. */
  ghost predicate LastIsMax(es: seq<Event>, m: map<string, u64>, agg: string) {
    && (forall i :: 0 <= i < |es| && es[i].aggregateId == agg && Fresh(es, i) ==>
          agg in m && es[i].sequence <= m[agg])
    && (agg in m ==> exists i :: 0 <= i < |es| && Attains(es[i], agg, m[agg]) && Fresh(es, i))
  }

  predicate Attains(e: Event, agg: string, v: nat) { e.aggregateId == agg && e.sequence == v }

  /** First delivery of its key. */
  ghost predicate Fresh(es: seq<Event>, i: nat)
    requires i < |es|
  {
    forall j :: 0 <= j < i ==> es[j].key != es[i].key
  }

  lemma {:induction false} LastAlwaysMax(es: seq<Event>, agg: string)
    ensures LastIsMax(es, After(es).last, agg)
  {
    if es != [] {
      var n := |es| - 1;
      var front, e := es[..n], es[n];
      LastAlwaysMax(front, agg);
      SeenIsDelivered(front, e.key);
      var m, m' := After(front).last, After(es).last;
      forall i | 0 <= i < |es| && es[i].aggregateId == agg && Fresh(es, i)
        ensures agg in m' && es[i].sequence <= m'[agg]
      {
        if i < n {
          assert front[i] == es[i] && Fresh(front, i);
        } else {
          assert e.key !in After(front).seen;
        }
      }
      if agg in m' {
        if Judge(After(front), e) == Accepted && e.aggregateId == agg {
          assert Attains(es[n], agg, m'[agg]) && Fresh(es, n);
        } else {
          var i :| 0 <= i < n && Attains(front[i], agg, m[agg]) && Fresh(front, i);
          assert Attains(es[i], agg, m'[agg]) && Fresh(es, i);
        }
      }
    }
  }

  /** Whatever the stream, an aggregate's accepted events come in strictly increasing sequence. */
  lemma {:induction false} AcceptedIncrease(es: seq<Event>, i: nat, j: nat)
    requires i < j < |es| && es[i].aggregateId == es[j].aggregateId
    requires VerdictAt(es, i) == Accepted && VerdictAt(es, j) == Accepted
    ensures es[i].sequence < es[j].sequence && es[i].key != es[j].key
  {
    var agg := es[i].aggregateId;
    LastAlwaysMax(es[..j], agg);
    SeenIsDelivered(es[..i], es[i].key);
    SeenIsDelivered(es[..j], es[j].key);
    assert es[..j][i] == es[i];
    forall k | 0 <= k < i ensures es[..j][k].key != es[..j][i].key {
      assert es[..i][k] == es[k];
    }
    assert Fresh(es[..j], i);
  }

  /**
   The verdict on any event of any stream: a duplicate if its key came before; otherwise out
   of order if an event of its aggregate, itself no duplicate, came before with a sequence at
   least as high; otherwise accepted.
   */
  lemma {:induction false} StreamVerdict(es: seq<Event>, i: nat)
    requires i < |es|
    ensures VerdictAt(es, i) ==
            if !Fresh(es, i) then Duplicate
            else if exists j :: 0 <= j < i && es[j].aggregateId == es[i].aggregateId && Fresh(es, j) &&
                                es[j].sequence >= es[i].sequence then OutOfOrder
            else Accepted
  {
    var prev, e := es[..i], es[i];
    SeenIsDelivered(prev, e.key);
    LastAlwaysMax(prev, e.aggregateId);
    assert forall j :: 0 <= j < i ==> prev[j] == es[j] && (Fresh(prev, j) <==> Fresh(es, j));
    assert Fresh(es, i) <==> e.key !in After(prev).seen;
  }

  /** An event turned away for its order has spent its key: redelivering it never succeeds. */
  lemma {:induction false} OutOfOrderIsLost(es: seq<Event>, i: nat, j: nat)
    requires i < j < |es| && VerdictAt(es, i) == OutOfOrder && es[j].key == es[i].key
    ensures VerdictAt(es, j) == Duplicate
  {
    SeenIsDelivered(es[..j], es[j].key);
    assert es[..j][i].key == es[j].key;
  }

  // ---------- Contract events, delivered any number of times ----------

  datatype Source = Source(context: Context, aggregateId: string, eventType: string)

  function EventOf(s: Source): Event {
    Event(s.aggregateId, s.eventType, Sequence(s.context),
          IdempotencyKey(s.context, s.aggregateId, s.eventType))
  }

  ghost predicate WellFormed(s: Source) {
    ':' !in s.context.transactionHash && ':' !in s.eventType && Packs(s.context)
  }

  /** Events in on-chain order, strictly increasing within each aggregate. */
  ghost predicate OnChain(sources: seq<Source>) {
    && (forall i :: 0 <= i < |sources| ==> WellFormed(sources[i]))
    && (forall i, j :: 0 <= i < j < |sources| && sources[i].aggregateId == sources[j].aggregateId ==>
          Before(sources[i].context, sources[j].context))
  }

  ghost predicate Names(sources: seq<Source>, d: seq<nat>) {
    forall j :: 0 <= j < |d| ==> d[j] < |sources|
  }

  function Delivered(sources: seq<Source>, d: seq<nat>): (es: seq<Event>)
    requires Names(sources, d)
    ensures |es| == |d|
  {
    seq(|d|, j requires 0 <= j < |d| => EventOf(sources[d[j]]))
  }

  /** Distinct on-chain events have distinct keys. */
  lemma KeysDistinct(sources: seq<Source>, i: nat, j: nat)
    requires OnChain(sources) && i < |sources| && j < |sources|
    requires EventOf(sources[i]).key == EventOf(sources[j]).key
    ensures i == j
  {
    var a, b := sources[i], sources[j];
    KeyInjective(a.context, a.aggregateId, a.eventType, b.context, b.aggregateId, b.eventType);
    assert i < j ==> Before(a.context, b.context);
    assert j < i ==> Before(b.context, a.context);
  }

  lemma SequencesFollow(sources: seq<Source>, i: nat, j: nat)
    requires OnChain(sources) && i < |sources| && j < |sources|
    requires sources[i].aggregateId == sources[j].aggregateId
    ensures EventOf(sources[i]).sequence < EventOf(sources[j]).sequence <==> i < j
  {
    SequenceOrder(sources[i].context, sources[j].context);
    if i < j {
      assert Before(sources[i].context, sources[j].context);
    } else if j < i {
      assert Before(sources[j].context, sources[i].context);
    }
  }

  predicate FirstDelivery(d: seq<nat>, j: nat)
    requires j < |d|
  {
    d[j] !in d[..j]
  }

  /** Nothing later of the same aggregate was delivered before. */
  ghost predicate Timely(sources: seq<Source>, d: seq<nat>, j: nat)
    requires Names(sources, d) && j < |d|
  {
    forall i :: 0 <= i < j && sources[d[i]].aggregateId == sources[d[j]].aggregateId ==> d[i] <= d[j]
  }

  lemma DeliveredPrefix(sources: seq<Source>, d: seq<nat>, j: nat)
    requires Names(sources, d) && j <= |d|
    ensures Names(sources, d[..j]) && Delivered(sources, d)[..j] == Delivered(sources, d[..j])
  {
  }

  lemma FreshIsFirst(sources: seq<Source>, d: seq<nat>, j: nat)
    requires OnChain(sources) && Names(sources, d) && j < |d|
    ensures Fresh(Delivered(sources, d), j) <==> FirstDelivery(d, j)
  {
    var es := Delivered(sources, d);
    forall i | 0 <= i < j ensures es[i].key == es[j].key <==> d[i] == d[j] {
      if es[i].key == es[j].key {
        KeysDistinct(sources, d[i], d[j]);
      }
    }
    if FirstDelivery(d, j) {
      assert forall i :: 0 <= i < j ==> d[..j][i] == d[i];
    } else {
      var i :| 0 <= i < j && d[..j][i] == d[j];
      assert es[i].key == es[j].key;
    }
  }

  /**
   The verdict on every delivery of any delivery pattern: a redelivery is a duplicate, and a
   first delivery is accepted exactly when no later event of its aggregate came before it.
   */
  lemma {:induction false} DeliveryVerdict(sources: seq<Source>, d: seq<nat>, j: nat)
    requires OnChain(sources) && Names(sources, d) && j < |d|
    ensures VerdictAt(Delivered(sources, d), j) ==
            if !FirstDelivery(d, j) then Duplicate
            else if Timely(sources, d, j) then Accepted
            else OutOfOrder
  {
    var es := Delivered(sources, d);
    var prev := es[..j];
    SeenIsDelivered(prev, es[j].key);
    FreshIsFirst(sources, d, j);
    assert forall i :: 0 <= i < j ==> prev[i] == es[i];
    if FirstDelivery(d, j) {
      LastAlwaysMax(prev, es[j].aggregateId);
      FirstVerdict(sources, d, j, After(prev).last);
    } else {
      assert !Fresh(es, j);
      var i :| 0 <= i < j && es[i].key == es[j].key;
      assert prev[i].key == es[j].key;
    }
  }

  lemma FirstVerdict(sources: seq<Source>, d: seq<nat>, j: nat, m: map<string, u64>)
    requires OnChain(sources) && Names(sources, d) && j < |d| && FirstDelivery(d, j)
    requires LastIsMax(Delivered(sources, d)[..j], m, sources[d[j]].aggregateId)
    ensures var agg := sources[d[j]].aggregateId;
            Timely(sources, d, j) <==> !(agg in m && Sequence(sources[d[j]].context) <= m[agg])
  {
    var agg := sources[d[j]].aggregateId;
    if agg in m && Sequence(sources[d[j]].context) <= m[agg] {
      LateIsBehind(sources, d, j, m);
    } else {
      forall i | 0 <= i < j && sources[d[i]].aggregateId == agg ensures d[i] <= d[j] {
        AheadIsTimely(sources, d, j, i, m);
      }
    }
  }

  lemma LateIsBehind(sources: seq<Source>, d: seq<nat>, j: nat, m: map<string, u64>)
    requires OnChain(sources) && Names(sources, d) && j < |d| && FirstDelivery(d, j)
    requires var agg := sources[d[j]].aggregateId;
             LastIsMax(Delivered(sources, d)[..j], m, agg) && agg in m && Sequence(sources[d[j]].context) <= m[agg]
    ensures !Timely(sources, d, j)
  {
    var es, agg := Delivered(sources, d), sources[d[j]].aggregateId;
    var i :| 0 <= i < |es[..j]| && Attains(es[..j][i], agg, m[agg]);
    assert es[..j][i] == es[i] == EventOf(sources[d[i]]);
    assert d[..j][i] == d[i] && d[i] != d[j];
    SequencesFollow(sources, d[i], d[j]);
    assert sources[d[i]].aggregateId == agg && d[i] > d[j];
  }

  lemma AheadIsTimely(sources: seq<Source>, d: seq<nat>, j: nat, i: nat, m: map<string, u64>)
    requires OnChain(sources) && Names(sources, d) && i < j < |d|
    requires var agg := sources[d[j]].aggregateId;
             && LastIsMax(Delivered(sources, d)[..j], m, agg) && sources[d[i]].aggregateId == agg
             && !(agg in m && Sequence(sources[d[j]].context) <= m[agg])
    ensures d[i] <= d[j]
  {
    var es := Delivered(sources, d);
    var f := FirstIndex(d, i);
    DeliveredPrefix(sources, d, j);
    assert d[..j][..f] == d[..f];
    FreshIsFirst(sources, d[..j], f);
    assert es[..j][f] == es[f] == EventOf(sources[d[f]]);
    SequencesFollow(sources, d[f], d[j]);
  }

  /** Where the event delivered at `i` was delivered first. */
  lemma FirstIndex(d: seq<nat>, i: nat) returns (f: nat)
    requires i < |d|
    ensures f <= i && d[f] == d[i] && FirstDelivery(d, f)
  {
    f := i;
    while d[f] in d[..f]
      invariant f <= i && d[f] == d[i]
      decreases f
    {
      var g :| 0 <= g < f && d[..f][g] == d[f];
      f := g;
    }
  }

  /** First deliveries respect the on-chain order of each aggregate; redeliveries are free. */
  ghost predicate InOrder(sources: seq<Source>, d: seq<nat>)
    requires Names(sources, d)
  {
    forall j :: 0 <= j < |d| && FirstDelivery(d, j) ==> Timely(sources, d, j)
  }

  /**
   Exactly once: every delivered event is accepted at its first delivery and at no other,
   if and only if first deliveries respect the on-chain order of each aggregate.
   */
  lemma {:induction false} ExactlyOnceIff(sources: seq<Source>, d: seq<nat>)
    requires OnChain(sources) && Names(sources, d)
    ensures (forall j :: 0 <= j < |d| ==>
               (VerdictAt(Delivered(sources, d), j) == Accepted <==> FirstDelivery(d, j)))
            <==> InOrder(sources, d)
  {
    forall j | 0 <= j < |d|
      ensures VerdictAt(Delivered(sources, d), j) == Accepted <==> FirstDelivery(d, j) && Timely(sources, d, j)
    {
      DeliveryVerdict(sources, d, j);
    }
  }

  // ---------- The append-only store ----------

  class EventStore {
    var events: map<string, seq<Event>>

    /** Each history is numbered 1, 2, 3, ... under its own aggregate. */
    ghost predicate Valid()
      reads this
    {
      forall a :: a in events ==>
        forall i :: 0 <= i < |events[a]| ==> events[a][i].sequence == i + 1 && events[a][i].aggregateId == a
    }

    function History(a: string): seq<Event>
      reads this
    {
      if a in events then events[a] else []
    }

    constructor ()
      ensures Valid() && events == map[]
    {
      events := map[];
    }

    method Append(a: string, e: Event) returns (finalized: Event)
      requires Valid() && |History(a)| + 1 < U64_LIMIT
      modifies this
      ensures Valid()
      ensures finalized == e.(sequence := |old(History(a))| + 1, aggregateId := a)
      ensures History(a) == old(History(a)) + [finalized]
      ensures forall b :: b != a ==> History(b) == old(History(b))
    {
      var history := History(a);
      finalized := e.(sequence := |history| + 1, aggregateId := a);
      events := events[a := history + [finalized]];
    }
  }
}
