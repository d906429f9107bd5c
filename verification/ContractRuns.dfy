/** Properties of whole runs of contract transactions, rollback included. */
module ContractRuns {
  import opened Common
  import opened Ints
  import opened Contract

  // ---------- Batches ----------

  function HashesOf(items: seq<DocumentInfo>): seq<Hash> {
    seq(|items|, i requires 0 <= i < |items| => items[i].hash)
  }

  function FreshRecord(issuer: Address, it: DocumentInfo, now: u64): Record {
    Record(issuer, it.owner, now, Active)
  }

  function RegisterEvents(issuer: Address, items: seq<DocumentInfo>): seq<Event> {
    seq(|items|, i requires 0 <= i < |items| => Registered(issuer, items[i].owner, items[i].hash))
  }

  function RevokeEvents(issuer: Address, hashes: seq<Hash>): seq<Event> {
    seq(|hashes|, i requires 0 <= i < |hashes| => Revocation(issuer, hashes[i]))
  }

  /** Exactly what a successful registration batch leaves behind. */
  ghost predicate RegisteredAll(l: Ledger, issuer: Address, items: seq<DocumentInfo>, now: u64,
                                l': Ledger, rs: seq<Record>)
  {
    && l' == l.(docs := l'.docs, events := l.events + RegisterEvents(issuer, items))
    && l'.docs.Keys == l.docs.Keys + (set h | h in HashesOf(items))
    && (forall h :: h in l.docs ==> l'.docs[h] == l.docs[h])
    && |rs| == |items|
    && (forall i :: 0 <= i < |items| ==>
          && rs[i] == FreshRecord(issuer, items[i], now)
          && items[i].hash in l'.docs && l'.docs[items[i].hash] == rs[i])
  }

  /** What a registration batch does, judged in the starting state. */
  ghost predicate RegisterOutcome(l: Ledger, issuer: Address, items: seq<DocumentInfo>, now: u64, a: Applied) {
    && (a.Done? <==> Distinct(HashesOf(items)) && forall h :: h in HashesOf(items) ==> h !in l.docs)
    && (a.Done? ==> RegisteredAll(l, issuer, items, now, a.ledger, a.records))
    && (a.Failed? ==> a.error == AlreadyRegistered)
  }

  /**
   A registration batch succeeds exactly when its hashes are pairwise distinct and none is
   registered in the starting state; then it leaves exactly those records and events.
   */
  lemma {:induction false} BatchRegisterIff(l: Ledger, issuer: Address, items: seq<DocumentInfo>, now: u64)
    ensures RegisterOutcome(l, issuer, items, now, RegisterAll(l, issuer, items, now))
  {
    if items == [] {
      assert HashesOf(items) == [] && RegisterEvents(issuer, items) == [];
    } else {
      var n := |items| - 1;
      BatchRegisterIff(l, issuer, items[..n], now);
      RegisterOneMore(l, issuer, items[..n], items[n], now, RegisterAll(l, issuer, items[..n], now),
                      RegisterAll(l, issuer, items, now));
      assert items == items[..n] + [items[n]];
    }
  }

  /** `b` is `a` followed by the next item. */
  lemma RegisterOneMore(l: Ledger, issuer: Address, front: seq<DocumentInfo>, it: DocumentInfo, now: u64,
                        a: Applied, b: Applied)
    requires RegisterOutcome(l, issuer, front, now, a)
    requires match a
             case Failed(e) => b == Failed(e)
             case Done(l1, rs) =>
               match RegisterOne(l1, issuer, it.owner, it.hash, now)
               case Failed(e) => b == Failed(e)
               case Done(l2, r) => b == Done(l2, rs + r)
    ensures RegisterOutcome(l, issuer, front + [it], now, b)
  {
    assert HashesOf(front + [it]) == HashesOf(front) + [it.hash];
    DistinctAppend(HashesOf(front), it.hash);
    assert forall h :: h in HashesOf(front) + [it.hash] <==> h in HashesOf(front) || h == it.hash;
    if b.Done? {
      RegisterExtends(l, issuer, front, it, now, a.ledger, a.records);
    }
  }

  lemma RegisterExtends(l: Ledger, issuer: Address, front: seq<DocumentInfo>, it: DocumentInfo, now: u64,
                        l1: Ledger, rs: seq<Record>)
    requires RegisteredAll(l, issuer, front, now, l1, rs) && it.hash !in l1.docs
    ensures var a := RegisterOne(l1, issuer, it.owner, it.hash, now);
            RegisteredAll(l, issuer, front + [it], now, a.ledger, rs + a.records)
  {
    assert HashesOf(front + [it]) == HashesOf(front) + [it.hash];
    EventsExtend(l, issuer, front, it);
    var r := FreshRecord(issuer, it, now);
    var l2 := RegisterOne(l1, issuer, it.owner, it.hash, now).ledger;
    assert l2.events == l.events + RegisterEvents(issuer, front + [it]);
    forall i | 0 <= i < |front| + 1
      ensures (front + [it])[i].hash in l2.docs
      ensures (rs + [r])[i] == FreshRecord(issuer, (front + [it])[i], now) == l2.docs[(front + [it])[i].hash]
    {
      RecordExtends(issuer, front, it, now, l1, rs, i);
    }
  }

  lemma RecordExtends(issuer: Address, front: seq<DocumentInfo>, it: DocumentInfo, now: u64,
                      l1: Ledger, rs: seq<Record>, i: nat)
    requires |rs| == |front| && i <= |front| && it.hash !in l1.docs
    requires i < |front| ==> front[i].hash in l1.docs &&
                             rs[i] == FreshRecord(issuer, front[i], now) == l1.docs[front[i].hash]
    ensures var r := FreshRecord(issuer, it, now);
            var docs := l1.docs[it.hash := r];
            var x := (front + [it])[i];
            x.hash in docs && (rs + [r])[i] == FreshRecord(issuer, x, now) == docs[x.hash]
  {
  }

  lemma EventsExtend(l: Ledger, issuer: Address, front: seq<DocumentInfo>, it: DocumentInfo)
    ensures l.events + RegisterEvents(issuer, front) + [Registered(issuer, it.owner, it.hash)]
         == l.events + RegisterEvents(issuer, front + [it])
  {
    assert RegisterEvents(issuer, front + [it])
        == RegisterEvents(issuer, front) + [Registered(issuer, it.owner, it.hash)];
  }

  lemma DistinctAppend(hs: seq<Hash>, h: Hash)
    ensures Distinct(hs + [h]) <==> Distinct(hs) && h !in hs
  {
    assert (hs + [h])[|hs|] == h;
    assert forall i :: 0 <= i < |hs| ==> (hs + [h])[i] == hs[i];
    if Distinct(hs + [h]) {
      assert forall i :: 0 <= i < |hs| ==> (hs + [h])[i] != (hs + [h])[|hs|];
    }
  }

  /** Why item `h` cannot be revoked, judged in the starting state and the items before it. */
  function RevokeFault(l: Ledger, issuer: Address, h: Hash, before: seq<Hash>): Option<Error> {
    if h !in l.docs then Some(DocumentNotFound)
    else if l.docs[h].issuer != issuer then Some(OnlyIssuerCanRevoke)
    else if l.docs[h].status == Revoked || h in before then Some(AlreadyRevoked)
    else None
  }

  function FirstRevokeFault(l: Ledger, issuer: Address, hashes: seq<Hash>): Option<Error> {
    if hashes == [] then None
    else
      var front := hashes[..|hashes| - 1];
      match FirstRevokeFault(l, issuer, front)
      case Some(e) => Some(e)
      case None => RevokeFault(l, issuer, hashes[|hashes| - 1], front)
  }

  ghost predicate RevokedAll(l: Ledger, issuer: Address, hashes: seq<Hash>, l': Ledger, rs: seq<Record>) {
    && l' == l.(docs := l'.docs, events := l.events + RevokeEvents(issuer, hashes))
    && l'.docs.Keys == l.docs.Keys
    && (forall h :: h in l.docs ==>
          l'.docs[h] == if h in hashes then l.docs[h].(status := Revoked) else l.docs[h])
    && |rs| == |hashes|
    && (forall i :: 0 <= i < |hashes| ==> hashes[i] in l.docs && rs[i] == l.docs[hashes[i]].(status := Revoked))
  }

  /** A revocation batch fails with the first fault visible in the starting state, if there is one. */
  lemma {:induction false} BatchRevokeFirstError(l: Ledger, issuer: Address, hashes: seq<Hash>)
    ensures match FirstRevokeFault(l, issuer, hashes)
            case Some(e) => RevokeAll(l, issuer, hashes) == Failed(e)
            case None =>
              var a := RevokeAll(l, issuer, hashes);
              a.Done? && RevokedAll(l, issuer, hashes, a.ledger, a.records)
  {
    if hashes == [] {
      assert RevokeEvents(issuer, hashes) == [];
    } else {
      var front, h := hashes[..|hashes| - 1], hashes[|hashes| - 1];
      BatchRevokeFirstError(l, issuer, front);
      assert hashes == front + [h];
      var a := RevokeAll(l, issuer, front);
      if a.Done? {
        RevokeExtends(l, issuer, front, h, a.ledger, a.records);
      }
    }
  }

  lemma RevokeExtends(l: Ledger, issuer: Address, front: seq<Hash>, h: Hash, l1: Ledger, rs: seq<Record>)
    requires RevokedAll(l, issuer, front, l1, rs)
    ensures match RevokeFault(l, issuer, h, front)
            case Some(e) => RevokeOne(l1, issuer, h) == Failed(e)
            case None =>
              var a := RevokeOne(l1, issuer, h);
              a.Done? && RevokedAll(l, issuer, front + [h], a.ledger, rs + a.records)
  {
    assert RevokeEvents(issuer, front + [h]) == RevokeEvents(issuer, front) + [Revocation(issuer, h)];
    if RevokeFault(l, issuer, h, front).None? {
      var l2 := RevokeOne(l1, issuer, h).ledger;
      assert l2.events == l.events + RevokeEvents(issuer, front + [h]);
      assert forall x :: x in front + [h] <==> x in front || x == h;
    }
  }

  ghost predicate Revocable(l: Ledger, issuer: Address, h: Hash) {
    h in l.docs && l.docs[h].issuer == issuer && l.docs[h].status == Active
  }

  /** ... so it succeeds exactly on pairwise distinct, active documents of the caller. */
  lemma {:induction false} BatchRevokeIff(l: Ledger, issuer: Address, hashes: seq<Hash>)
    ensures RevokeAll(l, issuer, hashes).Done? <==>
              Distinct(hashes) && forall h :: h in hashes ==> Revocable(l, issuer, h)
  {
    BatchRevokeFirstError(l, issuer, hashes);
    FaultFreeIff(l, issuer, hashes);
  }

  lemma {:induction false} FaultFreeIff(l: Ledger, issuer: Address, hashes: seq<Hash>)
    ensures FirstRevokeFault(l, issuer, hashes).None? <==>
              Distinct(hashes) && forall h :: h in hashes ==> Revocable(l, issuer, h)
  {
    if hashes != [] {
      var front, h := hashes[..|hashes| - 1], hashes[|hashes| - 1];
      assert hashes == front + [h];
      FaultFreeIff(l, issuer, front);
      DistinctAppend(front, h);
      assert forall x :: x in hashes <==> x in front || x == h;
      assert RevokeFault(l, issuer, h, front).None? <==> Revocable(l, issuer, h) && h !in front;
    }
  }

  predicate AllowedSize(n: nat) { 1 <= n <= 20 }

  /**
   The batch calls behind the gate: between 1 and 20 items, pairwise distinct, each of them
   acceptable in the starting state. Otherwise the size is refused first.
   */
  lemma {:induction false} BatchCallsIff(l: Ledger, issuer: Address, items: seq<DocumentInfo>,
                                         hashes: seq<Hash>, now: u64)
    ensures DocumentCall(l, BatchRegister(issuer, items), now).Done? <==>
              && AllowedSize(|items|) && Distinct(HashesOf(items))
              && forall h :: h in HashesOf(items) ==> h !in l.docs
    ensures DocumentCall(l, BatchRevoke(issuer, hashes), now).Done? <==>
              && AllowedSize(|hashes|) && Distinct(hashes)
              && forall h :: h in hashes ==> Revocable(l, issuer, h)
    ensures DocumentCall(l, BatchRegister(issuer, []), now) == Failed(BatchEmpty)
    ensures |items| > 20 ==> DocumentCall(l, BatchRegister(issuer, items), now) == Failed(BatchTooLarge)
    ensures DocumentCall(l, BatchRevoke(issuer, []), now) == Failed(BatchEmpty)
    ensures |hashes| > 20 ==> DocumentCall(l, BatchRevoke(issuer, hashes), now) == Failed(BatchTooLarge)
  {
    RegisterCallIff(l, issuer, items, now);
    RevokeCallIff(l, issuer, hashes, now);
  }

  lemma RegisterCallIff(l: Ledger, issuer: Address, items: seq<DocumentInfo>, now: u64)
    ensures DocumentCall(l, BatchRegister(issuer, items), now).Done? <==>
              && AllowedSize(|items|) && Distinct(HashesOf(items))
              && forall h :: h in HashesOf(items) ==> h !in l.docs
  {
    BatchRegisterIff(l, issuer, items, now);
  }

  lemma RevokeCallIff(l: Ledger, issuer: Address, hashes: seq<Hash>, now: u64)
    ensures DocumentCall(l, BatchRevoke(issuer, hashes), now).Done? <==>
              && AllowedSize(|hashes|) && Distinct(hashes)
              && forall h :: h in hashes ==> Revocable(l, issuer, h)
  {
    BatchRevokeIff(l, issuer, hashes);
  }

  // ---------- The event log determines the documents ----------

  function RegisterCount(es: seq<Event>, h: Hash): nat {
    if es == [] then 0
    else RegisterCount(es[..|es| - 1], h) + if es[|es| - 1].Registered? && es[|es| - 1].hash == h then 1 else 0
  }

  function RevokeCount(es: seq<Event>, h: Hash): nat {
    if es == [] then 0
    else RevokeCount(es[..|es| - 1], h) + if es[|es| - 1].Revocation? && es[|es| - 1].hash == h then 1 else 0
  }

  /** What an off-chain reader rebuilds from the log alone. */
  datatype Brief = Brief(issuer: Address, owner: Address, status: Status)

  function Replay(es: seq<Event>): map<Hash, Brief> {
    if es == [] then map[]
    else
      var m := Replay(es[..|es| - 1]);
      match es[|es| - 1]
      case Registered(issuer, owner, h) => m[h := Brief(issuer, owner, Active)]
      case Revocation(_, h) => if h in m then m[h := m[h].(status := Revoked)] else m
      case Initialized(_, _) => m
  }

  function BriefOf(r: Record): Brief { Brief(r.issuer, r.owner, r.status) }

  function Briefs(docs: map<Hash, Record>): map<Hash, Brief> {
    map h | h in docs :: BriefOf(docs[h])
  }

  ghost predicate LogOf(l: Ledger, h: Hash) {
    && RegisterCount(l.events, h) == (if h in l.docs then 1 else 0)
    && RevokeCount(l.events, h) == (if h in l.docs && l.docs[h].status == Revoked then 1 else 0)
  }

  ghost predicate Attributed(l: Ledger, e: Event) {
    match e
    case Registered(issuer, owner, h) => h in l.docs && l.docs[h].issuer == issuer && l.docs[h].owner == owner
    case Revocation(issuer, h) => h in l.docs && l.docs[h].issuer == issuer && l.docs[h].status == Revoked
    case Initialized(_, _) => true
  }

  predicate RevokedBy(e: Event, e': Event) {
    e.Registered? && e'.Revocation? && e.hash == e'.hash
  }

  /**
   The log and the storage say the same: replaying the log gives the stored documents, a
   hash is stored iff it has exactly one registration, it is revoked iff it has exactly one
   revocation, that revocation comes later, and both carry the stored issuer and owner.
   */
  ghost predicate LogInv(l: Ledger) {
    && Replay(l.events) == Briefs(l.docs)
    && (forall h :: LogOf(l, h))
    && (forall i :: 0 <= i < |l.events| ==> Attributed(l, l.events[i]))
    && (forall i, j :: 0 <= i < |l.events| && 0 <= j < |l.events| && RevokedBy(l.events[i], l.events[j]) ==> i < j)
  }

  /** One event is appended and the document it names is updated. */
  ghost predicate Appends(l: Ledger, l': Ledger, e: Event) {
    && l'.events == l.events + [e]
    && match e
       case Registered(issuer, owner, h) =>
         h !in l.docs && exists t: u64 :: l'.docs == l.docs[h := Record(issuer, owner, t, Active)]
       case Revocation(issuer, h) =>
         && h in l.docs && l.docs[h].issuer == issuer && l.docs[h].status == Active
         && l'.docs == l.docs[h := l.docs[h].(status := Revoked)]
       case Initialized(_, _) => l'.docs == l.docs
  }

  lemma AppendReplays(l: Ledger, l': Ledger, e: Event)
    requires Appends(l, l', e) && Replay(l.events) == Briefs(l.docs)
    ensures Replay(l'.events) == Briefs(l'.docs)
  {
    assert l'.events[..|l.events|] == l.events;
  }

  lemma AppendCounts(l: Ledger, l': Ledger, e: Event, h: Hash)
    requires Appends(l, l', e) && LogOf(l, h)
    ensures LogOf(l', h)
  {
    assert l'.events[..|l.events|] == l.events;
  }

  lemma AppendAttributes(l: Ledger, l': Ledger, e: Event, i: nat)
    requires Appends(l, l', e) && i <= |l.events|
    requires i < |l.events| ==> Attributed(l, l.events[i])
    ensures Attributed(l', l'.events[i])
  {
  }

  lemma AppendOrders(l: Ledger, l': Ledger, e: Event, i: nat, j: nat)
    requires Appends(l, l', e) && LogInv(l) && i <= |l.events| && j <= |l.events|
    requires RevokedBy(l'.events[i], l'.events[j])
    ensures i < j
  {
    if j < |l.events| {
      assert Attributed(l, l.events[j]);
    }
  }

  /** Appending keeps the log in step. */
  lemma AppendKeepsLog(l: Ledger, l': Ledger, e: Event)
    requires LogInv(l) && Appends(l, l', e)
    ensures LogInv(l')
  {
    AppendReplays(l, l', e);
    forall h ensures LogOf(l', h) {
      AppendCounts(l, l', e, h);
    }
    forall i | 0 <= i < |l'.events| ensures Attributed(l', l'.events[i]) {
      AppendAttributes(l, l', e, i);
    }
    forall i, j | 0 <= i < |l'.events| && 0 <= j < |l'.events| && RevokedBy(l'.events[i], l'.events[j])
      ensures i < j
    {
      AppendOrders(l, l', e, i, j);
    }
  }

  lemma {:induction false} RegisterAllKeepsLog(l: Ledger, issuer: Address, items: seq<DocumentInfo>, now: u64)
    requires LogInv(l) && RegisterAll(l, issuer, items, now).Done?
    ensures LogInv(RegisterAll(l, issuer, items, now).ledger)
  {
    if items != [] {
      var front, it := items[..|items| - 1], items[|items| - 1];
      RegisterAllKeepsLog(l, issuer, front, now);
      RegisterOneKeepsLog(RegisterAll(l, issuer, front, now).ledger, issuer, it.owner, it.hash, now);
    }
  }

  lemma RegisterOneKeepsLog(l: Ledger, issuer: Address, owner: Address, h: Hash, now: u64)
    requires LogInv(l) && RegisterOne(l, issuer, owner, h, now).Done?
    ensures LogInv(RegisterOne(l, issuer, owner, h, now).ledger)
  {
    var l' := RegisterOne(l, issuer, owner, h, now).ledger;
    assert l'.docs == l.docs[h := Record(issuer, owner, now, Active)];
    AppendKeepsLog(l, l', Registered(issuer, owner, h));
  }

  lemma RevokeOneKeepsLog(l: Ledger, issuer: Address, h: Hash)
    requires LogInv(l) && RevokeOne(l, issuer, h).Done?
    ensures LogInv(RevokeOne(l, issuer, h).ledger)
  {
    AppendKeepsLog(l, RevokeOne(l, issuer, h).ledger, Revocation(issuer, h));
  }

  lemma {:induction false} RevokeAllKeepsLog(l: Ledger, issuer: Address, hashes: seq<Hash>)
    requires LogInv(l) && RevokeAll(l, issuer, hashes).Done?
    ensures LogInv(RevokeAll(l, issuer, hashes).ledger)
  {
    if hashes != [] {
      var front := hashes[..|hashes| - 1];
      RevokeAllKeepsLog(l, issuer, front);
      RevokeOneKeepsLog(RevokeAll(l, issuer, front).ledger, issuer, hashes[|hashes| - 1]);
    }
  }

  lemma SameDocsKeepLog(l: Ledger, l': Ledger)
    requires LogInv(l) && l'.docs == l.docs && l'.events == l.events
    ensures LogInv(l')
  {
    assert forall h :: LogOf(l, h) ==> LogOf(l', h);
    assert forall i :: 0 <= i < |l.events| && Attributed(l, l.events[i]) ==> Attributed(l', l.events[i]);
  }

  lemma GateKeepsDocs(l: Ledger, who: Address, now: u64)
    requires RateGate(l, who, now).Done?
    ensures var l' := RateGate(l, who, now).ledger;
            l' == l.(buckets := l'.buckets, retryAfter := l'.retryAfter)
  {
  }

  lemma StepKeepsLog(l: Ledger, t: Tx)
    requires LogInv(l)
    ensures LogInv(Step(l, t))
  {
    if Attempt(l, t).Done? {
      if RateLimited(t.call) {
        var l1 := RateGate(l, t.call.issuer, t.now).ledger;
        GateKeepsDocs(l, t.call.issuer, t.now);
        SameDocsKeepLog(l, l1);
        match t.call
        case Register(issuer, owner, h) => RegisterOneKeepsLog(l1, issuer, owner, h, t.now);
        case Revoke(issuer, h) => RevokeOneKeepsLog(l1, issuer, h);
        case BatchRegister(issuer, items) => RegisterAllKeepsLog(l1, issuer, items, t.now);
        case BatchRevoke(issuer, hashes) => RevokeAllKeepsLog(l1, issuer, hashes);
      } else if t.call.Initialize? {
        AppendKeepsLog(l, Step(l, t), Initialized(t.call.admin, CONTRACT_VERSION));
      } else {
        SameDocsKeepLog(l, Step(l, t));
      }
    }
  }

  /** After every run from deployment, the event log and the stored documents agree. */
  lemma {:induction false} LogDeterminesDocuments(txs: seq<Tx>)
    ensures LogInv(Run(GENESIS, txs))
  {
    if txs == [] {
      assert Briefs(GENESIS.docs) == map[];
      assert forall h :: LogOf(GENESIS, h);
    } else {
      LogDeterminesDocuments(txs[..|txs| - 1]);
      StepKeepsLog(Run(GENESIS, txs[..|txs| - 1]), txs[|txs| - 1]);
    }
  }

  // ---------- What never changes ----------

  ghost predicate Settles(r: Record, r': Record) {
    r' == r || r' == r.(status := Revoked)
  }

  /** Records keep issuer, owner and timestamp, revocation is final, and the log only grows. */
  ghost predicate Evolves(l: Ledger, l': Ledger) {
    && (forall h :: h in l.docs ==> h in l'.docs && Settles(l.docs[h], l'.docs[h]))
    && l.events <= l'.events
    && (l.version == Some(CONTRACT_VERSION) ==> l'.version == l.version && l'.admin == l.admin)
  }

  lemma EvolvesTransitive(a: Ledger, b: Ledger, c: Ledger)
    requires Evolves(a, b) && Evolves(b, c)
    ensures Evolves(a, c)
  {
    forall h | h in a.docs ensures h in c.docs && Settles(a.docs[h], c.docs[h]) {
      assert Settles(a.docs[h], b.docs[h]) && Settles(b.docs[h], c.docs[h]);
    }
  }

  lemma {:induction false} RegisterAllEvolves(l: Ledger, issuer: Address, items: seq<DocumentInfo>, now: u64)
    requires RegisterAll(l, issuer, items, now).Done?
    ensures Evolves(l, RegisterAll(l, issuer, items, now).ledger)
  {
    BatchRegisterIff(l, issuer, items, now);
  }

  lemma {:induction false} RevokeAllEvolves(l: Ledger, issuer: Address, hashes: seq<Hash>)
    requires RevokeAll(l, issuer, hashes).Done?
    ensures Evolves(l, RevokeAll(l, issuer, hashes).ledger)
  {
    BatchRevokeFirstError(l, issuer, hashes);
  }

  lemma CallEvolves(l: Ledger, c: Call, now: u64)
    requires RateLimited(c) && DocumentCall(l, c, now).Done?
    ensures Evolves(l, DocumentCall(l, c, now).ledger)
  {
    match c {
      case BatchRegister(issuer, items) => RegisterAllEvolves(l, issuer, items, now);
      case BatchRevoke(issuer, hashes) => RevokeAllEvolves(l, issuer, hashes);
      case _ =>
    }
  }

  lemma GateEvolves(l: Ledger, who: Address, now: u64)
    requires RateGate(l, who, now).Done?
    ensures Evolves(l, RateGate(l, who, now).ledger)
  {
    GateKeepsDocs(l, who, now);
  }

  lemma GovernanceEvolves(l: Ledger, c: Call)
    requires !RateLimited(c) && Governance(l, c).Done?
    ensures Evolves(l, Governance(l, c).ledger)
  {
  }

  lemma StepEvolves(l: Ledger, t: Tx)
    ensures Evolves(l, Step(l, t))
  {
    if Attempt(l, t).Done? {
      if RateLimited(t.call) {
        var l1 := RateGate(l, t.call.issuer, t.now).ledger;
        GateEvolves(l, t.call.issuer, t.now);
        CallEvolves(l1, t.call, t.now);
        EvolvesTransitive(l, l1, DocumentCall(l1, t.call, t.now).ledger);
      } else {
        GovernanceEvolves(l, t.call);
      }
    }
  }

  /** From any ledger, over any further run: records, log and governance only evolve. */
  lemma {:induction false} RunEvolves(l: Ledger, txs: seq<Tx>)
    ensures Evolves(l, Run(l, txs))
  {
    if txs != [] {
      var prev := Run(l, txs[..|txs| - 1]);
      RunEvolves(l, txs[..|txs| - 1]);
      StepEvolves(prev, txs[|txs| - 1]);
      EvolvesTransitive(l, prev, Run(l, txs));
    }
  }

  // ---------- When a migration succeeds ----------

  lemma DocumentCallKeepsVersion(l: Ledger, c: Call, now: u64)
    requires RateLimited(c) && DocumentCall(l, c, now).Done?
    ensures DocumentCall(l, c, now).ledger.version == l.version
  {
    match c {
      case BatchRegister(issuer, items) => BatchRegisterIff(l, issuer, items, now);
      case BatchRevoke(issuer, hashes) => BatchRevokeFirstError(l, issuer, hashes);
      case _ =>
    }
  }

  /** An authorised attempt to set the version. */
  predicate SetsUp(t: Tx) { t.authorized && (t.call.Initialize? || t.call.Migrate?) }

  lemma StepVersion(l: Ledger, t: Tx)
    requires l.version.None? || l.version == Some(CONTRACT_VERSION)
    ensures Step(l, t).version == if SetsUp(t) then Some(CONTRACT_VERSION) else l.version
  {
    if RateLimited(t.call) && Attempt(l, t).Done? {
      DocumentCallKeepsVersion(RateGate(l, t.call.issuer, t.now).ledger, t.call, t.now);
    }
  }

  /** The first authorised `initialize` or `migrate` always succeeds and sets the one version there is. */
  lemma {:induction false} VersionSetOnce(txs: seq<Tx>)
    ensures Run(GENESIS, txs).version ==
            if forall i :: 0 <= i < |txs| ==> !SetsUp(txs[i]) then None else Some(CONTRACT_VERSION)
  {
    if txs != [] {
      var front, t := txs[..|txs| - 1], txs[|txs| - 1];
      VersionSetOnce(front);
      StepVersion(Run(GENESIS, front), t);
      assert txs == front + [t];
      assert (forall i :: 0 <= i < |txs| ==> !SetsUp(txs[i])) <==>
             !SetsUp(t) && forall i :: 0 <= i < |front| ==> !SetsUp(front[i]);
    }
  }

  /**
   `migrate` never answers `Unauthorized`. On every ledger a run from deployment reaches, it
   succeeds exactly when it is authorised and no version is stored, that is, no authorised
   `initialize` or `migrate` came before.
   */
  lemma {:induction false} MigrateIff(txs: seq<Tx>, t: Tx)
    requires t.call.Migrate?
    ensures var l := Run(GENESIS, txs);
            && (Attempt(l, t).Done? <==> t.authorized && l.version.None?)
            && (l.version.None? <==> forall i :: 0 <= i < |txs| ==> !SetsUp(txs[i]))
            && (Attempt(l, t).Failed? ==>
                  Attempt(l, t).error == if t.authorized then MigrationNotNeeded else AuthRequired)
    ensures forall l: Ledger :: Attempt(l, t) != Failed(Unauthorized)
  {
    VersionSetOnce(txs);
  }

  // ---------- Rate limits ----------

  /** Balance of a scope at time `t` under exact, untruncated refill. */
  function Potential(l: Ledger, s: Scope, t: u64): nat {
    var cap, rate := Capacity(ConfigOf(l), s), Rate(ConfigOf(l), s);
    if s in l.buckets then Min(cap, l.buckets[s].tokens + Gain(rate, SatSub(t, l.buckets[s].lastRefill)))
    else cap
  }

  /**
   Cutting the refill to 32 bits only ever loses tokens; nothing is lost exactly when the
   exact refill fits 32 bits or the cut one already fills the bucket.
   */
  lemma {:induction false} TruncationOnlyLoses(cap: u32, rate: u32, b: Bucket, now: u64)
    ensures var exact := Min(cap, b.tokens + Gain(rate, SatSub(now, b.lastRefill)));
            var refill: u64 := SatMul64(SatSub(now, b.lastRefill), rate);
            && Refill(cap, rate, b, now) <= exact
            && (Refill(cap, rate, b, now) == exact <==>
                  Gain(rate, SatSub(now, b.lastRefill)) < U32_LIMIT || b.tokens + refill % U32_LIMIT >= cap)
  {
    GainIsProduct(rate, SatSub(now, b.lastRefill));
    var g := rate * SatSub(now, b.lastRefill);
    var r: u64 := SatMul64(SatSub(now, b.lastRefill), rate);
    assert r <= g && r % U32_LIMIT <= r;
    assert g < U32_LIMIT ==> r == g;
    assert g >= U32_LIMIT ==> b.tokens + g >= cap;
  }

  lemma AvailableWithin(l: Ledger, s: Scope, now: u64)
    ensures Available(l, s, now) <= Potential(l, s, now)
  {
    TruncationOnlyLoses(Capacity(ConfigOf(l), s), Rate(ConfigOf(l), s), BucketOf(l, s, now), now);
  }

  lemma PotentialOverTime(l: Ledger, s: Scope, t: u64, t': u64)
    requires t <= t'
    ensures Potential(l, s, t') <= Potential(l, s, t) + Gain(Rate(ConfigOf(l), s), t' - t)
    ensures Potential(l, s, t') <= Capacity(ConfigOf(l), s)
  {
    if s in l.buckets {
      var b, rate := l.buckets[s], Rate(ConfigOf(l), s);
      GainAdds(rate, SatSub(t, b.lastRefill), t' - t);
      GainMono(rate, SatSub(t', b.lastRefill), SatSub(t, b.lastRefill) + (t' - t));
    }
  }

  predicate Succeeds(l: Ledger, t: Tx, who: Address) {
    RateLimited(t.call) && t.call.issuer == who && Attempt(l, t).Done?
  }

  function Successes(l: Ledger, txs: seq<Tx>, who: Address): nat {
    if txs == [] then 0
    else
      var front := txs[..|txs| - 1];
      Successes(l, front, who) + if Succeeds(Run(l, front), txs[|txs| - 1], who) then 1 else 0
  }

  lemma DocumentCallKeepsBuckets(l: Ledger, c: Call, now: u64)
    requires RateLimited(c) && DocumentCall(l, c, now).Done?
    ensures var l' := DocumentCall(l, c, now).ledger;
            l'.buckets == l.buckets && l'.config == l.config && l'.retryAfter == l.retryAfter
  {
    match c {
      case BatchRegister(issuer, items) => BatchRegisterIff(l, issuer, items, now);
      case BatchRevoke(issuer, hashes) => BatchRevokeFirstError(l, issuer, hashes);
      case _ =>
    }
  }

  /** The gate alone decides the buckets and hints a transaction leaves behind. */
  lemma StepBuckets(l: Ledger, t: Tx)
    ensures var gate := if RateLimited(t.call) && Attempt(l, t).Done? then RateGate(l, t.call.issuer, t.now)
                        else Done(l, []);
            gate.Done? && Step(l, t).buckets == gate.ledger.buckets && Step(l, t).retryAfter == gate.ledger.retryAfter
  {
    if RateLimited(t.call) && Attempt(l, t).Done? {
      DocumentCallKeepsBuckets(RateGate(l, t.call.issuer, t.now).ledger, t.call, t.now);
    }
  }

  /** A successful call of `who` takes a token from both scopes; nothing else touches them. */
  lemma StepPotential(l: Ledger, t: Tx, who: Address, s: Scope)
    requires s.who == who && Step(l, t).config == l.config
    ensures Potential(Step(l, t), s, t.now) + (if Succeeds(l, t, who) then 1 else 0) <= Potential(l, s, t.now)
  {
    StepBuckets(l, t);
    if RateLimited(t.call) && Attempt(l, t).Done? {
      GatePotential(l, t.call.issuer, t.now, s);
    }
  }

  lemma GatePotential(l: Ledger, issuer: Address, now: u64, s: Scope)
    requires RateGate(l, issuer, now).Done?
    ensures Potential(RateGate(l, issuer, now).ledger, s, now) + (if s.who == issuer then 1 else 0)
            <= Potential(l, s, now)
  {
    AvailableWithin(l, s, now);
  }

  ghost predicate TimesWithin(txs: seq<Tx>, a: u64, b: u64) {
    && (forall i :: 0 <= i < |txs| ==> a <= txs[i].now <= b)
    && (forall i, j :: 0 <= i <= j < |txs| ==> txs[i].now <= txs[j].now)
  }

  ghost predicate ConfigFixed(l: Ledger, txs: seq<Tx>) {
    forall n :: 0 <= n <= |txs| ==> Run(l, txs[..n]).config == l.config
  }

  lemma {:induction false} SuccessBudget(l: Ledger, txs: seq<Tx>, after: Ledger, who: Address, s: Scope, a: u64, b: u64)
    requires s.who == who && TimesWithin(txs, a, b) && ConfigFixed(l, txs) && after == Run(l, txs)
    ensures var end := if txs == [] then a else txs[|txs| - 1].now;
            Successes(l, txs, who) + Potential(after, s, end)
            <= Potential(l, s, a) + Gain(Rate(ConfigOf(l), s), end - a)
  {
    if txs != [] {
      var n := |txs| - 1;
      var front, t := txs[..n], txs[n];
      FixedPrefix(l, txs, a, b);
      var before := Run(l, front);
      SuccessBudget(l, front, before, who, s, a, b);
      BudgetStep(before, t, after, who, s, a, if front == [] then a else front[n - 1].now);
    }
  }

  lemma BudgetStep(l: Ledger, t: Tx, after: Ledger, who: Address, s: Scope, a: u64, end: u64)
    requires s.who == who && after == Step(l, t) && after.config == l.config && a <= end <= t.now
    ensures var rate := Rate(ConfigOf(l), s);
            (if Succeeds(l, t, who) then 1 else 0) + Potential(after, s, t.now) + Gain(rate, end - a)
            <= Potential(l, s, end) + Gain(rate, t.now - a)
  {
    StepPotential(l, t, who, s);
    PotentialOverTime(l, s, end, t.now);
    GainAdds(Rate(ConfigOf(l), s), end - a, t.now - end);
    assert end - a + (t.now - end) == t.now - a;
  }

  lemma FixedPrefix(l: Ledger, txs: seq<Tx>, a: u64, b: u64)
    requires txs != [] && TimesWithin(txs, a, b) && ConfigFixed(l, txs)
    ensures var front, t := txs[..|txs| - 1], txs[|txs| - 1];
            && TimesWithin(front, a, b) && ConfigFixed(l, front)
            && Run(l, front).config == l.config && Step(Run(l, front), t).config == l.config
            && a <= t.now && (front != [] ==> a <= front[|front| - 1].now <= t.now)
  {
    var front := txs[..|txs| - 1];
    assert forall k :: 0 <= k <= |front| ==> front[..k] == txs[..k];
    assert txs[..|txs|] == txs;
    assert Run(l, txs[..|txs|]).config == l.config;
  }

  /**
   In any window [a, b] of ledger time, from any starting ledger and under a fixed
   configuration, an issuer's successful calls stay within burst + rate x (b - a), for the
   address scope and for the issuer scope.
   */
  lemma {:induction false} WindowQuota(l: Ledger, txs: seq<Tx>, who: Address, s: Scope, a: u64, b: u64)
    requires s.who == who && a <= b && TimesWithin(txs, a, b) && ConfigFixed(l, txs)
    ensures Successes(l, txs, who) <= Capacity(ConfigOf(l), s) + Rate(ConfigOf(l), s) * (b - a)
  {
    QuotaGain(l, txs, who, s, a, b);
    GainIsProduct(Rate(ConfigOf(l), s), b - a);
  }

  lemma QuotaGain(l: Ledger, txs: seq<Tx>, who: Address, s: Scope, a: u64, b: u64)
    requires s.who == who && a <= b && TimesWithin(txs, a, b) && ConfigFixed(l, txs)
    ensures Successes(l, txs, who) <= Capacity(ConfigOf(l), s) + Gain(Rate(ConfigOf(l), s), b - a)
  {
    SuccessBudget(l, txs, Run(l, txs), who, s, a, b);
    PotentialOverTime(l, s, a, a);
    var end := if txs == [] then a else txs[|txs| - 1].now;
    GainMono(Rate(ConfigOf(l), s), end - a, b - a);
  }

  // ---------- What rollback keeps ----------

  /** The two scopes of an address move together, and no retry hint is ever left in storage. */
  ghost predicate GateInv(l: Ledger) {
    && l.retryAfter == map[]
    && (forall w: Address :: AddressScope(w) in l.buckets <==> IssuerScope(w) in l.buckets)
    && (forall w: Address :: AddressScope(w) in l.buckets && IssuerScope(w) in l.buckets ==>
          l.buckets[AddressScope(w)].lastRefill == l.buckets[IssuerScope(w)].lastRefill)
  }

  lemma StepKeepsGate(l: Ledger, t: Tx)
    requires GateInv(l)
    ensures GateInv(Step(l, t))
  {
    StepBuckets(l, t);
  }

  /**
   Over every run from deployment: rollback keeps both buckets of an address absent or both
   present with one refill time, and the retry hint written on rejection never commits.
   */
  lemma {:induction false} RollbackKeepsScopesTogether(txs: seq<Tx>)
    ensures GateInv(Run(GENESIS, txs))
  {
    if txs != [] {
      RollbackKeepsScopesTogether(txs[..|txs| - 1]);
      StepKeepsGate(Run(GENESIS, txs[..|txs| - 1]), txs[|txs| - 1]);
    }
  }

  /** A document verifies exactly when the log holds its registration and no revocation. */
  lemma {:induction false} VerifyReadsLog(txs: seq<Tx>, h: Hash)
    ensures var l := Run(GENESIS, txs);
            VerifyDocument(l, h) <==> RegisterCount(l.events, h) == 1 && RevokeCount(l.events, h) == 0
  {
    LogDeterminesDocuments(txs);
    assert LogOf(Run(GENESIS, txs), h);
  }
}
