/**
 What single transactions do, read off the stored maps, the configuration fields and the
 transaction itself: when the gate opens, what an accepted call writes, and who governs.
 */
module ContractCalls {
  import opened Common
  import opened Ints
  import opened Contract
  import opened ContractRuns

  // ---------- When the gate opens ----------

  /** The stored configuration, or 100 tokens a second and a burst of 200 for either scope. */
  function InForce(l: Ledger): RateConfig {
    match l.config case Some(c) => c case None => RateConfig(100, 200, 100, 200)
  }

  /** Tokens of a scope at `t`: what is stored plus the refill, cut to 32 bits; a new scope starts full. */
  function Held(burst: u32, rate: u32, m: map<Scope, Bucket>, s: Scope, t: u64): nat {
    if s in m then
      var refill := Min(SatSub(t, m[s].lastRefill) * rate, 0xFFFF_FFFF_FFFF_FFFF);
      Min(burst, m[s].tokens + refill % 0x1_0000_0000)
    else burst
  }

  /** The same without the cut. */
  function Exact(burst: u32, rate: u32, m: map<Scope, Bucket>, s: Scope, t: u64): nat {
    if s in m then Min(burst, m[s].tokens + Gain(rate, SatSub(t, m[s].lastRefill))) else burst
  }

  lemma AddressHeld(l: Ledger, who: Address, now: u64)
    ensures Available(l, AddressScope(who), now) ==
            Held(InForce(l).addressBurst, InForce(l).addressRate, l.buckets, AddressScope(who), now)
  {
  }

  lemma IssuerHeld(l: Ledger, who: Address, now: u64)
    ensures Available(l, IssuerScope(who), now) ==
            Held(InForce(l).issuerBurst, InForce(l).issuerRate, l.buckets, IssuerScope(who), now)
  {
  }

  /** The gate opens exactly when both scopes hold a token, and then takes one from each. */
  lemma {:induction false} GateOpensIff(l: Ledger, who: Address, now: u64)
    ensures var a := Held(InForce(l).addressBurst, InForce(l).addressRate, l.buckets, AddressScope(who), now);
            var i := Held(InForce(l).issuerBurst, InForce(l).issuerRate, l.buckets, IssuerScope(who), now);
            var r := RateGate(l, who, now);
            && (r.Done? <==> a > 0 && i > 0)
            && (r.Failed? ==> r.error == RateLimitExceeded)
            && (r.Done? ==>
                  && r.ledger.buckets == l.buckets[AddressScope(who) := Bucket(a - 1, now)]
                                                  [IssuerScope(who) := Bucket(i - 1, now)]
                  && r.ledger.(buckets := l.buckets, retryAfter := l.retryAfter) == l
                  && r.ledger.retryAfter == l.retryAfter - {AddressScope(who), IssuerScope(who)})
  {
    AddressHeld(l, who, now);
    IssuerHeld(l, who, now);
  }

  lemma HeldIsExact(burst: u32, rate: u32, m: map<Scope, Bucket>, s: Scope, t: u64)
    requires s in m ==> Gain(rate, SatSub(t, m[s].lastRefill)) < 0x1_0000_0000
    ensures Held(burst, rate, m, s, t) == Exact(burst, rate, m, s, t)
  {
    if s in m {
      GainIsProduct(rate, SatSub(t, m[s].lastRefill));
      assert SatSub(t, m[s].lastRefill) * rate == rate * SatSub(t, m[s].lastRefill);
    }
  }

  // ---------- What an accepted call writes ----------

  /** An accepted call as it looks in the log and in storage. */
  ghost predicate Writes(l: Ledger, t: Tx, l': Ledger) {
    match t.call
    case Register(issuer, owner, hash) =>
      && hash !in l.docs
      && l'.docs == l.docs[hash := Record(issuer, owner, t.now, Active)]
      && l'.events == l.events + [Registered(issuer, owner, hash)]
    case Revoke(issuer, hash) =>
      && hash in l.docs && l.docs[hash].issuer == issuer && l.docs[hash].status == Active
      && l'.docs == l.docs[hash := l.docs[hash].(status := Revoked)]
      && l'.events == l.events + [Revocation(issuer, hash)]
    case BatchRegister(issuer, items) =>
      && l'.docs.Keys == l.docs.Keys + (set i | 0 <= i < |items| :: items[i].hash)
      && (forall h :: h in l.docs ==> l'.docs[h] == l.docs[h])
      && (forall i :: 0 <= i < |items| ==>
            items[i].hash !in l.docs && l'.docs[items[i].hash] == Record(issuer, items[i].owner, t.now, Active))
      && l'.events == l.events +
                      seq(|items|, i requires 0 <= i < |items| => Registered(issuer, items[i].owner, items[i].hash))
    case BatchRevoke(issuer, hashes) =>
      && l'.docs.Keys == l.docs.Keys
      && (forall h :: h in l.docs ==>
            l'.docs[h] == if h in hashes then l.docs[h].(status := Revoked) else l.docs[h])
      && l'.events == l.events + seq(|hashes|, i requires 0 <= i < |hashes| => Revocation(issuer, hashes[i]))
    case _ => l'.docs == l.docs
  }

  lemma BatchRegisterWrites(l: Ledger, issuer: Address, items: seq<DocumentInfo>, t: Tx)
    requires t.call == BatchRegister(issuer, items) && DocumentCall(l, t.call, t.now).Done?
    ensures Writes(l, t, DocumentCall(l, t.call, t.now).ledger)
  {
    BatchRegisterIff(l, issuer, items, t.now);
    forall i | 0 <= i < |items| ensures items[i].hash in HashesOf(items) {
      assert HashesOf(items)[i] == items[i].hash;
    }
    assert (set h | h in HashesOf(items)) == (set i | 0 <= i < |items| :: items[i].hash);
    assert RegisterEvents(issuer, items)
        == seq(|items|, i requires 0 <= i < |items| => Registered(issuer, items[i].owner, items[i].hash));
  }

  lemma BatchRevokeWrites(l: Ledger, issuer: Address, hashes: seq<Hash>, t: Tx)
    requires t.call == BatchRevoke(issuer, hashes) && DocumentCall(l, t.call, t.now).Done?
    ensures Writes(l, t, DocumentCall(l, t.call, t.now).ledger)
  {
    BatchRevokeFirstError(l, issuer, hashes);
    assert RevokeEvents(issuer, hashes)
        == seq(|hashes|, i requires 0 <= i < |hashes| => Revocation(issuer, hashes[i]));
  }

  lemma CallWrites(l: Ledger, t: Tx)
    requires RateLimited(t.call) && DocumentCall(l, t.call, t.now).Done?
    ensures Writes(l, t, DocumentCall(l, t.call, t.now).ledger)
  {
    match t.call {
      case BatchRegister(issuer, items) => BatchRegisterWrites(l, issuer, items, t);
      case BatchRevoke(issuer, hashes) => BatchRevokeWrites(l, issuer, hashes, t);
      case _ =>
    }
  }

  /**
   A document call behind the gate: an unauthorised one traps, a rate-limited one is refused
   before the documents are looked at, and an accepted one writes exactly what it says, with
   the issuer of the call and the ledger time, and takes one token from each scope.
   */
  lemma {:induction false} AcceptedWrites(l: Ledger, t: Tx)
    requires RateLimited(t.call)
    ensures !t.authorized ==> Attempt(l, t) == Failed(AuthRequired)
    ensures t.authorized && RateGate(l, t.call.issuer, t.now).Failed? ==> Attempt(l, t) == Failed(RateLimitExceeded)
    ensures Attempt(l, t).Failed? ==> Step(l, t) == l
    ensures Attempt(l, t).Done? ==>
              && t.authorized && RateGate(l, t.call.issuer, t.now).Done? && Writes(l, t, Step(l, t))
              && Step(l, t).buckets == RateGate(l, t.call.issuer, t.now).ledger.buckets
              && Step(l, t).config == l.config && Step(l, t).flags == l.flags
  {
    if Attempt(l, t).Done? {
      var l1 := RateGate(l, t.call.issuer, t.now).ledger;
      CallWrites(l1, t);
      CallKeepsRest(l1, t.call, t.now);
    }
  }

  /** The verdict on a single registration or revocation once the gate is open, and the record it returns. */
  lemma {:induction false} SingleVerdict(l: Ledger, t: Tx)
    requires t.authorized && (t.call.Register? || t.call.Revoke?) && RateGate(l, t.call.issuer, t.now).Done?
    ensures var a, h := Attempt(l, t), t.call.hash;
            && (t.call.Register? ==> if h in l.docs then a == Failed(AlreadyRegistered) else a.Done?)
            && (t.call.Revoke? ==>
                  if h !in l.docs then a == Failed(DocumentNotFound)
                  else if l.docs[h].issuer != t.call.issuer then a == Failed(OnlyIssuerCanRevoke)
                  else if l.docs[h].status == Revoked then a == Failed(AlreadyRevoked)
                  else a.Done?)
            && (a.Done? ==> h in Step(l, t).docs && a.records == [Step(l, t).docs[h]])
  {
    GateOpensIff(l, t.call.issuer, t.now);
  }

  lemma CallKeepsRest(l: Ledger, c: Call, now: u64)
    requires RateLimited(c) && DocumentCall(l, c, now).Done?
    ensures var l' := DocumentCall(l, c, now).ledger;
            && l'.buckets == l.buckets && l'.config == l.config && l'.flags == l.flags
            && l'.admin == l.admin && l'.version == l.version
  {
    match c {
      case BatchRegister(issuer, items) => BatchRegisterIff(l, issuer, items, now);
      case BatchRevoke(issuer, hashes) => BatchRevokeFirstError(l, issuer, hashes);
      case _ =>
    }
  }

  // ---------- A burst of registrations ----------

  /** `who` registers the hashes one after the other, all in one second of ledger time. */
  function Registrations(who: Address, owner: Address, hashes: seq<Hash>, now: u64): seq<Tx> {
    seq(|hashes|, i requires 0 <= i < |hashes| => Tx(Register(who, owner, hashes[i]), now, true))
  }

  function Burst(l: Ledger): nat { Min(InForce(l).addressBurst, InForce(l).issuerBurst) }

  /** After `n` of them: the first `Burst` are stored and have taken a token each, the others left no trace. */
  ghost predicate Passed(l: Ledger, who: Address, owner: Address, hashes: seq<Hash>, now: u64, l': Ledger) {
    var k := Min(|hashes|, Burst(l));
    && l'.config == l.config
    && (forall h :: h in l'.docs <==> h in l.docs || h in hashes[..k])
    && Drawn(InForce(l).addressBurst, k, now, l'.buckets, AddressScope(who))
    && Drawn(InForce(l).issuerBurst, k, now, l'.buckets, IssuerScope(who))
  }

  predicate Drawn(burst: u32, k: nat, now: u64, m: map<Scope, Bucket>, s: Scope) {
    && k <= burst
    && if k == 0 then s !in m else s in m && m[s] == Bucket(burst - k, now)
  }

  lemma DrawnHeld(burst: u32, rate: u32, k: nat, now: u64, m: map<Scope, Bucket>, s: Scope)
    requires Drawn(burst, k, now, m, s)
    ensures Held(burst, rate, m, s, now) == burst - k
  {
  }

  /** The gate takes one more from both scopes while the smaller burst lasts. */
  lemma GateDraws(l: Ledger, who: Address, now: u64, k: nat)
    requires Drawn(InForce(l).addressBurst, k, now, l.buckets, AddressScope(who))
    requires Drawn(InForce(l).issuerBurst, k, now, l.buckets, IssuerScope(who))
    ensures var r := RateGate(l, who, now);
            && (r.Done? <==> k < Burst(l))
            && (r.Failed? ==> r.error == RateLimitExceeded)
            && (r.Done? ==>
                  && r.ledger.docs == l.docs && r.ledger.config == l.config
                  && Drawn(InForce(l).addressBurst, k + 1, now, r.ledger.buckets, AddressScope(who))
                  && Drawn(InForce(l).issuerBurst, k + 1, now, r.ledger.buckets, IssuerScope(who)))
  {
    DrawnHeld(InForce(l).addressBurst, InForce(l).addressRate, k, now, l.buckets, AddressScope(who));
    DrawnHeld(InForce(l).issuerBurst, InForce(l).issuerRate, k, now, l.buckets, IssuerScope(who));
    GateOpensIff(l, who, now);
  }

  /** One more registration in the same second. */
  lemma PassedStep(l: Ledger, who: Address, owner: Address, front: seq<Hash>, h: Hash, now: u64, l1: Ledger, t: Tx)
    requires Passed(l, who, owner, front, now, l1) && h !in l.docs && h !in front
    requires t == Tx(Register(who, owner, h), now, true)
    ensures Passed(l, who, owner, front + [h], now, Step(l1, t))
    ensures Attempt(l1, t).Done? <==> |front| < Burst(l)
    ensures Attempt(l1, t).Failed? ==> Attempt(l1, t) == Failed(RateLimitExceeded)
  {
    var k := Min(|front|, Burst(l));
    GateDraws(l1, who, now, k);
    FrontsAgree(front, h, k);
    if k < Burst(l) {
      StoredOneMore(l, front, h, RateGate(l1, who, now).ledger.docs, Record(who, owner, now, Active));
    }
  }

  lemma FrontsAgree(front: seq<Hash>, h: Hash, k: nat)
    requires k <= |front|
    ensures (front + [h])[..k] == front[..k] && front[..|front|] == front
    ensures (front + [h])[..|front| + 1] == front + [h]
  {
  }

  lemma StoredOneMore(l: Ledger, front: seq<Hash>, h: Hash, docs: map<Hash, Record>, r: Record)
    requires forall x :: x in docs <==> x in l.docs || x in front
    ensures forall x :: x in docs[h := r] <==> x in l.docs || x in front + [h]
  {
  }

  /** New hashes, each named once. */
  ghost predicate NewHashes(l: Ledger, hashes: seq<Hash>) {
    Distinct(hashes) && forall i :: 0 <= i < |hashes| ==> hashes[i] !in l.docs
  }

  lemma LastRegistration(l: Ledger, who: Address, owner: Address, hashes: seq<Hash>, now: u64, txs: seq<Tx>)
    requires hashes != [] && NewHashes(l, hashes) && txs == Registrations(who, owner, hashes, now)
    ensures var n := |hashes| - 1;
            && |txs| == n + 1 && txs[..n] == Registrations(who, owner, hashes[..n], now)
            && txs[n] == Tx(Register(who, owner, hashes[n]), now, true)
            && NewHashes(l, hashes[..n]) && hashes[n] !in hashes[..n] && hashes[n] !in l.docs
            && hashes == hashes[..n] + [hashes[n]]
  {
  }

  lemma {:induction false} RegistrationsPass(l: Ledger, who: Address, owner: Address, hashes: seq<Hash>, now: u64,
                                             txs: seq<Tx>, l1: Ledger)
    requires AddressScope(who) !in l.buckets && IssuerScope(who) !in l.buckets && NewHashes(l, hashes)
    requires txs == Registrations(who, owner, hashes, now) && l1 == Run(l, txs)
    ensures Passed(l, who, owner, hashes, now, l1)
  {
    if hashes != [] {
      var n := |hashes| - 1;
      LastRegistration(l, who, owner, hashes, now, txs);
      var l0 := Run(l, txs[..n]);
      RegistrationsPass(l, who, owner, hashes[..n], now, txs[..n], l0);
      PassedStep(l, who, owner, hashes[..n], hashes[n], now, l0, txs[n]);
    }
  }

  /**
   From scopes that were never charged, exactly the first min(address burst, issuer burst)
   registrations of new hashes in one second are accepted, each later one is refused by the
   rate limit: 200 under the default configuration.
   */
  lemma {:induction false} RegistrationBurst(l: Ledger, who: Address, owner: Address, hashes: seq<Hash>, now: u64,
                                             txs: seq<Tx>, l0: Ledger)
    requires AddressScope(who) !in l.buckets && IssuerScope(who) !in l.buckets && NewHashes(l, hashes)
    requires txs == Registrations(who, owner, hashes, now) && hashes != [] && l0 == Run(l, txs[..|hashes| - 1])
    ensures Attempt(l0, txs[|hashes| - 1]).Done? <==> |hashes| <= Burst(l)
    ensures |hashes| > Burst(l) ==> Attempt(l0, txs[|hashes| - 1]) == Failed(RateLimitExceeded)
    ensures l.config == None ==> Burst(l) == 200
  {
    var n := |hashes| - 1;
    LastRegistration(l, who, owner, hashes, now, txs);
    RegistrationsPass(l, who, owner, hashes[..n], now, txs[..n], l0);
    PassedStep(l, who, owner, hashes[..n], hashes[n], now, l0, txs[n]);
  }

  // ---------- Who governs ----------

  /** The admin of the first authorised `initialize` or `migrate`. */
  function AdminAfter(txs: seq<Tx>): Option<Address> {
    if txs == [] then None
    else
      var before, t := AdminAfter(txs[..|txs| - 1]), txs[|txs| - 1];
      if before.None? && t.authorized && (t.call.Initialize? || t.call.Migrate?) then Some(t.call.admin) else before
  }

  /** The transaction is authorised by the admin of the time. */
  predicate ByAdmin(front: seq<Tx>, t: Tx, admin: Address) { t.authorized && AdminAfter(front) == Some(admin) }

  /** The value of the last `set_feature_flag` for the flag by the admin. */
  function FlagAfter(txs: seq<Tx>, flag: string): Option<bool> {
    if txs == [] then None
    else
      var front, t := txs[..|txs| - 1], txs[|txs| - 1];
      if t.call.SetFlag? && t.call.flag == flag && ByAdmin(front, t, t.call.admin) then Some(t.call.enabled)
      else FlagAfter(front, flag)
  }

  /** The value of the last `set_rate_limit_config` by the admin. */
  function ConfigAfter(txs: seq<Tx>): Option<RateConfig> {
    if txs == [] then None
    else
      var front, t := txs[..|txs| - 1], txs[|txs| - 1];
      if t.call.SetConfig? && ByAdmin(front, t, t.call.admin) then Some(t.call.config) else ConfigAfter(front)
  }

  function Lookup(m: map<string, bool>, flag: string): Option<bool> { if flag in m then Some(m[flag]) else None }

  ghost predicate Governed(txs: seq<Tx>, l: Ledger) {
    && l.admin == AdminAfter(txs) && l.config == ConfigAfter(txs)
    && l.version == (if AdminAfter(txs).None? then None else Some(1))
    && (forall f :: Lookup(l.flags, f) == FlagAfter(txs, f))
  }

  lemma DocumentStepGoverned(l: Ledger, t: Tx)
    requires RateLimited(t.call)
    ensures var l' := Step(l, t);
            l'.admin == l.admin && l'.version == l.version && l'.config == l.config && l'.flags == l.flags
  {
    if Attempt(l, t).Done? {
      CallKeepsRest(RateGate(l, t.call.issuer, t.now).ledger, t.call, t.now);
    }
  }

  lemma FlagStep(front: seq<Tx>, t: Tx, l: Ledger, f: string)
    requires l.admin == AdminAfter(front) && Lookup(l.flags, f) == FlagAfter(front, f)
    ensures Lookup(Step(l, t).flags, f) == FlagAfter(front + [t], f)
  {
    assert (front + [t])[..|front|] == front;
    if RateLimited(t.call) {
      DocumentStepGoverned(l, t);
    }
  }

  lemma AdminStep(front: seq<Tx>, t: Tx, l: Ledger)
    requires l.admin == AdminAfter(front) && l.version == if AdminAfter(front).None? then None else Some(1)
    ensures Step(l, t).admin == AdminAfter(front + [t])
    ensures Step(l, t).version == if AdminAfter(front + [t]).None? then None else Some(1)
  {
    assert (front + [t])[..|front|] == front;
    if RateLimited(t.call) {
      DocumentStepGoverned(l, t);
    }
  }

  lemma ConfigStep(front: seq<Tx>, t: Tx, l: Ledger)
    requires l.admin == AdminAfter(front) && l.config == ConfigAfter(front)
    ensures Step(l, t).config == ConfigAfter(front + [t])
  {
    assert (front + [t])[..|front|] == front;
    if RateLimited(t.call) {
      DocumentStepGoverned(l, t);
    }
  }

  lemma GovernedStep(front: seq<Tx>, t: Tx, l: Ledger)
    requires Governed(front, l)
    ensures Governed(front + [t], Step(l, t))
  {
    AdminStep(front, t, l);
    ConfigStep(front, t, l);
    forall f ensures Lookup(Step(l, t).flags, f) == FlagAfter(front + [t], f) {
      FlagStep(front, t, l, f);
    }
  }

  /**
   After every run from deployment, admin, version, flags and configuration are what the
   authorised calls of the admin last wrote; nobody else's calls change them.
   */
  lemma {:induction false} GovernanceFollows(txs: seq<Tx>)
    ensures Governed(txs, Run(GENESIS, txs))
  {
    if txs != [] {
      var front := txs[..|txs| - 1];
      GovernanceFollows(front);
      GovernedStep(front, txs[|txs| - 1], Run(GENESIS, front));
      assert txs == front + [txs[|txs| - 1]];
    }
  }

  /** The verdict on a governance call: authorisation first, then whether there is an admin, then who it is. */
  lemma {:induction false} GovernanceVerdict(txs: seq<Tx>, t: Tx)
    requires !RateLimited(t.call)
    ensures var a, admin := Attempt(Run(GENESIS, txs), t), AdminAfter(txs);
            && (!t.authorized ==> a == Failed(AuthRequired))
            && (t.authorized && t.call.Initialize? ==>
                  if admin.Some? then a == Failed(AlreadyInitialized) else a.Done?)
            && (t.authorized && t.call.Migrate? ==> if admin.Some? then a == Failed(MigrationNotNeeded) else a.Done?)
            && (t.authorized && (t.call.SetFlag? || t.call.SetConfig?) ==>
                  if admin.None? then a == Failed(NotInitialized)
                  else if admin.value != t.call.admin then a == Failed(Unauthorized)
                  else a.Done?)
    ensures var l, l' := Run(GENESIS, txs), Step(Run(GENESIS, txs), t);
            && l'.docs == l.docs && l'.buckets == l.buckets
            && l'.events == l.events +
               if t.call.Initialize? && t.authorized && AdminAfter(txs).None?
               then [Initialized(t.call.admin, 1)] else []
  {
    GovernanceFollows(txs);
  }
}
