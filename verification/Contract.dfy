/**
 The ProofStell document contract of `src/lib.rs`: persistent storage, the entry points
 that write it, and the host's rule that a failing call leaves no trace.
 */
module Contract {
  import opened Common
  import opened Ints

  type Address = string
  type Hash = string

  datatype Status = Active | Revoked

  datatype Record = Record(issuer: Address, owner: Address, timestamp: u64, status: Status)

  datatype DocumentInfo = DocumentInfo(owner: Address, hash: Hash)

  datatype Event =
    | Registered(issuer: Address, owner: Address, hash: Hash)
    | Revocation(issuer: Address, hash: Hash)
    | Initialized(admin: Address, version: u32)

  datatype Error =
    | DocumentNotFound | AlreadyRegistered | OnlyIssuerCanRevoke | AlreadyRevoked
    | BatchTooLarge | BatchEmpty | AlreadyInitialized | NotInitialized
    | Unauthorized | MigrationNotNeeded | RateLimitExceeded
    | AuthRequired  // the host traps when `require_auth` is not satisfied

  datatype RateConfig = RateConfig(addressRate: u32, addressBurst: u32, issuerRate: u32, issuerBurst: u32)

  datatype Scope = AddressScope(who: Address) | IssuerScope(who: Address)

  datatype Bucket = Bucket(tokens: u32, lastRefill: u64)

  const CONTRACT_VERSION: u32 := 1
  const MAX_BATCH_SIZE: nat := 20
  const DEFAULT_CONFIG := RateConfig(100, 200, 100, 200)

  datatype Ledger = Ledger(
    docs: map<Hash, Record>,
    events: seq<Event>,
    admin: Option<Address>,
    version: Option<u32>,
    flags: map<string, bool>,
    config: Option<RateConfig>,
    buckets: map<Scope, Bucket>,
    retryAfter: map<Scope, u64>)

  const GENESIS := Ledger(map[], [], None, None, map[], None, map[], map[])

  /** What an entry point does when nothing is rolled back yet. */
  datatype Applied =
    | Done(ledger: Ledger, records: seq<Record>)
    | Failed(error: Error)

  // ---------- Rate limiting ----------

  function ConfigOf(l: Ledger): RateConfig {
    if l.config.Some? then l.config.value else DEFAULT_CONFIG
  }

  function Capacity(c: RateConfig, s: Scope): u32 {
    if s.AddressScope? then c.addressBurst else c.issuerBurst
  }

  function Rate(c: RateConfig, s: Scope): u32 {
    if s.AddressScope? then c.addressRate else c.issuerRate
  }

  function BucketOf(l: Ledger, s: Scope, now: u64): Bucket {
    if s in l.buckets then l.buckets[s] else Bucket(Capacity(ConfigOf(l), s), now)
  }

  /** The refill is computed in 64 bits, cut to 32, and added with saturation. */
  function Refill(capacity: u32, rate: u32, b: Bucket, now: u64): u32 {
    var elapsed: u64 := SatSub(now, b.lastRefill);
    var refill: u64 := SatMul64(elapsed, rate);
    Min(Min(b.tokens + refill % U32_LIMIT, U32_LIMIT - 1), capacity)
  }

  function Available(l: Ledger, s: Scope, now: u64): u32 {
    Refill(Capacity(ConfigOf(l), s), Rate(ConfigOf(l), s), BucketOf(l, s, now), now)
  }

  /** Both scopes of the caller must have a token; both are charged. */
  function RateGate(l: Ledger, who: Address, now: u64): Applied {
    var a, i := Available(l, AddressScope(who), now), Available(l, IssuerScope(who), now);
    if a == 0 || i == 0 then Failed(RateLimitExceeded)
    else
      Done(l.(buckets := l.buckets[AddressScope(who) := Bucket(a - 1, now)]
                                  [IssuerScope(who) := Bucket(i - 1, now)],
              retryAfter := l.retryAfter - {AddressScope(who), IssuerScope(who)}), [])
  }

  // ---------- Documents ----------

  function RegisterOne(l: Ledger, issuer: Address, owner: Address, hash: Hash, now: u64): Applied {
    if hash in l.docs then Failed(AlreadyRegistered)
    else
      var r := Record(issuer, owner, now, Active);
      Done(l.(docs := l.docs[hash := r], events := l.events + [Registered(issuer, owner, hash)]), [r])
  }

  function RevokeOne(l: Ledger, issuer: Address, hash: Hash): Applied {
    if hash !in l.docs then Failed(DocumentNotFound)
    else if l.docs[hash].issuer != issuer then Failed(OnlyIssuerCanRevoke)
    else if l.docs[hash].status == Revoked then Failed(AlreadyRevoked)
    else
      var r := l.docs[hash].(status := Revoked);
      Done(l.(docs := l.docs[hash := r], events := l.events + [Revocation(issuer, hash)]), [r])
  }

  /** The single operation on each item in order, stopping at the first error. */
  function RegisterAll(l: Ledger, issuer: Address, items: seq<DocumentInfo>, now: u64): Applied {
    if items == [] then Done(l, [])
    else match RegisterAll(l, issuer, items[..|items| - 1], now)
      case Failed(e) => Failed(e)
      case Done(l1, rs) =>
        var it := items[|items| - 1];
        match RegisterOne(l1, issuer, it.owner, it.hash, now)
        case Failed(e) => Failed(e)
        case Done(l2, r) => Done(l2, rs + r)
  }

  function RevokeAll(l: Ledger, issuer: Address, hashes: seq<Hash>): Applied {
    if hashes == [] then Done(l, [])
    else match RevokeAll(l, issuer, hashes[..|hashes| - 1])
      case Failed(e) => Failed(e)
      case Done(l1, rs) =>
        match RevokeOne(l1, issuer, hashes[|hashes| - 1])
        case Failed(e) => Failed(e)
        case Done(l2, r) => Done(l2, rs + r)
  }

  // ---------- Calls ----------

  datatype Call =
    | Register(issuer: Address, owner: Address, hash: Hash)
    | Revoke(issuer: Address, hash: Hash)
    | BatchRegister(issuer: Address, items: seq<DocumentInfo>)
    | BatchRevoke(issuer: Address, hashes: seq<Hash>)
    | Initialize(admin: Address)
    | Migrate(admin: Address)
    | SetFlag(admin: Address, flag: string, enabled: bool)
    | SetConfig(admin: Address, config: RateConfig)

  datatype Tx = Tx(call: Call, now: u64, authorized: bool)

  predicate RateLimited(c: Call) { c.Register? || c.Revoke? || c.BatchRegister? || c.BatchRevoke? }

  function SizeFault(n: nat): Option<Error> {
    if n == 0 then Some(BatchEmpty) else if n > MAX_BATCH_SIZE then Some(BatchTooLarge) else None
  }

  /** The part of a rate-limited call behind the gate. */
  function DocumentCall(l: Ledger, c: Call, now: u64): Applied
    requires RateLimited(c)
  {
    match c
    case Register(issuer, owner, hash) => RegisterOne(l, issuer, owner, hash, now)
    case Revoke(issuer, hash) => RevokeOne(l, issuer, hash)
    case BatchRegister(issuer, items) =>
      if SizeFault(|items|).Some? then Failed(SizeFault(|items|).value)
      else RegisterAll(l, issuer, items, now)
    case BatchRevoke(issuer, hashes) =>
      if SizeFault(|hashes|).Some? then Failed(SizeFault(|hashes|).value)
      else RevokeAll(l, issuer, hashes)
  }

  function AdminFault(l: Ledger, admin: Address): Option<Error> {
    if l.admin.None? then Some(NotInitialized)
    else if l.admin.value != admin then Some(Unauthorized)
    else None
  }

  function Governance(l: Ledger, c: Call): Applied
    requires !RateLimited(c)
  {
    match c
    case Initialize(admin) =>
      if l.version.Some? then Failed(AlreadyInitialized)
      else Done(l.(admin := Some(admin), version := Some(CONTRACT_VERSION),
                   events := l.events + [Initialized(admin, CONTRACT_VERSION)]), [])
    case Migrate(admin) =>
      if l.version.Some? && l.version.value != 0 then Failed(MigrationNotNeeded)
      else Done(l.(admin := Some(admin), version := Some(CONTRACT_VERSION)), [])
    case SetFlag(admin, flag, enabled) =>
      if AdminFault(l, admin).Some? then Failed(AdminFault(l, admin).value)
      else Done(l.(flags := l.flags[flag := enabled]), [])
    case SetConfig(admin, config) =>
      if AdminFault(l, admin).Some? then Failed(AdminFault(l, admin).value)
      else Done(l.(config := Some(config)), [])
  }

  function Attempt(l: Ledger, t: Tx): Applied {
    if !t.authorized then Failed(AuthRequired)
    else if RateLimited(t.call) then
      match RateGate(l, t.call.issuer, t.now)
      case Failed(e) => Failed(e)
      case Done(l1, _) => DocumentCall(l1, t.call, t.now)
    else Governance(l, t.call)
  }

  /** The ledger after a transaction: a failing call is rolled back. */
  function Step(l: Ledger, t: Tx): Ledger {
    match Attempt(l, t)
    case Done(l', _) => l'
    case Failed(_) => l
  }

  function Run(l: Ledger, txs: seq<Tx>): Ledger {
    if txs == [] then l else Step(Run(l, txs[..|txs| - 1]), txs[|txs| - 1])
  }

  function VerifyDocument(l: Ledger, hash: Hash): bool {
    hash in l.docs && l.docs[hash].status == Active
  }

  // ---------- The contract object: writes happen in place ----------

  datatype Outcome = Ok(records: seq<Record>) | Err(error: Error)

  ghost predicate Matches(o: Outcome, a: Applied, after: Ledger) {
    match a
    case Done(l, rs) => o == Ok(rs) && after == l
    case Failed(e) => o == Err(e)
  }

  class Host {
    var docs: map<Hash, Record>
    var events: seq<Event>
    var admin: Option<Address>
    var version: Option<u32>
    var flags: map<string, bool>
    var config: Option<RateConfig>
    var buckets: map<Scope, Bucket>
    var retryAfter: map<Scope, u64>

    function View(): Ledger
      reads this
    {
      Ledger(docs, events, admin, version, flags, config, buckets, retryAfter)
    }

    constructor ()
      ensures View() == GENESIS
    {
      docs, events, admin, version := map[], [], None, None;
      flags, config, buckets, retryAfter := map[], None, map[], map[];
    }

    /** One pass of the loop over scopes. */
    method ChargeScope(scope: Scope, now: u64) returns (ok: bool)
      modifies this
      ensures ok <==> Available(old(View()), scope, now) > 0
      ensures ok ==> View() == Charged(old(View()), scope, now)
    {
      var cfg := ConfigOf(View());
      var state := BucketOf(View(), scope, now);
      var tokens := Refill(Capacity(cfg, scope), Rate(cfg, scope), state, now);
      if tokens == 0 {
        retryAfter := retryAfter[scope := 1];
        return false;
      }
      buckets := buckets[scope := Bucket(tokens - 1, now)];
      retryAfter := retryAfter - {scope};
      return true;
    }

    /** Charges the scopes one after the other; a failure may leave the first one charged. */
    method CheckRateLimit(who: Address, now: u64) returns (ok: bool)
      modifies this
      ensures ok <==> RateGate(old(View()), who, now).Done?
      ensures ok ==> View() == RateGate(old(View()), who, now).ledger
    {
      ghost var l := View();
      var scopes := [AddressScope(who), IssuerScope(who)];
      ChargedTwice(l, who, now);
      var i := 0;
      while i < |scopes|
        invariant 0 <= i <= 2
        invariant View() == ChargedPrefix(l, scopes[..i], now)
        invariant i >= 1 ==> Available(l, AddressScope(who), now) > 0
        invariant i == 2 ==> RateGate(l, who, now).Done?
      {
        assert scopes[..i + 1][..i] == scopes[..i];
        var passed := ChargeScope(scopes[i], now);
        if !passed { return false; }
        i := i + 1;
      }
      return true;
    }

    method RegisterDocument(issuer: Address, owner: Address, hash: Hash, now: u64) returns (o: Outcome)
      modifies this
      ensures Matches(o, RegisterOne(old(View()), issuer, owner, hash, now), View())
    {
      if hash in docs { return Err(AlreadyRegistered); }
      var record := Record(issuer, owner, now, Active);
      docs := docs[hash := record];
      events := events + [Registered(issuer, owner, hash)];
      return Ok([record]);
    }

    method RevokeDocument(issuer: Address, hash: Hash) returns (o: Outcome)
      modifies this
      ensures Matches(o, RevokeOne(old(View()), issuer, hash), View())
    {
      if hash !in docs { return Err(DocumentNotFound); }
      var record := docs[hash];
      if record.issuer != issuer { return Err(OnlyIssuerCanRevoke); }
      if record.status == Revoked { return Err(AlreadyRevoked); }
      record := record.(status := Revoked);
      docs := docs[hash := record];
      events := events + [Revocation(issuer, hash)];
      return Ok([record]);
    }

    method BatchRegisterDocuments(issuer: Address, items: seq<DocumentInfo>, now: u64) returns (o: Outcome)
      modifies this
      ensures Matches(o, DocumentCall(old(View()), BatchRegister(issuer, items), now), View())
    {
      if |items| == 0 { return Err(BatchEmpty); }
      if |items| > MAX_BATCH_SIZE { return Err(BatchTooLarge); }
      ghost var l := View();
      var records := [];
      var i := 0;
      while i < |items|
        invariant 0 <= i <= |items|
        invariant RegisterAll(l, issuer, items[..i], now) == Done(View(), records)
      {
        RegisterStops(l, issuer, items, now, i);
        var one := RegisterDocument(issuer, items[i].owner, items[i].hash, now);
        if one.Err? { return one; }
        records := records + one.records;
        i := i + 1;
      }
      assert items[..i] == items;
      return Ok(records);
    }

    method BatchRevokeDocuments(issuer: Address, hashes: seq<Hash>) returns (o: Outcome)
      modifies this
      ensures Matches(o, DocumentCall(old(View()), BatchRevoke(issuer, hashes), 0), View())
    {
      if |hashes| == 0 { return Err(BatchEmpty); }
      if |hashes| > MAX_BATCH_SIZE { return Err(BatchTooLarge); }
      ghost var l := View();
      var records := [];
      var i := 0;
      while i < |hashes|
        invariant 0 <= i <= |hashes|
        invariant RevokeAll(l, issuer, hashes[..i]) == Done(View(), records)
      {
        RevokeStops(l, issuer, hashes, i);
        var one := RevokeDocument(issuer, hashes[i]);
        if one.Err? { return one; }
        records := records + one.records;
        i := i + 1;
      }
      assert hashes[..i] == hashes;
      return Ok(records);
    }

    /** `answer` is the version number that a migration returns. */
    method Govern(c: Call) returns (o: Outcome, answer: Option<u32>)
      requires !RateLimited(c)
      modifies this
      ensures Matches(o, Governance(old(View()), c), View())
      ensures answer == if c.Migrate? && o.Ok? then version else None
    {
      answer := None;
      match c {
        case Initialize(who) =>
          if version.Some? { return Err(AlreadyInitialized), None; }
          admin, version := Some(who), Some(CONTRACT_VERSION);
          events := events + [Initialized(who, CONTRACT_VERSION)];
        case Migrate(who) =>
          if version.Some? && version.value != 0 { return Err(MigrationNotNeeded), None; }
          admin, version := Some(who), Some(CONTRACT_VERSION);
          answer := Some(CONTRACT_VERSION);
        case SetFlag(who, flag, enabled) =>
          if admin.None? { return Err(NotInitialized), None; }
          if admin.value != who { return Err(Unauthorized), None; }
          flags := flags[flag := enabled];
        case SetConfig(who, newConfig) =>
          if admin.None? { return Err(NotInitialized), None; }
          if admin.value != who { return Err(Unauthorized), None; }
          config := Some(newConfig);
      }
      return Ok([]), answer;
    }

    method Execute(t: Tx) returns (o: Outcome)
      modifies this
      ensures Matches(o, Attempt(old(View()), t), View())
    {
      if !t.authorized { return Err(AuthRequired); }
      if !RateLimited(t.call) {
        var answer;
        o, answer := Govern(t.call);
        return;
      }
      var ok := CheckRateLimit(t.call.issuer, t.now);
      if !ok { return Err(RateLimitExceeded); }
      match t.call {
        case Register(issuer, owner, hash) => o := RegisterDocument(issuer, owner, hash, t.now);
        case Revoke(issuer, hash) => o := RevokeDocument(issuer, hash);
        case BatchRegister(issuer, items) => o := BatchRegisterDocuments(issuer, items, t.now);
        case BatchRevoke(issuer, hashes) => o := BatchRevokeDocuments(issuer, hashes);
      }
    }

    /** A transaction as the host runs it: on an error every write and event is discarded. */
    method Invoke(t: Tx) returns (o: Outcome)
      modifies this
      ensures View() == Step(old(View()), t)
      ensures Matches(o, Attempt(old(View()), t), View())
    {
      var saved := View();
      o := Execute(t);
      if o.Err? {
        docs, events, admin, version := saved.docs, saved.events, saved.admin, saved.version;
        flags, config, buckets, retryAfter := saved.flags, saved.config, saved.buckets, saved.retryAfter;
      }
    }
  }

  /** One scope charged on its own. */
  function Charged(l: Ledger, s: Scope, now: u64): Ledger {
    l.(buckets := l.buckets[s := Bucket(SatSub(Available(l, s, now), 1), now)],
       retryAfter := l.retryAfter - {s})
  }

  function ChargedPrefix(l: Ledger, scopes: seq<Scope>, now: u64): Ledger {
    if scopes == [] then l
    else Charged(ChargedPrefix(l, scopes[..|scopes| - 1], now), scopes[|scopes| - 1], now)
  }

  /** Charging one scope does not change what the other has. */
  lemma ChargedElsewhere(l: Ledger, s: Scope, other: Scope, now: u64)
    requires s != other
    ensures Available(Charged(l, s, now), other, now) == Available(l, other, now)
  {
  }

  lemma ChargedBoth(l: Ledger, who: Address, now: u64)
    requires RateGate(l, who, now).Done?
    ensures Charged(Charged(l, AddressScope(who), now), IssuerScope(who), now) == RateGate(l, who, now).ledger
  {
    var a, i := AddressScope(who), IssuerScope(who);
    ChargedElsewhere(l, a, i, now);
    assert l.retryAfter - {a} - {i} == l.retryAfter - {a, i};
  }

  lemma ChargedPrefixes(l: Ledger, a: Scope, i: Scope, now: u64)
    ensures ChargedPrefix(l, [a, i][..0], now) == l && ChargedPrefix(l, [a, i][..1], now) == Charged(l, a, now)
    ensures ChargedPrefix(l, [a, i][..2], now) == Charged(Charged(l, a, now), i, now)
  {
    assert [a, i][..2] == [a, i] && [a, i][..1] == [a] && [a][..0] == [];
  }

  lemma ChargedTwice(l: Ledger, who: Address, now: u64)
    ensures var scopes := [AddressScope(who), IssuerScope(who)];
            var first := ChargedPrefix(l, scopes[..1], now);
            && ChargedPrefix(l, scopes[..0], now) == l
            && Available(first, IssuerScope(who), now) == Available(l, IssuerScope(who), now)
            && (RateGate(l, who, now).Done? ==>
                  ChargedPrefix(l, scopes[..2], now) == RateGate(l, who, now).ledger)
  {
    ChargedPrefixes(l, AddressScope(who), IssuerScope(who), now);
    ChargedElsewhere(l, AddressScope(who), IssuerScope(who), now);
    if RateGate(l, who, now).Done? {
      ChargedBoth(l, who, now);
    }
  }

  /** The first failing item decides the whole batch. */
  lemma {:induction false} RegisterStops(l: Ledger, issuer: Address, items: seq<DocumentInfo>, now: u64, i: nat)
    requires i < |items| && RegisterAll(l, issuer, items[..i], now).Done?
    ensures var l1 := RegisterAll(l, issuer, items[..i], now);
            match RegisterOne(l1.ledger, issuer, items[i].owner, items[i].hash, now)
            case Failed(e) => RegisterAll(l, issuer, items, now) == Failed(e)
            case Done(l2, r) => RegisterAll(l, issuer, items[..i + 1], now) == Done(l2, l1.records + r)
    decreases |items|
  {
    assert items[..i + 1][..i] == items[..i];
    if i + 1 == |items| {
      assert items[..i + 1] == items;
    } else {
      var front := items[..|items| - 1];
      assert front[..i] == items[..i] && front[i] == items[i];
      RegisterStops(l, issuer, front, now, i);
    }
  }

  lemma {:induction false} RevokeStops(l: Ledger, issuer: Address, hashes: seq<Hash>, i: nat)
    requires i < |hashes| && RevokeAll(l, issuer, hashes[..i]).Done?
    ensures var l1 := RevokeAll(l, issuer, hashes[..i]);
            match RevokeOne(l1.ledger, issuer, hashes[i])
            case Failed(e) => RevokeAll(l, issuer, hashes) == Failed(e)
            case Done(l2, r) => RevokeAll(l, issuer, hashes[..i + 1]) == Done(l2, l1.records + r)
    decreases |hashes|
  {
    assert hashes[..i + 1][..i] == hashes[..i];
    if i + 1 == |hashes| {
      assert hashes[..i + 1] == hashes;
    } else {
      var front := hashes[..|hashes| - 1];
      assert front[..i] == hashes[..i] && front[i] == hashes[i];
      RevokeStops(l, issuer, front, i);
    }
  }
}
