/** Identity and order of contract events: the idempotency key and the packed sequence number. */
module EventKeys {
  import opened Ints

  datatype Context = Context(transactionHash: string, ledger: u64, index: u32, documentHash: string)

  function Digit(d: nat): char
    requires d < 10
  {
    "0123456789"[d]
  }

  /** Decimal printing without leading zeros. */
  function Decimal(n: nat): (s: string)
    ensures |s| > 0
  {
    if n < 10 then [Digit(n)] else Decimal(n / 10) + [Digit(n % 10)]
  }

  /** The parts of a key are joined with colons. */
  function Join(a: string, b: string): string { a + ":" + b }

  function IdempotencyKey(c: Context, aggregateId: string, eventType: string): string {
    Join("contract",
         Join(c.transactionHash,
              Join(Decimal(c.ledger), Join(Decimal(c.index), Join(aggregateId, eventType)))))
  }

  function Sequence(c: Context): u64 {
    SatAdd64(SatMul64(c.ledger, 1000), c.index)
  }

  /** The key as text. */
  lemma KeyText(c: Context, agg: string, ty: string)
    ensures IdempotencyKey(c, agg, ty) ==
            "contract:" + c.transactionHash + ":" + Decimal(c.ledger) + ":" + Decimal(c.index) + ":" + agg + ":" + ty
  {
    assert "contract:" == "contract" + ":";
  }

  // ---------- The key is injective ----------

  function DigitValue(ch: char): nat {
    if '0' <= ch <= '9' then ch as nat - '0' as nat else 0
  }

  function Value(s: string): nat {
    if s == "" then 0 else 10 * Value(s[..|s| - 1]) + DigitValue(s[|s| - 1])
  }

  /** Printed numbers read back as themselves and hold no colon. */
  lemma {:induction false} DecimalReads(n: nat)
    ensures Value(Decimal(n)) == n && ':' !in Decimal(n)
  {
    var s := Decimal(n);
    if n < 10 {
      assert s[..0] == "";
      assert DigitValue(Digit(n)) == n;
    } else {
      DecimalReads(n / 10);
      assert s[..|s| - 1] == Decimal(n / 10);
      assert DigitValue(Digit(n % 10)) == n % 10;
    }
  }

  /** A colon-free first part can be told from the rest. */
  lemma JoinLeft(a: string, b: string, a': string, b': string)
    requires ':' !in a && ':' !in a' && Join(a, b) == Join(a', b')
    ensures a == a' && b == b'
  {
    var s := Join(a, b);
    assert s[|a|] == ':' && s[|a'|] == ':';
    assert s == Join(a', b');
    assert forall i :: 0 <= i < |a| ==> s[i] == a[i];
    assert forall i :: 0 <= i < |a'| ==> s[i] == a'[i];
    assert |a| == |a'|;
    assert a == s[..|a|] == a' && b == s[|a| + 1..] == b';
  }

  lemma NoColonAfter(a: string, b: string)
    requires ':' !in b
    ensures forall k :: |a| < k < |Join(a, b)| ==> Join(a, b)[k] != ':'
  {
    forall k | |a| < k < |Join(a, b)| ensures Join(a, b)[k] != ':' {
      assert Join(a, b)[k] == b[k - |a| - 1];
    }
  }

  /** So can a colon-free last part. */
  lemma JoinRight(a: string, b: string, a': string, b': string)
    requires ':' !in b && ':' !in b' && Join(a, b) == Join(a', b')
    ensures a == a' && b == b'
  {
    var s := Join(a, b);
    assert s == Join(a', b');
    assert s[|a|] == ':' && s[|a'|] == ':';
    NoColonAfter(a, b);
    NoColonAfter(a', b');
    assert a == s[..|a|] == a' && b == s[|a| + 1..] == b';
  }

  lemma JoinSameLength(a: string, b: string, a': string, b': string)
    requires |a| == |a'| && Join(a, b) == Join(a', b')
    ensures a == a' && b == b'
  {
    var s := Join(a, b);
    assert a == s[..|a|] == a' && b == s[|a| + 1..] == b';
  }

  /** Transaction hashes without a colon, or of one length as all Stellar hashes are. */
  predicate Separable(c: Context, c': Context) {
    || (':' !in c.transactionHash && ':' !in c'.transactionHash)
    || |c.transactionHash| == |c'.transactionHash|
  }

  /**
   Two events whose transaction hashes hold no colon, or have the same length, share a key
   exactly when they agree on transaction, ledger and index and their aggregate and type
   join to the same text.
   */
  lemma KeysEqualIff(c: Context, agg: string, ty: string, c': Context, agg': string, ty': string)
    requires Separable(c, c')
    ensures IdempotencyKey(c, agg, ty) == IdempotencyKey(c', agg', ty') <==>
              && c.transactionHash == c'.transactionHash && c.ledger == c'.ledger && c.index == c'.index
              && Join(agg, ty) == Join(agg', ty')
  {
    if IdempotencyKey(c, agg, ty) == IdempotencyKey(c', agg', ty') {
      var last, last' := Join(agg, ty), Join(agg', ty');
      var idx, idx' := Join(Decimal(c.index), last), Join(Decimal(c'.index), last');
      var led, led' := Join(Decimal(c.ledger), idx), Join(Decimal(c'.ledger), idx');
      JoinLeft("contract", Join(c.transactionHash, led), "contract", Join(c'.transactionHash, led'));
      if |c.transactionHash| == |c'.transactionHash| {
        JoinSameLength(c.transactionHash, led, c'.transactionHash, led');
      } else {
        JoinLeft(c.transactionHash, led, c'.transactionHash, led');
      }
      NumberFirst(c.ledger, idx, c'.ledger, idx');
      NumberFirst(c.index, last, c'.index, last');
    }
  }

  lemma NumberFirst(m: nat, rest: string, m': nat, rest': string)
    requires Join(Decimal(m), rest) == Join(Decimal(m'), rest')
    ensures m == m' && rest == rest'
  {
    DecimalReads(m);
    DecimalReads(m');
    JoinLeft(Decimal(m), rest, Decimal(m'), rest');
  }

  /** So the key is injective when types hold no colon either; aggregates may. */
  lemma {:induction false} KeyInjective(c: Context, agg: string, ty: string, c': Context, agg': string, ty': string)
    requires Separable(c, c') && ':' !in ty && ':' !in ty'
    requires IdempotencyKey(c, agg, ty) == IdempotencyKey(c', agg', ty')
    ensures c.transactionHash == c'.transactionHash && c.ledger == c'.ledger && c.index == c'.index
    ensures agg == agg' && ty == ty'
  {
    KeysEqualIff(c, agg, ty, c', agg', ty');
    JoinRight(agg, ty, agg', ty');
  }

  /**
   With a colon in an event type, two different events do share a key; with one in a
   transaction hash, even events of different transactions, ledgers and indices do.
   */
  lemma {:induction false} KeyCollides(c: Context, agg: string, mid: string, ty: string, j: u32)
    ensures IdempotencyKey(c, agg, Join(mid, ty)) == IdempotencyKey(c, Join(agg, mid), ty)
    ensures var shifted := Context(Join(c.transactionHash, Decimal(c.ledger)), c.index, j, c.documentHash);
            IdempotencyKey(shifted, agg, ty) == IdempotencyKey(c, Join(Decimal(j), agg), ty)
  {
    JoinAssociates(agg, mid, ty);
    var tx, l, i, k := c.transactionHash, Decimal(c.ledger), Decimal(c.index), Decimal(j);
    JoinAssociates(k, agg, ty);
    JoinAssociates(tx, l, Join(i, Join(k, Join(agg, ty))));
  }

  lemma JoinAssociates(a: string, b: string, c: string)
    ensures Join(Join(a, b), c) == Join(a, Join(b, c))
  {
  }

  /** One type ends with a colon and the other. */
  ghost predicate Extends(ty: string, other: string) { exists mid :: ty == Join(mid, other) }

  lemma LongerType(agg: string, ty: string, agg': string, ty': string)
    requires Join(agg, ty) == Join(agg', ty') && |ty| > |ty'|
    ensures Extends(ty, ty')
  {
    var s, n := Join(agg, ty), |agg'|;
    assert s == Join(agg', ty');
    assert s[|agg| + 1..] == ty && s[n + 1..] == ty' && s[n] == ':';
    assert ty == Join(s[|agg| + 1..n], ty');
  }

  /**
   The exact condition: within one context, events of two types can share a key, for some
   aggregates, if and only if the types are equal or one is the other after a colon.
   */
  lemma {:induction false} TypesCollideIff(c: Context, ty: string, ty': string)
    ensures (exists agg, agg' :: IdempotencyKey(c, agg, ty) == IdempotencyKey(c, agg', ty')) <==>
              ty == ty' || Extends(ty, ty') || Extends(ty', ty)
  {
    if agg, agg' :| IdempotencyKey(c, agg, ty) == IdempotencyKey(c, agg', ty') {
      KeysEqualIff(c, agg, ty, c, agg', ty');
      if |ty| > |ty'| {
        LongerType(agg, ty, agg', ty');
      } else if |ty| < |ty'| {
        LongerType(agg', ty', agg, ty);
      } else {
        JoinSameTail(agg, ty, agg', ty');
      }
    }
    if Extends(ty, ty') {
      var mid :| ty == Join(mid, ty');
      KeyCollides(c, "", mid, ty', 0);
    }
    if Extends(ty', ty) {
      var mid :| ty' == Join(mid, ty);
      KeyCollides(c, "", mid, ty, 0);
    }
    assert ty == ty' ==> IdempotencyKey(c, "", ty) == IdempotencyKey(c, "", ty');
  }

  lemma JoinSameTail(a: string, b: string, a': string, b': string)
    requires Join(a, b) == Join(a', b') && |b| == |b'|
    ensures b == b'
  {
    assert |a| + 1 + |b| == |Join(a, b)| == |a'| + 1 + |b'|;
    JoinSameLength(a, b, a', b');
  }

  // ---------- The sequence number keeps the order ----------

  predicate Before(c: Context, c': Context) {
    c.ledger < c'.ledger || (c.ledger == c'.ledger && c.index < c'.index)
  }

  ghost predicate Packs(c: Context) {
    c.index < 1000 && c.ledger * 1000 + c.index < U64_LIMIT
  }

  /** Below 1000 events per ledger and without saturation, sequences compare like (ledger, index). */
  lemma SequenceOrder(c: Context, c': Context)
    requires Packs(c) && Packs(c')
    ensures Sequence(c) < Sequence(c') <==> Before(c, c')
  {
  }

  /** Nothing can come after it. */
  predicate Final(c: Context) { c.ledger == U64_MAX && c.index == U32_LIMIT - 1 }

  /**
   An event keeps its place before every later one exactly when its number is not saturated
   and its index is below 1000, so that it does not reach into the numbers of the next
   ledger (or the next ledger has only the saturated number left).
   */
  lemma {:induction false} OrderKeptIff(c: Context)
    ensures (forall c' :: Before(c, c') ==> Sequence(c) < Sequence(c')) <==>
              || Final(c)
              || (c.ledger * 1000 + c.index < U64_MAX && (c.index < 1000 || (c.ledger + 1) * 1000 >= U64_LIMIT))
  {
    if c.ledger < U64_MAX {
      var next := Context("", c.ledger + 1, 0, "");
      assert Before(c, next);
    } else if !Final(c) {
      var next := Context("", c.ledger, c.index + 1, "");
      assert Before(c, next) && Sequence(next) == Sequence(c) == U64_MAX;
    }
  }
}
