# ProofStell: verified models of the stateful cores

ProofStell registers document hashes on a Soroban contract and runs an off-chain service
around it. This project models the seven stateful parts of that system in Dafny and proves
properties of every run, interleaving or input of each of them.

| files | component |
|---|---|
| `TokenBucket`, `BucketThreads`, `IssuerLimiter` | the lock-free token bucket, its concurrent callers, and the per-issuer map with eviction |
| `Contract`, `ContractRuns`, `ContractCalls` | the document contract, its rate gate, and the host's rollback |
| `Recency`, `Cache`, `CacheRuns`, `CacheBatches` | the in-memory cache with expiry, LRU eviction and batch forms |
| `Breaker`, `BreakerThreads`, `BreakerWindows` | the Horizon circuit breaker, per method, per atomic access, and what interleaving does to its cool-down |
| `EventKeys`, `Ingestion` | event identity, packed sequence numbers, the deduplicating ingestor |
| `HashCodec` | canonical SHA-256 hex: four validators and the decoder |
| `Webhook`, `WebhookRuns`, `WebhookDrains` | dispatch with deduplication, retry and the dead-letter queue |
| `Common`, `Ints` | shared vocabulary: options, distinctness, fixed-width integers |

`dafny verify dfyconfig.toml` checks everything.

Each component that changes state is a class whose methods are proved against functions on
values (`View() == Set(old(View()), ...)`); the `...Runs` and `...Threads` modules then prove
what those functions do over whole runs, against independent definitions: the plain expiring
map, the replayed event log, the unbounded atomic bucket, the list of planned deliveries.

Conventions. Clock readings are arguments or an oracle; nothing assumes that they increase
unless a lemma says so. Machine integers are subset types (`u32`, `u64`) with wrap-around,
saturation and truncation written out. `Gain(rate, n)` is rate x n (`GainIsProduct`),
defined by repeated addition. A failing contract call discards all of its writes and events,
as `docs/superpowers/specs/2026-06-21-batch-operations-design.md` describes.

Where code and documentation disagree, or a property one would expect is false, the code is
modelled and the exact condition is proved:

- The bucket's comment says no token is double-spent. A commit with an older clock moves the
  stored time back and refills the same second again, so with readings anywhere between `lo`
  and `hi` grants are unbounded unless `lo == hi` (`BackwardClockMints`, `ElapsedBoundIff`).
  The bound that always holds counts forward clock moves (`GrantBound`).
- The breaker's cool-down holds for whole methods (`CoolDown`). Interleaved, it holds exactly
  when four gaps between two accesses are never interrupted (`CoolDownIff`); one of them can
  leave an idle breaker open without a time stamp (`QuietStampIff`).
- The half-open in-flight gauge does not count the call that opens the probation, so recording that
  call first wraps it below zero (`InFlightCounts`, `GaugeTrueIff`).
- Deduplication keeps two deliveries of a key a lifetime apart exactly when the cache is
  unlimited or the lifetime is zero (`SpacingIff`).
- The retry hint the contract stores on rejection can never be read: the call that writes it
  fails, so it is rolled back (`RollbackKeepsScopesTogether`).
- `migrate` documents an `Unauthorized` error that no path returns; `MigrateIff` says when it
  succeeds.
- An event refused for its order has used up its key, so a redelivery is refused as a
  duplicate (`OutOfOrderIsLost`); `ExactlyOnceIff` says when none is lost.
- The dead-letter comment promises up to 10,000 entries; with a cache there is one slot per
  URL. A drain returns the newest letter of each (`CachedDrainReturns`), and can be relied on to
  do so exactly when the cache has no limit (`CachedDrainIff`).

## Model

| member | source | states |
|---|---|---|
| `TokenBucket.PackUnpack` | src/rate_limit.rs:43-51 | seconds and milli-tokens survive packing |
| `TokenBucket.UnpackPack` | src/rate_limit.rs:43-51 | every word is the packing of its halves, so words and levels correspond one to one |
| `TokenBucket.NewLimits` | src/rate_limit.rs:101-115 | capacity is 1000 x the burst and rate 1000 x the per-second figure, each clamped to 1 .. 4294967: whole tokens that fit 32 bits |
| `TokenBucket.Refilled` | src/rate_limit.rs:119-123 | 64-bit saturating refill equals the unbounded capped refill: nothing saturates or overflows for clocks below 2^32 |
| `TokenBucket.IterateRefines` | src/rate_limit.rs:128-169 | one pass of the retry loop decides and publishes exactly one atomic refill-then-consume |
| `TokenBucket.TryConsume` | src/rate_limit.rs:126-172 | the loop, with any number of spurious swap failures, returns the atomic verdict and leaves the atomic level |
| `TokenBucket.Conservation` | src/rate_limit.rs:126-172 | balance plus 1000 per grant equals starting balance plus everything refilled, for every run and clock |
| `TokenBucket.GrantBound` | src/rate_limit.rs:119-145 | grants are covered by the starting balance plus rate x the forward clock moves, even if clocks go back |
| `TokenBucket.WindowBound` | src/rate_limit.rs:119-145 | with non-decreasing clocks, grants in a stretch fit capacity + rate x elapsed time |
| `TokenBucket.BackwardClockMints` | src/rate_limit.rs:119-150 | for any `lo < hi` and any n, a clock going to and fro between the two gets at least n grants from any bucket |
| `TokenBucket.ElapsedBoundIff` | src/rate_limit.rs:119-150 | every run with readings in [lo, hi], in any order, stays within capacity + rate x (hi - lo) iff lo == hi |
| `TokenBucket.AlwaysWhole` | src/rate_limit.rs:119-172 | every reachable balance is a whole number of tokens |
| `TokenBucket.ResetIff` | src/rate_limit.rs:130-169 | in every run a call reports a reset iff it finds the bucket empty at a later second than the last commit |
| `TokenBucket.AdvertisedWaitSuffices` | src/rate_limit.rs:195-206 | after a rejection the advertised wait is exactly one second and a sole caller is granted after it |
| `TokenBucket.WaitIsFirst` | src/rate_limit.rs:195-206 | in every state with a forward clock the reported wait is the first number of seconds after which a bucket left alone grants |
| `TokenBucket.RejectionsTransparent` | src/rate_limit.rs:147-169 | with a forward clock, leaving out any rejected calls of a run changes no other decision |
| `TokenBucket.FullAtIsFirst` | src/rate_limit.rs:184-192 | the reset time (before jitter) is the first second at which an untouched bucket is full |
| `BucketThreads.Linearizable` | src/rate_limit.rs:126-172 | in every interleaving of loads and weak swaps, word and outcomes are those of one atomic consume per call in effect order |
| `BucketThreads.EachCallTakesEffectOnce` | src/rate_limit.rs:126-172 | each invocation of a thread takes effect at most once, before its reply, and replies are its effects in order |
| `BucketThreads.EffectsAreStable` | src/rate_limit.rs:126-172 | a longer schedule only appends to the effect order |
| `BucketThreads.RealTimeOrder` | src/rate_limit.rs:126-172 | a call that returned before another was invoked takes effect first |
| `BucketThreads.RunConserves` | src/rate_limit.rs:126-172 | token conservation in every interleaved run |
| `BucketThreads.RunGrantBound` | src/rate_limit.rs:126-172 | between any two effects of any interleaved run, grants are covered by tokens then held plus rate x forward moves |
| `BucketThreads.RunWindowBound` | src/rate_limit.rs:126-172 | capacity + rate x elapsed for any window whose clocks do not run backwards |
| `IssuerLimiter.Limiter.ConsumeIssuer` | src/rate_limit.rs:418-436 | creates a full bucket on first use and consumes atomically from this issuer only |
| `IssuerLimiter.Limiter.EvictStale` | src/rate_limit.rs:405-408 | keeps exactly the buckets touched within the TTL |
| `IssuerLimiter.EvictionTransparent` | src/rate_limit.rs:405-436 | eviction changes no decision of any run with a forward clock when capacity <= rate x (TTL + 1) |
| `IssuerLimiter.EvictionInvisibleIff` | src/rate_limit.rs:405-436 | and only then: otherwise an explicit run is decided differently |
| `IssuerLimiter.IssuersIndependent` | src/rate_limit.rs:418-436 | dropping all other issuers' calls leaves an issuer's bucket and decisions unchanged |
| `IssuerLimiter.NewIssuerBurst` | src/rate_limit.rs:98-145 | a new issuer's k-th check in one second is granted iff k is within the clamped burst |
| `IssuerLimiter.NewIssuerRefill` | src/rate_limit.rs:98-145 | after that burst, d seconds later the k-th check is granted iff k is within the burst and the clamped rate x d |
| `IssuerLimiter.TrackedIff` | src/rate_limit.rs:405-436 | after every run an issuer is tracked iff no eviction came more than a TTL after its last check |
| `Contract.Host.CheckRateLimit` | src/lib.rs:714-781 | the loop over both scopes passes iff both have a token, and then charges both and clears their hints |
| `Contract.Host.RegisterDocument` | src/lib.rs:234-255 | stores an active record stamped with ledger time and emits one event, or reports the registered hash |
| `Contract.Host.RevokeDocument` | src/lib.rs:345-370 | revokes an active document of the caller with one event, or reports which check failed first |
| `Contract.Host.BatchRegisterDocuments` | src/lib.rs:398-432 | size checks, then the single registration on each item until the first error |
| `Contract.Host.BatchRevokeDocuments` | src/lib.rs:462-499 | size checks, then the single revocation on each hash until the first error |
| `Contract.Host.Govern` | src/lib.rs:512-705 | initialize, migrate with the version it returns, flags and rate config, with their error cases |
| `Contract.Host.Invoke` | src/lib.rs:225-500 | a transaction commits everything or, on any error, leaves the ledger as it was |
| `ContractRuns.BatchRegisterIff` | src/lib.rs:405-432 | a batch succeeds iff hashes are distinct and unregistered at the start; then exactly these records and events are added |
| `ContractRuns.BatchRevokeFirstError` | src/lib.rs:469-499 | a batch fails with the first fault visible in the starting state, or revokes exactly its hashes |
| `ContractRuns.BatchRevokeIff` | src/lib.rs:469-499 | a revocation batch succeeds iff hashes are distinct active documents of the caller |
| `ContractRuns.BatchCallsIff` | src/lib.rs:398-499 | both batch calls behind the gate succeed iff 1 to 20 items, distinct, each acceptable at the start |
| `ContractRuns.LogDeterminesDocuments` | src/lib.rs:225-500 | after every run the documents equal the replayed log; one registration iff stored, one later revocation iff revoked, by the stored issuer and owner |
| `ContractRuns.VerifyReadsLog` | src/lib.rs:279-285 | a document verifies iff the log holds one registration and no revocation of it |
| `ContractRuns.RunEvolves` | src/lib.rs:225-635 | issuer, owner and timestamp never change, revocation is final, the log only grows, admin and version are fixed once set |
| `ContractRuns.MigrateIff` | src/lib.rs:599-635 | `migrate` never answers `Unauthorized`; in every reachable ledger it succeeds iff authorised and no authorised `initialize` or `migrate` came before |
| `ContractCalls.GateOpensIff` | src/lib.rs:714-781 | the gate opens iff both scopes hold a token, a new scope starting at its burst of the stored (or 200/100 default) configuration; then exactly one token leaves each, stamped now |
| `ContractCalls.HeldIsExact` | src/lib.rs:740-742 | while the refill fits 32 bits, what a scope holds is min(burst, tokens + rate x elapsed) |
| `ContractCalls.RegistrationBurst` | src/lib.rs:234-255 | from uncharged scopes exactly the first min(bursts) registrations of one second are accepted, each later one is refused by the rate limit |
| `ContractCalls.AcceptedWrites` | src/lib.rs:225-500 | authorisation, then the gate; an accepted call writes the records and events of its own arguments at ledger time, a refused one nothing |
| `ContractCalls.SingleVerdict` | src/lib.rs:234-370 | with the gate open, which error a registration or revocation gives, or the record it returns |
| `ContractCalls.GovernanceFollows` | src/lib.rs:512-705 | after every run, admin, version, each flag and the configuration are what the admin of the time last wrote |
| `ContractCalls.GovernanceVerdict` | src/lib.rs:512-705 | the verdict and event of each governance call from the transactions before it |
| `ContractRuns.TruncationOnlyLoses` | src/lib.rs:740-742 | cutting the refill to 32 bits never adds tokens, with the exact condition for losing none |
| `ContractRuns.WindowQuota` | src/lib.rs:714-781 | an issuer's successes in any window [a,b] are at most burst + rate x (b - a), for both scopes |
| `ContractRuns.RollbackKeepsScopesTogether` | src/lib.rs:725-778 | both scope buckets are absent, or present with one refill time, and no retry hint is ever stored |
| `Cache.InMemoryCache.GetRaw` | src/cache.rs:1030-1063 | returns the unexpired value and moves it to the front, removes an expired one, or counts a miss |
| `Cache.InMemoryCache.EvictOverflow` | src/cache.rs:1095-1110 | popping from the back keeps exactly the newest entries; the queue never runs empty first |
| `Cache.InMemoryCache.SetRaw` | src/cache.rs:1071-1113 | inserts in front with saturating expiry and evicts to the limit |
| `Cache.InMemoryCache.DeleteKey` | src/cache.rs:1115-1126 | removes the key from map and queue |
| `Cache.InMemoryCache.SetBatch` | src/cache.rs:986-1016 | inserts all, then evicts once (also `warm`) |
| `Cache.InMemoryCache.GetBatch` | src/cache.rs:948-983 | equals successive single lookups in results, state and counters |
| `Cache.SetKeepsNewKey` | src/cache.rs:1071-1113 | a write ends in front with its value, is never the one evicted, and evicts at most one entry |
| `Cache.BatchEqualsSingles` | src/cache.rs:889-1016 | evict-at-end leaves the same entries and order as evict-each-step and counts no more evictions |
| `Cache.BatchAnswersEach` | src/cache.rs:948-983 | a batch lookup answers every key once, in order, as a lookup at its start would |
| `CacheRuns.AlwaysWithin` | src/cache.rs:1030-1126 | after every run of single operations the queue is a duplicate-free permutation of the keys and the size fits the limit |
| `CacheRuns.LruInclusion` | src/cache.rs:1030-1126 | fed the same operations, a smaller cache is part of a larger or unlimited one, so its hits are hits there with the same value |
| `CacheRuns.NeverInvents` | src/cache.rs:1030-1126 | a cache of any size answers only what the plain map of latest unexpired writes answers |
| `CacheRuns.UnlimitedIsPlainMap` | src/cache.rs:1030-1126 | without a limit and with a forward clock it answers exactly like that map |
| `CacheRuns.LookupsCounted` | src/cache.rs:1035-1062 | hits count answered lookups, misses those of absent keys, and hits + misses + expired all lookups |
| `CacheRuns.EntriesConserved` | src/cache.rs:1030-1126 | every entry ever created is still stored or was evicted, expired or deleted, exactly once |
| `CacheRuns.QueueByLastTouch` | src/cache.rs:1040-1088 | the queue lists keys by last touch, newest first |
| `CacheRuns.EvictsLeastRecentlyTouched` | src/cache.rs:1094-1110 | an evicted key was touched before every kept one and is not the key just written |
| `CacheBatches.BatchesFlatten` | src/cache.rs:816-1126 | a run with batch writes, warm-ups and batch lookups leaves the entries, order, hits, misses and expiries of its single operations, with no more evictions, and keeps the queue and limit invariant |
| `CacheBatches.BatchInclusion` | src/cache.rs:889-1126 | inclusion between two limits in runs with batches |
| `CacheBatches.BatchAnswers` | src/cache.rs:889-1126 | no invented answers, and exact hit, miss and expiry counts, in runs with batches |
| `CacheBatches.BatchLookup` | src/cache.rs:948-983 | in any run, answer i of a batch is for key i and is nothing or the plain map's |
| `Breaker.CircuitBreaker.AllowCall` | src/stellar.rs:785-847 | admits, rejects with the time left, or moves to half-open, with the counters that go with it |
| `Breaker.CircuitBreaker.RecordSuccess` | src/stellar.rs:857-885 | success bookkeeping per state, closing after enough probes |
| `Breaker.CircuitBreaker.RecordFailure` | src/stellar.rs:887-926 | failure bookkeeping per state, tripping at the threshold or on a failed probe |
| `Breaker.CircuitBreaker.RecordResult` | src/stellar.rs:849-855 | only errors that affect the breaker count as failures |
| `Breaker.CoolDown` | src/stellar.rs:785-846 | no admission within the open duration of the last trip, admission as soon as it is over, exact remaining time on rejection; Closed admits, HalfOpen admits what the semaphore permits |
| `Breaker.InnermostDecides` | src/stellar.rs:725-731 | under any number of exhausted retries an error counts iff the innermost is a request error, a timeout or a retryable status |
| `Breaker.TripsIff` | src/stellar.rs:889-908 | from Closed it trips on exactly the threshold-th counted failure since the last success or closing, 0 meaning 1 |
| `Breaker.ClosesIff` | src/stellar.rs:864-925 | from HalfOpen it closes on exactly the half_open_max_calls-th success since entry (0 meaning 1) with no counted failure, and reopens on a counted failure |
| `Breaker.InFlightCounts` | src/stellar.rs:803-911 | while HalfOpen the in-flight gauge is permitted calls minus recorded successes since entry, wrapped to 64 bits |
| `Breaker.GaugeTrueIff` | src/stellar.rs:803-911 | the gauge shows that difference iff it is not negative |
| `Breaker.CountersCount` | src/stellar.rs:857-971 | each of the nine counters shows how often its event happened, up to saturation |
| `BreakerThreads.CountersBalance` | src/stellar.rs:773-972 | in every interleaving of calls, each admitted before it records, trips - half-open failures - recoveries plus updates still owed is 1 iff not Closed |
| `BreakerThreads.QuietCountersTellState` | src/stellar.rs:928-971 | while no task is inside a method the published counters alone tell whether the breaker is closed |
| `BreakerThreads.AllowAlone` | src/stellar.rs:785-847 | run without interruption, the accesses of `allow_call` leave the state of the atomic method and return its one admission |
| `BreakerThreads.RecordSuccessAlone` | src/stellar.rs:857-885 | the same for `record_success` |
| `BreakerThreads.RecordFailureAlone` | src/stellar.rs:887-926 | the same for `record_failure` |
| `BreakerWindows.GuardedCoolDown` | src/stellar.rs:785-926 | if no task moves while another is in one of the four gaps and the clock does not run back, Open becomes HalfOpen only the open duration after a stamp that followed the last trip |
| `BreakerWindows.CoolDownIff` | src/stellar.rs:785-926 | the cool-down holds in all interleavings that keep a set of gaps uninterrupted iff the set is all four or the duration is zero, for every threshold and probe count |
| `BreakerWindows.TripGapBreaks` | src/stellar.rs:895-906 | a schedule from the start: a call between the trip and its stamp |
| `BreakerWindows.ReopenGapBreaks` | src/stellar.rs:913-924 | a schedule from the start: a call between a failed probe's swap and its stamp |
| `BreakerWindows.CloseGapBreaks` | src/stellar.rs:871-881 | a schedule from the start: the closing task takes the stamp of a later trip, and the next call on an idle breaker gets through at once |
| `BreakerWindows.ProbeGapBreaks` | src/stellar.rs:791-808 | a schedule from the start: a call swaps on a stamp it read before a probe failed |
| `BreakerWindows.QuietStampIff` | src/stellar.rs:871-926 | an open breaker with no task inside a method always has its stamp iff nobody moves between the swap to Closed and the taking of the stamp |
| `EventKeys.KeyText` | src/event.rs:62-67 | the key as text: contract, transaction, ledger, index, aggregate and type between colons |
| `EventKeys.KeysEqualIff` | src/event.rs:62-67 | with transaction hashes of one length or without colons, keys are equal iff transaction, ledger and index are and aggregate:type reads the same |
| `EventKeys.KeyInjective` | src/event.rs:62-67 | for such hashes, equal keys mean equal transaction, ledger, index, aggregate and type when the types hold no colon |
| `EventKeys.KeyCollides` | src/event.rs:62-67 | with a colon in a type, or in a transaction hash, different events share a key |
| `EventKeys.TypesCollideIff` | src/event.rs:62-67 | events of two different types can share a key iff one type is the other after a colon |
| `EventKeys.SequenceOrder` | src/event.rs:69-73 | below 1000 events per ledger and unsaturated, sequences compare like (ledger, index) |
| `EventKeys.OrderKeptIff` | src/event.rs:69-73 | an event's number is below that of every later event iff it is not saturated and its index is below 1000, or only the saturated number is left, or nothing can come later |
| `Ingestion.EventIngestor.Ingest` | src/event.rs:247-302 | records the key first, then refuses a sequence not above the last accepted one |
| `Ingestion.StreamVerdict` | src/event.rs:247-302 | the verdict on any event of any stream from the events before it |
| `Ingestion.AcceptedIncrease` | src/event.rs:258-276 | for every stream, accepted events of an aggregate strictly increase and have distinct keys |
| `Ingestion.OutOfOrderIsLost` | src/event.rs:249-271 | an event refused for its order is refused as a duplicate ever after |
| `Ingestion.DeliveryVerdict` | src/event.rs:247-302 | the verdict on every delivery of any delivery pattern of on-chain events |
| `Ingestion.ExactlyOnceIff` | src/event.rs:247-302 | each event is accepted at its first delivery and no other iff first deliveries respect the on-chain order per aggregate |
| `Ingestion.EventStore.Append` | src/event.rs:349-360 | appends under the next number of its aggregate and touches no other history |
| `HashCodec.HexNibble` | src/hash_validator.rs:483-489 | defined exactly on lowercase hex, with the value whose digit it is |
| `HashCodec.ValidateConstantTime` | src/hash_validator.rs:503-556 | the branch-free mask accepts iff non-empty, right length and all hex; otherwise the first applicable fault and first bad position |
| `HashCodec.ValidateWithLength` | src/hash_validator.rs:559-585 | the older validator gives that verdict on the trimmed, lowercased copy |
| `HashCodec.HexToBytes32` | src/hash_validator.rs:466-481 | validates the copy, decodes the original, never indexes out of range, and reports the first bad character |
| `HashCodec.DecodeEncode` | src/hash_validator.rs:206-220 | every 32-byte array encodes canonically and decodes to itself |
| `HashCodec.EncodeDecode` | src/hash_validator.rs:206-220 | every canonical string decodes to 32 bytes that encode to it |
| `HashCodec.ValidatorsAgree` | src/hash_validator.rs:170-634 | constructor, contract policy, constant-time validator and decoder accept exactly the canonical strings |
| `HashCodec.FaultsAgreeIff` | src/hash_validator.rs:170-456 | constructor and contract policy refuse with the same fault iff empty, of length 64, or hex of a length other than 128 |
| `HashCodec.FaultIff` | src/hash_validator.rs:503-556 | which fault the constant-time validator gives and what it carries, for every string and length |
| `HashCodec.LegacyFaultIff` | src/hash_validator.rs:559-585 | the same faults of the trimmed, lowercased copy |
| `HashCodec.NewFaultIff` | src/hash_validator.rs:170-200 | which fault the constructor gives |
| `HashCodec.PolicyFaultIff` | src/hash_validator.rs:430-456 | which fault the contract policy gives |
| `HashCodec.DecodeFaultIff` | src/hash_validator.rs:466-481 | which fault the decoder gives: of the copy, or the first wrong character of the original |
| `HashCodec.EncodeSpells` | src/hash_validator.rs:206-210 | each byte is spelled high digit first in lowercase hex |
| `HashCodec.LegacyAcceptsIff` | src/hash_validator.rs:559-585 | the older validator accepts exactly hex of the right length, in either case, between ASCII spaces |
| `HashCodec.LettersLower` | src/hash_validator.rs:388-390 | exactly the capital letters are lowered, each to its small letter |
| `HashCodec.LegacyDiffersIff` | src/hash_validator.rs:466-585 | it differs from the others iff the normal form is canonical and another string; the decoder then reports the first bad character |
| `Webhook.BackoffDoubles` | src/webhook.rs:382-384 | delays double until the cap or the twentieth retry, then stay, and never exceed the maximum |
| `Webhook.JitterBounded` | src/webhook.rs:386-391 | jitter adds at most a quarter and takes nothing away |
| `WebhookRuns.JitterReaches` | src/webhook.rs:386-391 | jitter can add any amount below a quarter |
| `Webhook.TriesStops` | src/webhook.rs:278-306 | the loop stops at the first success and otherwise uses every attempt |
| `Webhook.WebhookDispatcher.SendUntilDelivered` | src/webhook.rs:274-306 | the requests made, their delays, success iff one attempt succeeds, and the last error otherwise |
| `Webhook.WebhookDispatcher.Persist` | src/webhook.rs:323-345 | a dead letter goes to the cache slot of its URL, or to the queue dropping the oldest when full |
| `Webhook.WebhookDispatcher.DeliverWithRetry` | src/webhook.rs:274-351 | attempts, then at most one dead letter |
| `Webhook.WebhookDispatcher.DispatchEvent` | src/webhook.rs:236-265 | no URLs: nothing; marked key: skipped; otherwise mark, then every URL in order |
| `Webhook.WebhookDispatcher.DrainDlq` | src/webhook.rs:399-422 | returns and removes all entries, from queue or cache |
| `WebhookRuns.EveryDeliveryAccounted` | src/webhook.rs:236-351 | after every run, requests are those of every event that got past deduplication to each URL in order; without a cache the queue is the newest 10,000 dead letters since the last drain |
| `WebhookRuns.OneOutcomePerDelivery` | src/webhook.rs:274-351 | each pair makes 1 to max_retries + 1 requests, the first at once and retry n after min(max_delay, base_delay x 2^min(n,20)) plus at most a quarter of jitter, all but the last refused, and ends in one success or one dead letter with its URL, event, attempts and last error |
| `WebhookRuns.DispatchAccesses` | src/webhook.rs:236-265 | with a cache a dispatch looks its mark up and, if it goes on, writes it for the configured lifetime before the first delivery |
| `WebhookRuns.BuryAccesses` | src/webhook.rs:323-336 | with a cache a dead letter is written to its URL's slot for 604800 s and every slot is looked up once |
| `WebhookRuns.DrainAccesses` | src/webhook.rs:399-414 | with a cache a drain looks up and deletes each slot in URL order |
| `WebhookRuns.DrainReturnsNewest` | src/webhook.rs:399-422 | a drain returns exactly the newest dead letters since the previous one |
| `WebhookRuns.SkipHasCause` | src/webhook.rs:241-258 | at any cache size and clock, a dispatch is skipped only under an unexpired mark of its own key |
| `WebhookRuns.ReachesIff` | src/webhook.rs:241-258 | with an unlimited cache and forward clock, a dispatch reaches the URLs iff its key has no unexpired mark |
| `WebhookRuns.ReachesAreSpaced` | src/webhook.rs:236-265 | two dispatches of one key that reach the URLs are at least the deduplication time apart |
| `WebhookRuns.SpacingIff` | src/webhook.rs:236-265 | deliveries of one key are the deduplication time apart in every forward run iff the cache is unlimited or that time is zero |
| `WebhookDrains.SlotsHoldNewest` | src/webhook.rs:323-422 | the last write to a URL's slot is its newest dead letter since the last drain, after every run |
| `WebhookDrains.DrainInventsNothing` | src/webhook.rs:399-414 | at any cache size and clock, a slot yields nothing or that letter, unexpired; without a limit and with a forward clock, exactly that letter |
| `WebhookDrains.CachedDrainReturns` | src/webhook.rs:399-414 | with an unlimited cache and a forward clock, a drain returns per URL exactly its newest letter since the last drain, if younger than the slot's lifetime |
| `WebhookDrains.CachedDrainIff` | src/webhook.rs:236-414 | every drain of every forward run returns exactly these letters iff the cache has no limit |

## Left out

- The `governor` global tier, `StellarRateLimiter`, `until_ready` and quota snapshots in the cache: library code and timers.
- Races on creating or evicting an issuer's bucket: the map operations are atomic steps of `DashMap`; interleaving is modelled inside one bucket.
- The Redis backend, its health checks, bulkheads and fallback to memory, and `CacheCircuitBreaker`.
- Memory order: the breaker's `Ordering::Relaxed` accesses and the bucket's acquire/release ones are taken as sequentially consistent.
- Half-open concurrency limits: the permit is a given boolean per call, because the source drops it on return.
- `CachedDrainReturns`: takes a JSON codec that reads back what it wrote; `CachedDrainIff` says what a cache limit does.
- `Refilled`: takes clocks below 2^32, the range the packed word documents.
- `ValidateWithLength`: ASCII only; Unicode trimming and lowercasing are library tables.
- `HexToBytes32`: ASCII only, for the same reason.
- `RunWindowBound`: needs clocks below 2^32, as the packed word does.
- `ValidateConstantTime`: the debug assertion of `subtle::Choice` on the untouched mask of an empty input is not modelled; public callers refuse empty input first.
- `KeysEqualIff`: takes transaction hashes of one length or without a colon, which Stellar hashes are; a colon can make hashes of different lengths collide (`KeyCollides`).
- `DeliverWithRetry`: `max_retries + 1` wraps at 2^32 as in a release build.
- `Govern`: the model ends before `upgrade`, which replaces the code; authorisation is a given boolean, and ledger entry archival is host behaviour.
- Memo formats, base64, HMAC, JSON, event broadcasts, metrics other than those named, per-issuer reset jitter, and wall-clock reads.
- Concurrent dispatches and concurrent cache access: every cache method holds the write locks for its whole body, so it is one step here.
- Configuration parsing and HTTP wiring: no deep invariant.
