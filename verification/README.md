# Verification of the social backend's protocols

This project models, in Dafny 4.11, the parts of a social backend that carry real protocols and
state machines, and proves what they promise:

- **Read-through cache.** `CacheProtocol` is the transition system of concurrent `read` calls on one
  key (entry, lock, clock, database value, one program counter per call; every Redis command is one
  atomic step, and a command may fail or lose its reply). `CacheStampede` bounds loader runs,
  `CacheCoherence` says exactly when reads are fresh, `CacheProgress` when they throw and finish, `CacheManager` has the class itself on a shared
  string store and ties both views together, `CacheCodec` is the tagged-date codec.
- **Payments.** `PaymentPolicy` and `PaymentEntity` (class with in-place updates and rollback),
  `PaymentRuns` (whole runs: monotonicity, confluence, replay), `PaymentStore` (version-locked saves
  by concurrent use cases: serialisability, uniqueness).
- **`ConcurrentMap`.** Workers over a shared cursor, for every schedule.
- **Notifications.** `TtlCapCache` (the actor cache), `NotificationTrim` (the capped store, the batch
  path and its parallel trims) and `NotificationRaces` (trims interleaved call by call).
- **`UnitOfWork`.** Joined nested transactions as a small language of asynchronous work.
- **`RefreshRotation`.** Refresh tokens as a compare-and-set protocol with logins, logouts and cleanup.
- **Authorisation.** `ValidatePath` (regular expressions against a grammar), `PermissionIndex` (route
  catalogue, guard and keyed index), `RoleStore` and `RoleRuns` (role use cases one at a time and
  interleaved, with the memoised system-role ids).

`Prelude` and `Text` hold shared vocabulary. Code that updates state in place is a class whose methods
are proved against pure functions; the theorems are lemmas about those functions over all runs.
Promises are program counters in a step relation; Redis, the databases and clocks are explicit state.

Some properties one would expect are false of the code. Each has a concrete run and the exact condition:

- all-or-nothing across pools: `EscapesThroughAnotherPool`, `AtomicIffNothingEscapes`;
- atomicity of a nested `run`: `CaughtNestedFailureCommits`, `JoinedRunAtomicIff`;
- one connection per outermost `run`: `DetourTakesTwoConnections`, `OneConnectionIff`;
- racing trims keep 1000: `RacingTrimsOverdelete`, `MarkingReadOverdeletes`, `CapKeptIffFits`;
- fresh cached reads: `StaleFill`, `CoherenceExact`;
- final callbacks commute: `OrderMattersIffTheyDisagree`;
- a full actor cache keeps its unexpired entries: `RefreshCanEvict`, `MissesArePushedOut`;
- unique role names by the use cases' checks alone: `ChecksAloneRace`, `UniqueIffNoneCollides`, with
  serialised runs (`SerialKeepsNamesUnique`) and the index (`IndexKeepsNamesUnique`) as two ways to meet it.

The bound on loader runs carries a term for locks lost under slow loaders; `OverrunsCostLoads` shows it
is tight, and `NoOverruns` says exactly when the term is zero.

Where comments and code disagree the code is followed: the actor cache's comment says the cap acts
when the count "exceeds" the limit, while the code makes room as soon as it is reached.

Verify everything with `dafny verify dfyconfig.toml`.

## Model

| member | source | states |
|---|---|---|
| `CacheProtocol.MutualExclusion` | src/infrastructure/persistence/redis/cache-manager.ts:57-77 | in every reachable state of any number of concurrent reads, with expiries, flushes, failures and lost replies, at most one call owns the unexpired lock, and no step of another call, its release included, removes it |
| `CacheProtocol.LockInvRun` | src/infrastructure/persistence/redis/cache-manager.ts:57-66 | every token in play was drawn once and a stored lock is unexpired, over every run |
| `CacheStampede.StampedeBound` | src/infrastructure/persistence/redis/cache-manager.ts:81-133 | for every run, with no timing hypothesis: loader runs <= 1 + entries removed + loads that threw before the set + locks lost by a holder still before its set |
| `CacheStampede.NoOverruns` | src/infrastructure/persistence/redis/cache-manager.ts:89-90 | the overrun counter stays put if and only if no tick or flush of the run takes the lock from a holder still before its set |
| `CacheStampede.StampedeBoundTimely` | src/infrastructure/persistence/redis/cache-manager.ts:81-133 | when every lock outlives its holder's load and set, loader runs <= 1 + removals + aborts, and at most one call at a time is between the loader call and the end of the set |
| `CacheStampede.OverrunsCostLoads` | src/infrastructure/persistence/redis/cache-manager.ts:104-127 | the bound is tight and its timing hypothesis needed: for every n some run loses n locks under slow loaders, with nothing removed and nothing thrown, and loads n + 1 times |
| `CacheStampede.AccountsRun` | src/infrastructure/persistence/redis/cache-manager.ts:96-132 | conservation behind the bound: every load is stored, aborted or in flight, and the loads not aborted are paid for by removals, overruns and one entry or guarded load |
| `CacheStampede.CountersCount` | src/infrastructure/persistence/redis/cache-manager.ts:81-133 | the counters of the bound count the calls of the loader, the loads stored, the loads that threw before that, and the entries that went away |
| `CacheCoherence.CoherenceExact` | src/infrastructure/persistence/redis/cache-manager.ts:81-133 | from any state, every later read until the next database write or write-through returns the database's value if and only if no live entry and no call in progress carries another value |
| `CacheCoherence.CleanRun` | src/infrastructure/persistence/redis/cache-manager.ts:81-133 | a state with nothing stale stays so along any run without database writes, and only the database's value is returned |
| `CacheCoherence.DirtyReadExists` | src/infrastructure/persistence/redis/cache-manager.ts:81-87 | from a state with something stale, a run exists in which a read returns the stale value |
| `CacheCoherence.WriteThenInvalidate` | src/modules/authorization/application/use-cases/update-role/update-role.usecase.ts:59-64 | a database write and, after any run of other calls, other updates included, the key's invalidation restore coherence exactly when at the invalidation no unfinished read holds another value than the database |
| `CacheCoherence.InvalidateRestores` | src/infrastructure/persistence/redis/cache-manager.ts:167-169 | from any state an invalidation restores coherence exactly when no unfinished read holds another value than the database |
| `CacheCoherence.FillRestores` | src/infrastructure/persistence/redis/cache-manager.ts:135-147 | from any state a write-through does so exactly when it also stores the database's value |
| `CacheCoherence.CoherentRuns` | src/infrastructure/persistence/redis/cache-manager.ts:162-169 | in runs where no read overlaps a write and its invalidation, every read, negative entries included, returns the loader's value of that moment |
| `CacheCoherence.TurnsKeepReadsRight` | src/modules/authorization/application/use-cases/delete-role/delete-role.usecase.ts:29-34 | the same from any coherent state, write by write |
| `CacheCoherence.StaleFill` | src/infrastructure/persistence/redis/cache-manager.ts:104-127 | a load that straddles a write and its invalidation leaves the old value cached for its full time-to-live |
| `CacheProgress.ThrowsOnlyOnFaults` | src/infrastructure/persistence/redis/cache-manager.ts:81-133 | a read throws only if one of its own commands or its loader threw |
| `CacheProgress.CanFinish` | src/infrastructure/persistence/redis/cache-manager.ts:171-194 | from every state, a read that has not failed can end with a value by its own steps and the passing of time alone, whatever lock was left behind and however many attempts were in vain |
| `CacheProgress.WaitsThenReads` | src/infrastructure/persistence/redis/cache-manager.ts:179-193 | a call that lost the lock looks exactly `maxWaitAttempts` times and then competes for the lock again |
| `CacheProgress.PollTakes` | src/infrastructure/persistence/redis/cache-manager.ts:180-187 | each of those looks returns what it finds, and a call that may not wait goes back without a look |
| `CacheProgress.FailureReleases` | src/infrastructure/persistence/redis/cache-manager.ts:130-132 | an unfinished read can fail at any moment, changes nothing by it, and past the lock still gives the lock back |
| `CacheProgress.LostReplies` | src/infrastructure/persistence/redis/cache-manager.ts:57-77 | a command whose reply is lost has taken effect, and the call throws all the same |
| `CacheProgress.AcquireDecides` | src/infrastructure/persistence/redis/cache-manager.ts:89-94 | trying the lock takes it when it is free and otherwise starts to wait, changing nothing |
| `CacheManager.CommandShows` | src/infrastructure/persistence/redis/cache-manager.ts:57-77 | each protocol step of a key is exactly what its Redis command does to that key's entry and lock in the shared string store |
| `CacheManager.OtherKeysUntouched` | src/infrastructure/persistence/redis/cache-manager.ts:89-90 | no command for one key, short of a flush, changes another key's entry or lock |
| `CacheManager.WithJitter` | src/infrastructure/persistence/redis/cache-manager.ts:199-202 | the whole seconds of a random share of the ratio are added: never shorter, and longer by at most the ratio |
| `CacheManager.CacheManager.AcquireLock` | src/infrastructure/persistence/redis/cache-manager.ts:57-65 | on any key: a lock is obtained exactly when the key is not live, under a fresh token, and nothing else in the store changes |
| `CacheManager.CacheManager.ReleaseLock` | src/infrastructure/persistence/redis/cache-manager.ts:67-77 | the key is deleted exactly when it holds this token |
| `CacheManager.CacheManager.Invalidate` | src/infrastructure/persistence/redis/cache-manager.ts:167-169 | only the key goes |
| `CacheManager.CacheManager.Delete` | src/infrastructure/persistence/redis/cache-manager.ts:162-165 | the entry goes exactly when the deleter succeeded |
| `CacheManager.CacheManager.Write` | src/infrastructure/persistence/redis/cache-manager.ts:135-160 | a throwing writer changes nothing; otherwise the store has the data with its exact, jittered expiry unless the set took no effect or a rollback removed it, and the call rejects only when the rollback's removal throws, lost replies included |
| `CacheManager.CacheManager.Read` | src/infrastructure/persistence/redis/cache-manager.ts:81-133 | uninterrupted: a live value, negative ones included, is returned unchanged without loading; otherwise exactly one load, even behind an abandoned lock, its data returned and cached with the right expiry, an error leaving the entry alone, and the lock free afterwards |
| `CacheManager.CacheManager.LoadUnderLock` | src/infrastructure/persistence/redis/cache-manager.ts:96-129 | the re-check under the lock avoids the load; otherwise the stored text and expiry are exactly those of the loaded data |
| `CacheManager.CacheManager.WaitAndRetry` | src/infrastructure/persistence/redis/cache-manager.ts:171-194 | waiting keeps the contract of `read`, as of the moment of its first look in the cache, hits while polling included; it looks exactly `maxWaitAttempts` times before it loads |
| `CacheCodec.RoundTrip` | src/infrastructure/persistence/redis/cache-manager.ts:205-243 | decode(encode(v)) = v if and only if v holds no invalid date and no sub-object that is exactly the date tag with a string |
| `CacheCodec.EncodedIsPlain` | src/infrastructure/persistence/redis/cache-manager.ts:205-225 | what is written is plain JSON data |
| `CacheCodec.EncodedFields` | src/infrastructure/persistence/redis/cache-manager.ts:221 | encoding neither hides nor creates a tag |
| `CacheCodec.LoneTagWithDate` | src/infrastructure/persistence/redis/cache-manager.ts:235-237 | a lone tag key holding a date still round-trips |
| `CacheCodec.LoneTagWithString` | src/infrastructure/persistence/redis/cache-manager.ts:235-237 | a lone tag key holding a string comes back as a date |
| `Text.BlankIffAllSpaces` | src/modules/payment/domain/entities/payment.entity.ts:120-124 | `trim().length > 0` fails exactly on strings made of white space |
| `PaymentEntity.PaymentEntity.Create` | src/modules/payment/domain/entities/payment.entity.ts:42-69 | a new payment is creating, without URL, transaction id or result code, at version 0, or is refused exactly when its order is invalid |
| `PaymentEntity.PaymentEntity.SetUpdatedAt` | src/modules/core/domain/entities/base.entity.ts:85-91 | the setter accepts exactly times not before creation |
| `PaymentEntity.PaymentEntity.UpdateProps` | src/modules/core/domain/entities/base.entity.ts:160-172 | a change is kept exactly when its time and the merged properties are valid, otherwise everything is rolled back |
| `PaymentEntity.PaymentEntity.AttachCheckoutUrl` | src/modules/payment/domain/entities/payment.entity.ts:75-80 | the in-place method is the pure operation on the whole state, and keeps validity |
| `PaymentEntity.PaymentEntity.MarkAsUnknown` | src/modules/payment/domain/entities/payment.entity.ts:83-87 | the same for the unknown mark |
| `PaymentEntity.PaymentEntity.MarkAsCreateFailed` | src/modules/payment/domain/entities/payment.entity.ts:90-94 | the same for a rejected creation |
| `PaymentEntity.PaymentEntity.ApplyVerifiedOutcome` | src/modules/payment/domain/entities/payment.entity.ts:100-116 | the same for a verified notification, with all five results |
| `PaymentEntity.PaymentEntity.MarkDeleted` | src/modules/core/domain/entities/base.entity.ts:109-115 | deletion is refused exactly before creation and keeps the properties |
| `PaymentPolicy.ValidTexts` | src/modules/payment/domain/entities/payment.entity.ts:120-163 | each text field of an order is checked on its own: with the rest valid, exactly these values are |
| `PaymentPolicy.ValidAmounts` | src/modules/payment/domain/entities/payment.entity.ts:150-168 | so are the amount, a whole number from 10,000 to 50,000,000, and the expiry, absent or a real date |
| `PaymentPolicy.StatusSets` | src/modules/payment/domain/helpers/payment.policy.ts:8-24 | the status sets, by their members |
| `PaymentRuns.AttachUrlEffect` | src/modules/payment/domain/entities/payment.entity.ts:75-80 | a URL is attached, as given, exactly where there is none and the creation has not failed; a creating payment becomes pending and nothing else changes |
| `PaymentRuns.MarkEffects` | src/modules/payment/domain/entities/payment.entity.ts:82-94 | the two marks apply exactly while creating, and set the status, the failure also the code, and nothing else |
| `PaymentRuns.MismatchReplies` | src/modules/payment/domain/entities/payment.entity.ts:102-105 | the amount is compared first, then a request id if one is given |
| `PaymentRuns.NotificationReplies` | src/modules/payment/domain/helpers/payment.policy.ts:26-40 | the answer to every matching verified notification by what is stored: seen for a pending one or the stored result itself on a final payment and a conflict for every other, a conflict on a failed creation, otherwise taken over unless it repeats a pending result |
| `PaymentRuns.SettlementFields` | src/modules/payment/domain/entities/payment.entity.ts:110-114 | what a notification settles: its outcome, its code, and its transaction id unless a placeholder |
| `PaymentRuns.RefusalsChangeNothing` | src/modules/core/domain/entities/base.entity.ts:160-172 | every answer but `applied` leaves the payment as it was; an applied change stamps its time and keeps order and version |
| `PaymentRuns.RunsStaySound` | src/modules/payment/domain/entities/payment.entity.ts:118-169 | after any run of operations on any clock, rejected ones included, the properties are valid and updatedAt >= createdAt |
| `PaymentRuns.RunsAreMonotone` | src/modules/payment/domain/entities/payment.entity.ts:75-116 | along every run the rank creating < unknown < pending < settled never falls, a settled status, code and transaction id are frozen, and the URL is written at most once and never after a failed creation |
| `PaymentRuns.UnverifiedOutcomeFallsBack` | src/modules/payment/application/use-cases/handle-payment-notification/handle-payment-notification.usecase.ts:30-33 | without the verification of the outcome the rank can fall |
| `PaymentRuns.FirstFinalDecides` | src/modules/payment/domain/helpers/payment.policy.ts:26-52 | whatever surrounds it, the first matching non-pending callback decides status, code and transaction id |
| `PaymentRuns.Confluence` | src/modules/payment/domain/helpers/payment.policy.ts:26-52 | any two orders and duplications of callbacks whose non-pending ones agree, mixed with URL attachment and unknown marks, end in the same settlement |
| `PaymentRuns.OrderMattersIffTheyDisagree` | src/modules/payment/domain/entities/payment.entity.ts:107-115 | two final callbacks commute if and only if they report the same settlement |
| `PaymentRuns.ReplayIsDuplicate` | src/modules/payment/domain/helpers/payment.policy.ts:30-37 | replaying an applied notification with no other in between answers `duplicate` and changes nothing |
| `PaymentRuns.SettledStays` | src/modules/payment/domain/helpers/payment.policy.ts:30-34 | a settled payment stays as settled under every run |
| `PaymentRuns.NormalizedIsNormal` | src/modules/payment/domain/helpers/payment.policy.ts:18-20 | a transaction id is dropped exactly when it is absent, blank or "0", and kept as it is otherwise |
| `PaymentStore.PaymentRepository.Save` | src/modules/payment/infrastructure/persistence/postgres/payment.impl.repository.ts:88-124 | refused exactly when the version moved on, an error exactly when another payment of the provider has the transaction id, otherwise the caller's mutable columns are stored with version + 1 and nothing else changes |
| `PaymentStore.ReachableSaves` | src/modules/payment/domain/repositories/payment.repository.ts:16-21 | in every reachable state, on either database, a save succeeds exactly when nobody saved since the load and no other payment of the provider has this transaction id |
| `PaymentStore.PaymentRepository.InsertOrFindByIdempotency` | src/modules/payment/infrastructure/persistence/postgres/payment.impl.repository.ts:27-78 | inserts exactly when no unique key is taken, otherwise returns the payment of the same user and idempotency key, and keeps all keys unique |
| `PaymentStore.Serialisable` | src/modules/payment/domain/repositories/payment.repository.ts:16-21 | for every interleaving of loads, domain methods, version-checked saves and retries, a stored payment is the fold of its committed operations in commit order and its version is their number |
| `PaymentStore.NothingLost` | src/modules/payment/application/use-cases/create-payment/create-payment.usecase.ts:76-91 | a use case that reports success has its own operation in the committed log, at the position it was told |
| `PaymentStore.GivingUpTakesThreeCommits` | src/modules/payment/application/use-cases/create-payment/create-payment.usecase.ts:80-90 | a use case gives up only when at least three operations were committed to its payment after its first load |
| `PaymentStore.VerifiedFields` | src/modules/payment/application/use-cases/handle-payment-notification/handle-payment-notification.usecase.ts:57-73 | which notifications count as verified, field by field |
| `PaymentStore.NotificationsFindTheirOrder` | src/modules/payment/application/use-cases/handle-payment-notification/handle-payment-notification.usecase.ts:35-39 | a notification is applied to the payment of its provider and order id, and to no other |
| `PaymentStore.LoadsFind` | src/modules/payment/application/use-cases/handle-payment-notification/handle-payment-notification.usecase.ts:36-40 | a loading call gets a copy of its payment, and learns that there is none only when there is none |
| `PaymentStore.CallsTell` | src/modules/payment/application/use-cases/handle-payment-notification/handle-payment-notification.usecase.ts:40-50 | what a call is told: not found, the entity's refusal, success with its place in the log, or that the transaction id is taken |
| `PaymentStore.StaleRetries` | src/modules/payment/application/use-cases/create-payment/create-payment.usecase.ts:80-90 | a save that came too late changes nothing and is tried again on a fresh copy, three times in all |
| `PaymentStore.StoredSettlement` | src/modules/payment/application/use-cases/handle-payment-notification/handle-payment-notification.usecase.ts:35-53 | what is stored is settled by the first final callback committed, unless creation definitively failed |
| `PaymentStore.StoredIdsUnique` | src/infrastructure/persistence/postgres/migrations/20260924000000-payments.ts:25-31 | no two payments of a provider ever share a non-null transaction id or an order id, nor a user an idempotency key |
| `PaymentStore.BackendsAgree` | src/infrastructure/persistence/mongodb/migrations/20260924000000-payments.ts:14-21 | on every reachable state a save ends alike under the Postgres and the Mongo partial index |
| `PaymentStore.OrdersValid` | src/modules/payment/application/use-cases/create-payment/create-payment.usecase.ts:34-47 | every stored payment started as one that the entity's `create` returned, so its order passed validation |
| `ConcurrentMap.AlongTheWay` | src/modules/common/utils/concurrency.util.ts:17-25 | along any interleaving indices are claimed once each in order, calls in flight never exceed min(max(1, concurrency), length), every stored result is its own item's, and the schedule is bounded |
| `ConcurrentMap.LimitIsReached` | src/modules/common/utils/concurrency.util.ts:25-26 | the limit is used: some schedule has min(max(1, concurrency), length) calls in flight at once |
| `ConcurrentMap.AtRest` | src/modules/common/utils/concurrency.util.ts:17-30 | at rest the promise resolved with the sequential map after exactly one call per item if and only if no call rejects; otherwise it rejected with some item's error, and every item was called unless every worker failed |
| `ConcurrentMap.FirstRejectionWins` | src/modules/common/utils/concurrency.util.ts:26-27 | the promise rejects with the error of the call that was the first to reject in the schedule |
| `ConcurrentMap.MeasureFalls` | src/modules/common/utils/concurrency.util.ts:17-22 | every move of any worker lowers a measure, so every schedule ends |
| `ConcurrentMap.ClaimStep` | src/modules/common/utils/concurrency.util.ts:19-20 | claiming from the shared cursor keeps each index in one worker's hands |
| `ConcurrentMap.SettleStep` | src/modules/common/utils/concurrency.util.ts:21 | settling a call moves its index to the results or loses it to a rejection |
| `ConcurrentMap.MapWithConcurrency` | src/modules/common/utils/concurrency.util.ts:5-30 | the function itself, for any scheduler: the sequential map, or an error of one of the items |
| `TtlCapCache.HitsAreLastWrites` | src/modules/notification/application/services/notification.service.ts:262-276 | over every run, on any clock readings and for every cap, the size stays capped and a hit is the last value set for its key, still within its time-to-live |
| `TtlCapCache.ExpectedIsLastSet` | src/modules/notification/application/services/notification.service.ts:262-276 | in terms of the operations, what a look-up may answer is the value of the last set of its key, while now < set time + ttl |
| `TtlCapCache.MissesArePushedOut` | src/modules/notification/application/services/notification.service.ts:252-276 | for operations in any order of their times, none later than the look-up, an unexpired last write misses if and only if, since it was made, a set found the store full of unexpired entries with this one the oldest |
| `TtlCapCache.SetEvictsOnlyTheOldest` | src/modules/notification/application/services/notification.service.ts:252-260 | a set loses an unexpired entry of another key exactly when the store is full of unexpired entries and it is the oldest |
| `TtlCapCache.RefreshCanEvict` | src/modules/notification/application/services/notification.service.ts:272-275 | a full store loses an entry even when the key being set is already present |
| `TtlCapCache.SweepSlots` | src/modules/notification/application/services/notification.service.ts:244-250 | a sweep keeps exactly the unexpired entries |
| `TtlCapCache.EvictDrops` | src/modules/notification/application/services/notification.service.ts:255-259 | eviction drops the oldest entries, just enough of them, and all for a cap below one |
| `TtlCapCache.Cache.SweepExpired` | src/modules/notification/application/services/notification.service.ts:244-250 | deletion while iterating equals the pure sweep |
| `TtlCapCache.Cache.Enforce` | src/modules/notification/application/services/notification.service.ts:252-260 | sweep then evict, with a loop that ends |
| `TtlCapCache.Cache.Get` | src/modules/notification/application/services/notification.service.ts:263-271 | the value of the key's entry exactly when it expires later than now; an expired entry of the key, and only that, is deleted |
| `TtlCapCache.Cache.Set` | src/modules/notification/application/services/notification.service.ts:272-275 | the cap is enforced before the entry is put |
| `NotificationTrim.BatchRefinesOneByOne` | src/modules/notification/application/services/notification.service.ts:194-211 | inserting all and later trimming the recipients, in any order and repeatedly, gives the store of insert-then-trim per recipient |
| `NotificationTrim.InterleavedTrims` | src/modules/notification/application/services/notification.service.ts:202-211 | any interleaving of inserts and trims, then a trim of everybody trimmed before, in any order, gives what all inserts followed by one trim each give |
| `NotificationTrim.TrimsSpareSurvivors` | src/modules/notification/application/services/notification.service.ts:127-136 | whatever trims are mixed with the inserts, what a trim would keep of everybody's is what it would keep of all inserts |
| `NotificationTrim.TrimAbsorbs` | src/modules/notification/application/services/notification.service.ts:89-93 | trimming before an insert as well as after it changes nothing |
| `NotificationTrim.AwaitOnTrack` | src/modules/notification/application/use-cases/trim-notifications/trim-notifications.usecase.ts:20-24 | one more call of a trim that runs beside trims of other recipients does what it would do alone |
| `NotificationTrim.TrimCounts` | src/modules/notification/application/services/notification.service.ts:127-136 | a trim leaves min(count, 1000) of the recipient's notifications and all of everybody else's |
| `NotificationTrim.TrimTakesTheFirst` | src/modules/notification/infrastructure/persistence/postgres/notification.impl.repository.ts:76-82 | everything trimmed is read before anything kept is, or older, or of a smaller id |
| `NotificationTrim.NewestStays` | src/modules/notification/infrastructure/persistence/postgres/notification.impl.repository.ts:76-82 | an unread notification newer than all others of its recipient survives a trim |
| `NotificationTrim.FirstSize` | src/modules/notification/infrastructure/persistence/postgres/notification.impl.repository.ts:74-81 | the ordered, limited query returns min(limit, count) rows, none for a limit that is not positive |
| `NotificationTrim.TrimAllIsTrimmed` | src/modules/notification/application/use-cases/trim-notifications/trim-notifications.usecase.ts:16-27 | trimming a list of recipients depends only on the set of them |
| `NotificationTrim.OneByOneIsTrimmed` | src/modules/notification/application/services/notification.service.ts:195-200 | the sequential path equals inserting everything and trimming all recipients |
| `NotificationTrim.RelevantOnce` | src/modules/notification/application/services/notification.service.ts:178 | recipients are deduplicated in the order of first occurrence and exclude the sender, and no one else is dropped |
| `NotificationTrim.NotificationRepository.FindOldestForTrim` | src/modules/notification/infrastructure/persistence/postgres/notification.impl.repository.ts:70-86 | repeated selection finds the first ids of the trim order: read ones, then older ones, then smaller ids |
| `NotificationTrim.NotificationService.TrimRecipientIfNeeded` | src/modules/notification/application/services/notification.service.ts:127-136 | count, query and delete together are the trim |
| `NotificationTrim.NotificationService.PersistAndEmit` | src/modules/notification/application/services/notification.service.ts:89-93 | insert, trim, then push; a new unread notification, the newest of its recipient, is stored afterwards |
| `NotificationTrim.NotificationService.RecordNewMessage` | src/modules/notification/application/services/notification.service.ts:176-212 | both sides of the threshold push the same notifications in the same order and, once the recipients are trimmed, leave the same store; a missing sender changes nothing and a failing queue loses only the job |
| `NotificationTrim.NotificationService.TrimBatch` | src/modules/notification/application/use-cases/trim-notifications/trim-notifications.usecase.ts:21-22 | the parallel trims of a batch, interleaved call by call under any schedule, end and leave what trimming one after another leaves |
| `NotificationTrim.NotificationService.RunTrimJob` | src/modules/notification/application/use-cases/trim-notifications/trim-notifications.usecase.ts:16-27 | the deduplicated recipients are all trimmed, in batches of at most five and as few as that allows, and their number is reported |
| `NotificationRaces.CapKeptIffFits` | src/modules/notification/application/services/notification.service.ts:127-136 | for every interleaving of trims, inserts and marking read, the deletes on their way leave a recipient 1000 in every state if and only if each find of theirs selects, with what is already selected, no more than the surplus |
| `NotificationRaces.CapKeptIffSteady` | src/modules/notification/application/services/notification.service.ts:127-136 | when marks are kept apart from pending deletes, the counts alone decide: if and only if each trim finds at least as many as it counted |
| `NotificationRaces.SteadyIffNoneTaken` | src/modules/notification/application/services/notification.service.ts:128-134 | between a trim's count and its find, with no insert, the find is steady if and only if no delete took one of the recipient's notifications |
| `NotificationRaces.OnlyFindsBreakTheCap` | src/modules/notification/application/services/notification.service.ts:131-134 | with no hypothesis on marking read: no call but a find of the recipient's can make pending deletes leave them fewer than 1000 |
| `NotificationRaces.SafeDeleteKeepsCap` | src/modules/notification/application/services/notification.service.ts:135 | a delete from such a state leaves the recipient at least 1000 |
| `NotificationRaces.SteadyRunsKeepSurvivors` | src/modules/notification/application/services/notification.service.ts:127-136 | in a steady run that marks none of the recipient's own read, no trim ever takes one of the last 1000, in the trim order, of everything inserted |
| `NotificationRaces.TrimClears` | src/modules/notification/application/services/notification.service.ts:127-136 | however trims race, one that goes from its count to its delete with no insert leaves at most 1000 |
| `NotificationRaces.FittingTrimSettles` | src/modules/notification/application/services/notification.service.ts:127-136 | a trim's promise under interference, marking read included: when every find fits, once a trim that counts after the last insert is through, exactly min(count, 1000) of everything inserted are left |
| `NotificationRaces.SteadyTrimSettles` | src/modules/notification/application/services/notification.service.ts:127-136 | and when none of the recipient's own are marked read, they are the last ones of everything inserted |
| `NotificationRaces.RacingTrimsOverdelete` | src/modules/notification/application/services/notification.service.ts:127-136 | two trims that both count 1000 + k before either deletes leave 1000 - k |
| `NotificationRaces.MarkingReadOverdeletes` | src/modules/notification/infrastructure/persistence/postgres/notification.impl.repository.ts:70-86 | marking a notification read between two selections makes two steady trims delete two of 1001 |
| `NotificationRaces.DifferentRecipientsCommute` | src/modules/notification/application/use-cases/trim-notifications/trim-notifications.usecase.ts:21-22 | in every reachable state calls of trims of different recipients commute |
| `UnitOfWork.NestedRunsInline` | src/modules/core/infrastructure/unit-of-work/postgres.unit-of-work.ts:24-28 | in any tree of queries, throws, catches and runs, nested runs mean exactly what their inlined bodies mean, and inlining leaves none |
| `UnitOfWork.AllOrNothing` | src/modules/core/infrastructure/unit-of-work/postgres.unit-of-work.ts:30-41 | what an outermost run of any body commits: all surviving writes or none, after whatever escaped it; all exactly when it connected, began, its body did not throw and COMMIT was not refused; success means committed, an error means not committed unless COMMIT's reply was lost; nothing escapes sealed work |
| `UnitOfWork.AtomicIffNothingEscapes` | src/modules/core/infrastructure/unit-of-work/postgres.unit-of-work.ts:24-41 | a run that got its connection and transaction is all-or-nothing, as decided, if and only if none of its writes goes through a run on another pool and lands there |
| `UnitOfWork.JoinedRunAtomicIff` | src/modules/core/infrastructure/unit-of-work/postgres.unit-of-work.ts:26-28 | a nested run that throws leaves nothing in the transaction if and only if its body had written nothing there, and nothing in the database if and only if nothing escaped |
| `UnitOfWork.WorkLeaves` | src/modules/core/infrastructure/unit-of-work/postgres.unit-of-work.ts:12-41 | for every tree, context and state: what work adds to a pool's database at once and what it adds to the open transaction |
| `UnitOfWork.ConnectionsReturned` | src/modules/core/infrastructure/unit-of-work/postgres.unit-of-work.ts:30-42 | on every path, with any errors, connections taken are given back |
| `UnitOfWork.ExactlyOneConnection` | src/modules/core/infrastructure/unit-of-work/postgres.unit-of-work.ts:24-42 | an outermost run of sealed work, whatever it does on other pools and wherever it is opened, takes exactly one connection of its pool and releases it, or none when it cannot connect |
| `UnitOfWork.OneConnectionIff` | src/modules/core/infrastructure/unit-of-work/postgres.unit-of-work.ts:24-42 | for any body, an outermost run that began uses one connection if and only if no further run on its pool gets through to it |
| `UnitOfWork.DetourTakesTwoConnections` | src/modules/core/infrastructure/unit-of-work/postgres.unit-of-work.ts:26-30 | coming back to a pool from a run on another one takes a second connection while the first is held |
| `UnitOfWork.SealedKeepsIn` | src/modules/core/infrastructure/unit-of-work/postgres.unit-of-work.ts:12-19 | nothing escapes work that never comes back to its pool from a run on another one |
| `UnitOfWork.EscapesThroughAnotherPool` | src/modules/core/infrastructure/unit-of-work/postgres.unit-of-work.ts:26-28 | coming back to a pool from inside a run on another pool opens a second transaction, which commits although the outer one rolls back |
| `UnitOfWork.CaughtNestedFailureCommits` | src/modules/core/infrastructure/unit-of-work/postgres.unit-of-work.ts:26-28 | a nested run is not atomic on its own: caught in the outer one, its half-done writes commit |
| `UnitOfWork.ExecEnds` | src/modules/core/infrastructure/unit-of-work/postgres.unit-of-work.ts:30-42 | how work ends does not depend on the state it runs in |
| `UnitOfWork.Session.Query` | src/modules/core/infrastructure/unit-of-work/postgres.unit-of-work.ts:16-19 | a query goes to the current transaction exactly when it is on the same pool |
| `UnitOfWork.Session.RunWork` | src/modules/core/infrastructure/unit-of-work/postgres.unit-of-work.ts:24-42 | begin, commit, rollback and release on the stored connection do what the semantics says, and restore the context |
| `UnitOfWork.Session.Perform` | src/modules/core/infrastructure/unit-of-work/postgres.unit-of-work.ts:24-42 | the same for a whole tree of work |
| `RefreshRotation.ExchangedAtMostOnce` | src/modules/authentication/infrastructure/persistence/postgres/refresh-token.impl.repository.ts:50-60 | over any interleaving of logins, refreshes, logouts, cleanups and failures, no token value is exchanged twice |
| `RefreshRotation.RetiredForGood` | src/modules/authentication/application/use-cases/refresh-token/refresh-token.usecase.ts:49-58 | a value that once left the table is never stored again and every later rotation of it fails and changes nothing |
| `RefreshRotation.SessionsConserved` | src/modules/authentication/infrastructure/persistence/postgres/refresh-token.impl.repository.ts:50-60 | sessions in the table are those created minus those deleted, and a rotation keeps the set of rows |
| `RefreshRotation.CleanupSparesTheLiving` | src/modules/authentication/infrastructure/persistence/postgres/refresh-token.impl.repository.ts:45-48 | stored expiry is 1000 times the token's `exp` in every reachable row, cleanup removes exactly the rows past it, and none whose token is acceptable under section 4.1.4 of RFC 7519 |
| `RefreshRotation.InvRun` | src/modules/authentication/application/services/auth.service.ts:31-45 | every stored token was issued, belongs to its row's user, is held by one row only, and has not been retired; tokens being signed are nowhere else |
| `RefreshRotation.RotatesOne` | src/modules/authentication/infrastructure/persistence/postgres/refresh-token.impl.repository.ts:50-60 | a rotation changes exactly the row holding the old value |
| `RefreshRotation.LoginStores` | src/modules/authentication/application/services/auth.service.ts:38-45 | a login that ends well has stored its token under its user with its own expiry, and nothing else changed |
| `RefreshRotation.LogoutRemoves` | src/modules/authentication/application/use-cases/logout/logout.usecase.ts:18-24 | a logout ends well exactly when it found its token, which then is in no row and retired; all other rows stay |
| `RefreshRotation.LogoutOfNothing` | src/modules/authentication/application/use-cases/logout/logout.usecase.ts:12-16 | a logout of an unknown token is over at once and well |
| `RefreshRotation.RefreshReplaces` | src/modules/authentication/application/use-cases/refresh-token/refresh-token.usecase.ts:51-61 | a refresh ends well exactly when a row held its old token, which then holds the new one with its expiry; all other rows stay |
| `RefreshRotation.VerificationDecides` | src/modules/authentication/application/use-cases/refresh-token/refresh-token.usecase.ts:31-49 | verification lets through exactly the tokens signed here and not yet expired |
| `RefreshRotation.LoginSucceeds` | src/modules/authentication/application/services/auth.service.ts:32-45 | left alone, a login with an unexpired token succeeds |
| `RefreshRotation.RefreshSucceeds` | src/modules/authentication/application/use-cases/refresh-token/refresh-token.usecase.ts:28-64 | left alone, a refresh with a stored, unexpired token succeeds |
| `RefreshRotation.LogoutSucceeds` | src/modules/authentication/application/use-cases/logout/logout.usecase.ts:10-25 | left alone, a logout with a stored token succeeds |
| `RefreshRotation.FailuresAndTime` | src/modules/authentication/application/use-cases/refresh-token/refresh-token.usecase.ts:55-63 | a call in progress can fail at any moment and leaves the table as it is; time only passes |
| `RefreshRotation.RefreshTokenRepository.CreateRefreshToken` | src/modules/authentication/infrastructure/persistence/postgres/refresh-token.impl.repository.ts:35-38 | one new row with the token's own expiry |
| `RefreshRotation.RefreshTokenRepository.DeleteRefreshToken` | src/modules/authentication/infrastructure/persistence/postgres/refresh-token.impl.repository.ts:40-43 | exactly the rows with this token go |
| `RefreshRotation.RefreshTokenRepository.DeleteExpiredRefreshTokens` | src/modules/authentication/infrastructure/persistence/postgres/refresh-token.impl.repository.ts:45-48 | exactly the expired rows go, and are counted |
| `RefreshRotation.RefreshTokenRepository.RotateRefreshToken` | src/modules/authentication/infrastructure/persistence/postgres/refresh-token.impl.repository.ts:50-60 | exactly the rows of this user and old token take the new one; the answer says whether there were any |
| `RefreshRotation.Refresh` | src/modules/authentication/application/use-cases/refresh-token/refresh-token.usecase.ts:28-64 | without interference a refresh succeeds exactly when both tokens verify, the user and their role exist and the old token is stored; each refusal has its condition and changes nothing |
| `ValidatePath.ValidateIsGrammar` | src/modules/authorization/domain/helpers/validate-path.ts:29-66 | for every input and option set the function accepts exactly when the lower-cased path is "/" or "/"-separated valid segments of the language the options select |
| `ValidatePath.RegexIsGrammar` | src/modules/authorization/domain/helpers/validate-path.ts:1-21 | each of the three compiled expressions accepts exactly its grammar |
| `ValidatePath.PreChecksRedundant` | src/modules/authorization/domain/helpers/validate-path.ts:36-54 | a path of any of the grammars passes every check that precedes the expression, the trailing-slash check included |
| `ValidatePath.OptionsThatMatter` | src/modules/authorization/domain/helpers/validate-path.ts:30 | `allowTrailingSlash` decides nothing, and `allowUnderscore` decides nothing once params are allowed |
| `ValidatePath.LanguagesNested` | src/modules/authorization/domain/helpers/validate-path.ts:1-21 | each option adds exactly the paths that use its character: '_' over the plain language, ':' over that |
| `ValidatePath.SeparatedIsSplit` | src/modules/authorization/domain/helpers/validate-path.ts:2 | `E(?:sE)*` accepts exactly the strings whose pieces between separators all match E |
| `ValidatePath.ValidBelow` | src/modules/authorization/domain/helpers/validate-path.ts:19-21 | a valid path appended to a valid path is valid |
| `PermissionIndex.CatalogueGrants` | src/modules/operations/presentation/http-route-permission-catalog.ts:30-54 | end to end: an active role holding the whole catalogue passes the guard on every served string route whose pattern is empty, "/" or rooted |
| `PermissionIndex.CatalogueIsServed` | src/modules/operations/presentation/http-route-permission-catalog.ts:47-53 | the deduplicated catalogue lists a method and path exactly when some router serves them |
| `PermissionIndex.FirstsOf` | src/modules/operations/presentation/http-route-permission-catalog.ts:47-53 | deduplication keeps every key, each once, by its first route |
| `PermissionIndex.KeptFlags` | src/modules/operations/presentation/http-route-permission-catalog.ts:77-80 | of a router's lower-case method flags exactly those of the seven methods, when on, yield a route, under the method's upper-case name |
| `PermissionIndex.RouteAgreesIff` | src/presentation/http/express/utils/url.util.ts:30-33 | the catalogue's path of a route is the one the guard resolves if and only if the pattern is empty, "/", or has one leading and no trailing slash |
| `PermissionIndex.MountAgreesIff` | src/presentation/http/express/app.ts:57-63 | the catalogue's mount is the text the application mounts at if and only if version and path are trimmed of slashes and the prefix is empty or rooted |
| `PermissionIndex.LoweredRoutesAgree` | src/modules/operations/presentation/http-route-permission-catalog.ts:91-96 | a route whose lower-cased mount and pattern are valid is catalogued under the path the guard resolves, whose lower-cased text is valid |
| `PermissionIndex.ValidRoutesAgree` | src/modules/operations/presentation/http-route-permission-catalog.ts:91-96 | a route whose mount and pattern pass `validatePath`, in whatever case they are written, is catalogued under the path the guard resolves, and that path passes as well |
| `PermissionIndex.StripTrims` | src/modules/operations/presentation/http-route-permission-catalog.ts:93 | stripping ends at a string without slashes at its ends and changes only strings that have them |
| `PermissionIndex.KeyInjective` | src/presentation/http/express/guards/auth.guard.ts:88 | a `METHOD-path` key of a request equals that of a permission exactly when method and path both do, whatever the request path and even for methods that contain a dash |
| `PermissionIndex.IndexIsSearch` | src/presentation/http/express/guards/auth.guard.ts:87-107 | the keyed lookup answers exactly like a linear search for that method and path |
| `PermissionIndex.BuildIndex` | src/presentation/http/express/guards/auth.guard.ts:88 | the index loop builds the map of last permissions by key |
| `PermissionIndex.VerifyRole` | src/presentation/http/express/guards/auth.guard.ts:68-113 | access is granted exactly when the role exists, is active and holds that method and path; the request's role is set exactly then |
| `PermissionIndex.DiscoverRoutes` | src/modules/operations/presentation/http-route-permission-catalog.ts:30-54 | discovery returns the first route of each key over all routers |
| `PermissionIndex.CollectFlags` | src/modules/operations/presentation/http-route-permission-catalog.ts:78-89 | a layer contributes one route per enabled, valid method, in order |
| `PermissionIndex.CollectRoutes` | src/modules/operations/presentation/http-route-permission-catalog.ts:56-90 | a router contributes the routes of its layers, in order |
| `PermissionIndex.KeepFirsts` | src/modules/operations/presentation/http-route-permission-catalog.ts:47-53 | the seen-set filter keeps the first route of each key |
| `RoleStore.RoleUseCases.CreateRole` | src/modules/authorization/application/use-cases/create-role/create-role.usecase.ts:14-26 | each outcome with its exact condition; the new role has the normalised name, the given fields and each given permission id once, in the order of first occurrence; what every call keeps |
| `RoleStore.RoleUseCases.UpdateRole` | src/modules/authorization/application/use-cases/update-role/update-role.usecase.ts:27-66 | each outcome with its exact condition (an empty name skips the rename checks and is refused later); each given field as the patch has it, each other field and role as before; unique live names and both system roles are kept by the checks alone |
| `RoleStore.RoleUseCases.DeleteRole` | src/modules/authorization/application/use-cases/delete-role/delete-role.usecase.ts:21-35 | each outcome with its exact condition; after success the role is not live and nothing else changed; what every call keeps |
| `RoleStore.RoleUseCases.FindRoleByName` | src/modules/authorization/infrastructure/persistence/postgres/role.impl.repository.ts:85-92 | finds a live role by normalised name exactly when there is one |
| `RoleStore.PatchKeeps` | src/modules/authorization/infrastructure/persistence/postgres/role.impl.repository.ts:140-168 | a patch that passed the checks keeps normal names, unique live names and the system roles |
| `RoleStore.UniqueIds` | src/modules/authorization/infrastructure/persistence/postgres/role.impl.repository.ts:191-206 | the stored permission ids are the given ones, each once, in the order of first occurrence |
| `RoleStore.NameCharacters` | src/modules/authorization/domain/value-objects/role-name.value-object.ts:27-30 | the characters of a role name |
| `RoleStore.RoleNamesNormalise` | src/modules/authorization/domain/value-objects/role-name.value-object.ts:6-31 | role names are normalised once and for all, whatever upper-casing does to other strings |
| `RoleStore.RoleService.GetAdminRoleId` | src/modules/authorization/application/services/role.service.ts:16-21 | the memo is answered when present; otherwise a lookup fills it |
| `RoleStore.RoleService.GetUserRoleId` | src/modules/authorization/application/services/role.service.ts:23-28 | the same for the user role |
| `RoleRuns.SystemRolesAlwaysStand` | src/modules/authorization/application/use-cases/update-role/update-role.usecase.ts:27-52 | over every interleaving of the use cases' repository calls, with or without the unique index, ADMIN and USER stay live under their id and name, nothing else bears their names, and ADMIN stays active |
| `RoleRuns.MemoIsFresh` | src/modules/authorization/application/services/role.service.ts:16-37 | the memo, lookups in flight included, and every answer ever given equal what a fresh lookup finds now |
| `RoleRuns.IndexKeepsNamesUnique` | src/infrastructure/persistence/postgres/migrations/20260518120000-init-schema.ts:484 | with the index, live names are unique in every reachable state |
| `RoleRuns.SerialKeepsNamesUnique` | src/modules/authorization/application/use-cases/create-role/create-role.usecase.ts:14-26 | over every run in which no use case begins amid another's calls, live names stay unique without the index |
| `RoleRuns.UniqueIffNoneCollides` | src/modules/authorization/application/use-cases/create-role/create-role.usecase.ts:14-26 | without the index, live names are unique in every state of a run if and only if none of its writes collides with a live name, which is what the index checks |
| `RoleRuns.ChecksAloneRace` | src/modules/authorization/application/use-cases/create-role/create-role.usecase.ts:14-26 | interleaved without it, any free valid name can be duplicated by two racing creations |
| `RoleRuns.RacesTell` | src/modules/authorization/infrastructure/persistence/postgres/role.impl.repository.ts:140-180 | a call that finds its role gone says so, a deletion reports success exactly when it ended the role's life, and the index refuses exactly the writes that collide |
| `RoleRuns.DeadStayDead` | src/modules/authorization/infrastructure/persistence/postgres/role.impl.repository.ts:170-178 | a deleted role stays deleted, so of several deletions one reports success |
| `RoleRuns.DroppedCalls` | src/modules/authorization/application/use-cases/update-role/update-role.usecase.ts:27-66 | a call that throws ends failed and leaves the store alone |
| `RoleRuns.UpdateAlone` | src/modules/authorization/application/use-cases/update-role/update-role.usecase.ts:27-66 | left alone, the interleaved model's update does what the use case promises, with or without the index |
| `RoleRuns.DeleteAlone` | src/modules/authorization/application/use-cases/delete-role/delete-role.usecase.ts:21-35 | the same for a deletion |
| `RoleRuns.CreateAlone` | src/modules/authorization/application/use-cases/create-role/create-role.usecase.ts:14-26 | the same for a creation |
| `RoleRuns.LookupAlone` | src/modules/authorization/application/services/role.service.ts:16-37 | a look-up answers the memo, or a live role of the name, or that there is none |
| `RoleRuns.GetsThrough` | src/modules/authorization/application/use-cases/update-role/update-role.usecase.ts:27-66 | a use case gets there by its own calls one after another, touching no other |

## Left out

- CacheManager.CacheManager.Read: proved for one uninterrupted call on a Redis that does not fail; failing commands and interleaved calls are the subject of `CacheProtocol`, and `CommandShows` connects the two. The clock of `RedisClient` advances by one unit at every command.
- CacheCodec.RoundTrip: the JSON text layer and objects with their own `toJSON` are not modelled; ISO printing and parsing of dates are parameters assumed inverse on the range of time values.
- `CacheManager.get` on text that is not JSON: such text is `Foreign` and read as no cache entry.
- `CacheManager.clear` is the `Flush` step of the protocol; it is counted in the stampede bound and excluded where other keys must stay untouched.
- Coherence of keys shared by two loaders (`UserService`), and permission edits that invalidate nothing.
- `IdempotencyInterceptor`: only the mutual exclusion of its lock follows.
- Confluence: `markCreateFailed` is outside the confluence runs, since a rejected creation refuses later callbacks; it is inside all other run theorems.
- PaymentStore.Serialisable: rows are never soft-deleted, and `updated_by_id` and the fingerprint comparison of a repeated create request are not kept.
- Payment gateways, their signatures and checkout calls: a notification arrives verified or not at all.
- Random tokens and ids (UUIDs, prefixed ids, signed tokens) are fresh values; sha256, JWT signing and bcrypt are not modelled.
- ConcurrentMap.MapWithConcurrency: `concurrency` is an integer; a fractional number or NaN is not modelled.
- NotificationTrim.NotificationService.RecordNewMessage: the payload text is left out; it is proved without interference, the subject of `NotificationRaces`.
- NotificationRaces.SteadyRunsKeepSurvivors: asks that none of the recipient's own notifications is marked read, since marking changes which ones go first; `FittingTrimSettles` gives the count without that.
- Notification kinds other than new messages: they only call `persistAndEmit`.
- UnitOfWork: isolation between concurrent transactions, locks, and the state of a PostgreSQL transaction after a failed statement are not modelled; errors of the work itself are explicit `Throw`s.
- RefreshRotation.Refresh: tokens that are malformed or signed elsewhere are refused by verification before; the access token is not kept. In the concurrent model a missing user or role is the `Fail` step.
- RefreshRotation.CleanupSparesTheLiving: clock skew between the database and the application is not modelled.
- ValidatePath.ValidateIsGrammar: `toLowerCase` and `decodeURIComponent` are parameters; it is assumed only that they keep strings of path characters and strings without '%'.
- `resolveUrlPath` for patterns that are not strings, and Express's own matching of requests to routes (case, trailing slashes, mount parameters): `baseUrl` is taken as the mount text.
- PermissionIndex.ValidRoutesAgree: lower-casing is taken character by character, and to yield a slash only from a slash.
- PermissionIndex.VerifyRole: token verification and the cached read of the role are its inputs; stored permissions have an enumerated method and a path that starts with a slash, as their value objects demand.
- The module tag of a route is an input of its router.
- RoleStore.RoleUseCases.UpdateRole: cache invalidation after the update is treated in `CacheCoherence`; validation of permission ids and timestamps are left out.
- Synchronisation of the base roles and permissions, role listing, and the MongoDB role repository.
- Express, sockets, queues, storage, email, media processing, mappers, schemas and seeds: input and output, or field copies.
