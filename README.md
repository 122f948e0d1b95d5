# Transaction service: the sixty-second window cache

The transaction service stores every transaction (an id, an amount and a
timestamp in epoch milliseconds). It also answers statistics over the
transactions of the last sixty seconds. It answers them from an in-memory map
from transaction id to transaction, which the service maintains in four ways:

- **Warm-up.** On construction the map is filled from the store. The service
  means to ask the store for the rows of the last minute and collect them by id,
  but it passes the query's bounds reversed, so as written it starts empty (see
  Findings).
- **Admission.** On `create`, after the row is saved, the transaction enters the
  map when its timestamp lies in the closed window `[now - 60000, now]` and its
  id is not yet a key. The first write for an id wins.
- **Eviction.** A sweep that the scheduler runs every second removes every entry
  whose timestamp is strictly before `now - 60000`.
- **Statistics.** `getStatistics` reduces the cached amounts to sum, average,
  max, min and count. An empty cache reports zero in all five fields.

The model is in five modules:

- **`Model`** holds the `Transaction` and `Statistics` records.
- **`Aggregation`** models the summary-statistics accumulator. It keeps a count
  and a sum, plus a min and a max that start at plus and minus infinity. The
  `Statistics` record is read off it with infinite extremes turned into zero.
- **`Repository`** models the one range query the warm-up uses. It also states
  the primary-key property of the store.
- **`TransactionService`** holds three things:
  - the window predicates;
  - the specification functions `Admit`, `Evict` and `StatisticsOf`, with the
    lemmas relating them;
  - the class `TransactionServiceImpl`. Its `cache` map field is updated in
    place by `Create`, `PutIfCacheable` and `EvictCache`, each proved against
    `Admit` or `Evict`. `GetStatistics` is proved against `StatisticsOf`.
- **`Scenarios`** replays the service test's statistics sequence on a service
  object. It covers all five checkpoints, each with its own method. The replay
  starts from the as-written constructor, as the test does.

The class has two constructors. The unnamed one is the warm-up as the code is
written, which starts with an empty cache (see Findings).
`WithCorrectedWarmUp` passes the query's bounds in their declared order.

Conventions used throughout the model:

- The clock is the parameter `now`.
- Amounts are exact reals.
- Ids and timestamps are unbounded integers.
- The source's two `isInfinite ? 0.0 : value` ternaries are written inline in
  `Summarize`, with no function of their own.
- `getStatistics` streams the cache's values in an order the map leaves
  unspecified. The class therefore keeps a second field, `values`, which lists
  the cache's entries in the order they were inserted. The class invariant
  `Lists(values, cache)` says that collecting the listing by id gives back the
  cache. Every state-changing method keeps it. `ListingExists` proves that every
  cache keyed by id has a listing, and `StatisticsOrderFree` proves that the
  answer is the same for any listing of the cache.

## Model

| member | source | states |
|---|---|---|
| `TransactionService.Cacheable` | src/main/java/com/leomaya/transaction/service/impl/TransactionServiceImpl.java:63-66 | Admission holds exactly for timestamps that are not in the future and not expired. |
| `TransactionService.ExpiredStaysExpired` | src/main/java/com/leomaya/transaction/service/impl/TransactionServiceImpl.java:78 | An entry that one sweep would remove would be removed by every later sweep too. |
| `TransactionService.Admit` | src/main/java/com/leomaya/transaction/service/impl/TransactionServiceImpl.java:62-70 | The id becomes a key exactly when it already was one or the timestamp is in `[now - 60000, now]`. The stored value is the old one when the id was present, else the new transaction. Every other key and value is unchanged, and entries stay keyed by their own id. |
| `TransactionService.AdmitOutsideWindow` | src/main/java/com/leomaya/transaction/service/impl/TransactionServiceImpl.java:63-68 | A timestamp older than `now - 60000` or later than `now` leaves the cache unchanged. |
| `TransactionService.AdmitFirstWriteWins` | src/main/java/com/leomaya/transaction/service/impl/TransactionServiceImpl.java:67 | When the id is already cached, admission leaves the cache unchanged. |
| `TransactionService.AdmitIdempotent` | src/main/java/com/leomaya/transaction/service/impl/TransactionServiceImpl.java:67 | Admitting the same transaction twice equals admitting it once. |
| `TransactionService.AdmitAll` | src/main/java/com/leomaya/transaction/service/impl/TransactionServiceImpl.java:36-38 | After a run of creations, the keys are the old keys plus the ids of the run's in-window transactions. Existing entries are never dropped or replaced, every new entry is an in-window transaction of the run, and entries stay keyed by id. |
| `TransactionService.AdmitAllFirstWins` | src/main/java/com/leomaya/transaction/service/impl/TransactionServiceImpl.java:66-67 | Every entry a run of creations adds is a row of the run that was in the window while no earlier row with its id was: across a run, the first in-window write for an id wins. |
| `TransactionService.AdmitAllKeys` | src/main/java/com/leomaya/transaction/service/impl/TransactionServiceImpl.java:62-70 | After a run of in-window admissions, the key set is the old keys plus the run's ids. |
| `TransactionService.AdmitAllCollects` | src/main/java/com/leomaya/transaction/service/impl/TransactionServiceImpl.java:59-67 | Admitting in-window transactions with distinct ids into an empty cache builds the same map as collecting them by id. |
| `TransactionService.Evict` | src/main/java/com/leomaya/transaction/service/impl/TransactionServiceImpl.java:74-79 | A key survives a sweep exactly when its timestamp is `>= now - 60000`, the boundary included. Survivors keep their values and nothing is added. |
| `TransactionService.EvictIdempotent` | src/main/java/com/leomaya/transaction/service/impl/TransactionServiceImpl.java:78 | A second sweep at the same time removes nothing more. |
| `TransactionService.EvictCompose` | src/main/java/com/leomaya/transaction/service/impl/TransactionServiceImpl.java:78 | Two sweeps equal one sweep at the later of the two times. |
| `TransactionService.EvictUpdate` | src/main/java/com/leomaya/transaction/service/impl/TransactionServiceImpl.java:78 | Sweeping a cache with one more entry sweeps the rest and keeps that entry exactly when it is not expired. |
| `TransactionService.WindowBoundaries` | src/main/java/com/leomaya/transaction/service/impl/TransactionServiceImpl.java:62-78 | A transaction exactly 60000 ms old is admitted and survives a sweep at the same time. One 60001 ms old is refused and counts as expired. |
| `TransactionService.AdmittedSurvivesSweep` | src/main/java/com/leomaya/transaction/service/impl/TransactionServiceImpl.java:62-78 | An admitted transaction survives, unchanged, every sweep no later than its timestamp plus 60000 ms. |
| `TransactionService.ToConcurrentMap` | src/main/java/com/leomaya/transaction/service/impl/TransactionServiceImpl.java:59 | Collecting by id succeeds exactly when the ids are distinct. The map then has one entry per row, each row under its own id, and no other values. |
| `TransactionService.WarmUpAsWritten` | src/main/java/com/leomaya/transaction/service/impl/TransactionServiceImpl.java:55-58 | The warm-up query with the arguments in the order the call passes them selects nothing. |
| `TransactionService.WarmUp` | src/main/java/com/leomaya/transaction/service/impl/TransactionServiceImpl.java:55-58 | With the bounds in the declared order, the warm-up selects exactly the stored rows in `[now - 60000, now]`, keeping ids distinct. |
| `TransactionService.WarmUpLosesCacheableRow` | src/main/java/com/leomaya/transaction/service/impl/TransactionServiceImpl.java:58 | Every stored row inside the window is missing from the query as written and present in the corrected query. |
| `Repository.FindAllByTimestampBetween` | src/main/java/com/leomaya/transaction/repository/TransactionRepository.java:9 | A row is selected exactly when it is stored and `from <= timestamp <= to`. The result is empty when `to < from`, and distinct ids stay distinct. |
| `Aggregation.MinOf` | src/main/java/com/leomaya/transaction/service/impl/TransactionServiceImpl.java:44 | The running minimum after one more amount is the old one or the amount. Once finite, it is at most both. |
| `Aggregation.MaxOf` | src/main/java/com/leomaya/transaction/service/impl/TransactionServiceImpl.java:44 | The running maximum after one more amount is the old one or the amount. Once finite, it is at least both. |
| `Aggregation.Accept` | src/main/java/com/leomaya/transaction/service/impl/TransactionServiceImpl.java:44 | Accepting an amount adds one to the count and the amount to the sum. The new min is the old min or the amount and is at most both; the max likewise is the old max or the amount and at least both. |
| `Aggregation.Fold` | src/main/java/com/leomaya/transaction/service/impl/TransactionServiceImpl.java:44 | The accumulator counts and sums the amounts. Its min and max are infinite exactly when nothing was accepted; otherwise they are amounts of the stream that bound all the others. |
| `Aggregation.Average` | src/main/java/com/leomaya/transaction/service/impl/TransactionServiceImpl.java:48 | The average is zero for an empty stream; otherwise it times the count gives the sum. |
| `Aggregation.Summarize` | src/main/java/com/leomaya/transaction/service/impl/TransactionServiceImpl.java:44-52 | Gives the count and the sum. It is all zeros for an empty stream (infinite extremes read as zero). Otherwise avg is sum over count, and min and max are elements bounding every element. |
| `Aggregation.SumPermutation` | src/main/java/com/leomaya/transaction/service/impl/TransactionServiceImpl.java:44 | The sum does not depend on the order of the amounts. |
| `Aggregation.SummarizePermutation` | src/main/java/com/leomaya/transaction/service/impl/TransactionServiceImpl.java:44-52 | None of the five statistics depends on the order of the amounts. |
| `Aggregation.SummarizeAppend` | src/main/java/com/leomaya/transaction/service/impl/TransactionServiceImpl.java:44-52 | One more amount adds one to the count and the amount to the sum, and moves min and max to include it. |
| `Aggregation.SumUniform` | src/main/java/com/leomaya/transaction/service/impl/TransactionServiceImpl.java:47 | n copies of a sum to n·a. |
| `Aggregation.SummarizeUniform` | src/main/java/com/leomaya/transaction/service/impl/TransactionServiceImpl.java:44-52 | n > 0 copies of a give statistics (n·a, a, a, a, n). |
| `TransactionService.Amounts` | src/main/java/com/leomaya/transaction/service/impl/TransactionServiceImpl.java:44 | Maps each transaction to its amount, position by position. |
| `TransactionService.SameMembersSameAmounts` | src/main/java/com/leomaya/transaction/service/impl/TransactionServiceImpl.java:44 | Two listings of the same entries carry the same multiset of amounts. |
| `TransactionService.ListingExists` | src/main/java/com/leomaya/transaction/service/impl/TransactionServiceImpl.java:44 | Every cache whose entries sit under their own ids has a listing, so the statistics are defined on every such cache. |
| `TransactionService.ListedSummary` | src/main/java/com/leomaya/transaction/service/impl/TransactionServiceImpl.java:44 | The reduction of a listing's amounts has min and max attained by cached entries and bounding every cached amount. |
| `TransactionService.StatisticsOf` | src/main/java/com/leomaya/transaction/service/impl/TransactionServiceImpl.java:43-53 | count is the number of cached entries and sum is the sum of their amounts. An empty cache gives all zeros. Otherwise avg is sum over count, and min and max are attained by cached entries and bound every cached amount. |
| `TransactionService.StatisticsOrderFree` | src/main/java/com/leomaya/transaction/service/impl/TransactionServiceImpl.java:44 | Any two listings of the cache give the same statistics. |
| `TransactionService.StatisticsAdmit` | src/main/java/com/leomaya/transaction/service/impl/TransactionServiceImpl.java:43-70 | Admitting a new in-window id adds one to the count and the amount to the sum, and moves min and max to include it. |
| `TransactionService.StatisticsUniform` | src/main/java/com/leomaya/transaction/service/impl/TransactionServiceImpl.java:43-53 | n > 0 entries all of amount a report (n·a, a, a, a, n). |
| `TransactionService.DistinctCreatesAllCounted` | src/main/java/com/leomaya/transaction/service/impl/TransactionServiceImpl.java:35-70 | n creations with distinct ids, all in the window and all of amount a, are all counted: (n·a, a, a, a, n). |
| `TransactionService.ListsSnoc` | src/main/java/com/leomaya/transaction/service/impl/TransactionServiceImpl.java:67 | Inserting a new id and appending its row to the listing keeps the listing a listing of the cache. |
| `TransactionService.Unexpired` | src/main/java/com/leomaya/transaction/service/impl/TransactionServiceImpl.java:78 | The rows a sweep keeps are exactly the listed rows that are not expired. |
| `TransactionService.ListsEvict` | src/main/java/com/leomaya/transaction/service/impl/TransactionServiceImpl.java:78 | The unexpired rows of a listing, in order, list the swept cache. |
| `TransactionService.TransactionServiceImpl.constructor` | src/main/java/com/leomaya/transaction/service/impl/TransactionServiceImpl.java:26-32 | As written: the cache starts from the warm-up query with swapped bounds, so it is empty whatever the store holds. |
| `TransactionService.TransactionServiceImpl.WithCorrectedWarmUp` | src/main/java/com/leomaya/transaction/service/impl/TransactionServiceImpl.java:26-32 | With the bounds in declared order, the cache starts as exactly the stored rows in the window, each under its id. |
| `TransactionService.TransactionServiceImpl.Create` | src/main/java/com/leomaya/transaction/service/impl/TransactionServiceImpl.java:35-40 | Returns its argument. The new cache is `Admit(old cache, transaction, now)`, and the listing grows by the transaction exactly when it was admitted. |
| `TransactionService.TransactionServiceImpl.PutIfCacheable` | src/main/java/com/leomaya/transaction/service/impl/TransactionServiceImpl.java:62-70 | The in-place update leaves the cache equal to `Admit(old cache, transaction, now)`, appends an admitted transaction to the listing, and keeps the class invariant. |
| `TransactionService.TransactionServiceImpl.GetStatistics` | src/main/java/com/leomaya/transaction/service/impl/TransactionServiceImpl.java:43-53 | Answers `StatisticsOf` for the current cache and its listing: count is the number of entries, all zeros for an empty cache, min and max bound every cached amount. |
| `TransactionService.TransactionServiceImpl.EvictCache` | src/main/java/com/leomaya/transaction/service/impl/TransactionServiceImpl.java:74-79 | The in-place removal leaves the cache equal to `Evict(old cache, now)`, the listing equal to its unexpired rows in order, and keeps the class invariant. |
| `Scenarios.SummarizePair` | src/main/java/com/leomaya/transaction/service/impl/TransactionServiceImpl.java:44-52 | Two amounts x <= y report (x + y, (x + y) / 2, y, x, 2). |
| `Scenarios.PairStatistics` | src/test/java/com/leomaya/transaction/service/TransactionServiceTest.java:62-68 | Two transactions, the smaller amount first, report (sum, mean, larger, smaller, 2). |
| `Scenarios.ThirdBatchAmounts` | src/test/java/com/leomaya/transaction/service/TransactionServiceTest.java:116-122 | The reduction of 500, 1000, 1.99 and 2000, in that order, is (3501.99, 875.4975, 2000, 1.99, 4). |
| `Scenarios.ThirdBatchStatistics` | src/test/java/com/leomaya/transaction/service/TransactionServiceTest.java:109-124 | Transactions of amounts 500, 1000, 1.99 and 2000 report (3501.99, 875.4975, 2000, 1.99, 4). |
| `Scenarios.FirstBatchSweep` | src/test/java/com/leomaya/transaction/service/TransactionServiceTest.java:74-87 | The sweep after the pause empties the first batch's cache when strictly more than 1000 ms passed since creation, and leaves it unchanged at 1000 ms or less. |
| `Scenarios.SweepPair` | src/test/java/com/leomaya/transaction/service/TransactionServiceTest.java:106-107 | A sweep of a listing of two keeps both when neither is expired and drops both when both are. |
| `Scenarios.SweepFour` | src/test/java/com/leomaya/transaction/service/TransactionServiceTest.java:126-127 | A sweep of the four-row listing that keeps the first pair and drops the second leaves the first pair. |
| `Scenarios.CreatePair` | src/test/java/com/leomaya/transaction/service/TransactionServiceTest.java:59-60 | Two admitted creations append both rows to the listing, in order, and add both entries. |
| `Scenarios.FirstCheckpoint` | src/test/java/com/leomaya/transaction/service/TransactionServiceTest.java:58-72 | Ids 1 and 2, 59 s old, report (300, 150, 200, 100, 2). |
| `Scenarios.SecondCheckpoint` | src/test/java/com/leomaya/transaction/service/TransactionServiceTest.java:74-87 | The sweep after the pause empties the cache: all zeros. |
| `Scenarios.ThirdCheckpoint` | src/test/java/com/leomaya/transaction/service/TransactionServiceTest.java:89-104 | Ids 3 and 4, fresh, report (1500, 750, 1000, 500, 2). |
| `Scenarios.FourthCheckpoint` | src/test/java/com/leomaya/transaction/service/TransactionServiceTest.java:106-124 | A sweep keeps ids 3 and 4; with ids 5 and 6 (59 s old) the cache reports (3501.99, 875.4975, 2000, 1.99, 4). |
| `Scenarios.FifthCheckpoint` | src/test/java/com/leomaya/transaction/service/TransactionServiceTest.java:126-141 | The last sweep drops ids 5 and 6 and keeps 3 and 4: (1500, 750, 1000, 500, 2). |
| `Scenarios.StatisticsTestReplay` | src/test/java/com/leomaya/transaction/service/TransactionServiceTest.java:54-144 | Under the timing assumptions of the pauses, the five checkpoints of the test report exactly the values it asserts. |

## Left out

- **HTTP layer.** The controller only binds requests and serialises JSON.
- **Persistence.** `transactionRepository.save` inside `create` is a call into
  the store and is not part of this model. `Create` only returns its argument
  and attempts admission. A `save` that throws would skip admission
  (TransactionServiceImpl.java:37-38); the model has no failing `save`.
- **Store semantics.** The store is modelled as a sequence of rows with
  distinct ids (the primary key). The inclusive reading of the derived
  `findAllByTimestampBetween` query follows the repository test
  (src/test/java/com/leomaya/transaction/repository/TransactionRepositoryTest.java:33-41).
  The query derivation itself is not part of this model.
- **Warm-up failure.** Nothing in the code handles a failing warm-up query, so
  the model has no failure path for it either.
- **The clock.** `Instant.now()` becomes the parameter `now`. The sweep re-reads
  the clock for every entry; the model uses one `now` per sweep. The warm-up
  also reads the clock twice, once for each bound
  (TransactionServiceImpl.java:56-57); the model uses one `now` there too.
- **Concurrency.** The concurrent map, the `@Scheduled` one-second timer and the
  multithreaded test are out of scope. Operations are modelled as sequential
  calls.
- **Floating point.** IEEE doubles, the compensated summation of the statistics
  accumulator, and NaN or infinite amounts are not modelled. Amounts are exact
  reals, so 3501.99 / 4 is exactly 875.4975.
- **Integer width.** `Long` overflow of ids and timestamps is not modelled.
  Timestamps near the `Long` limits are out of scope.
- **Nulls.** Null ids, amounts and timestamps, and the id generation of the
  entity, are left out: every transaction has all three fields.
- **Logging.** The log line of the sweep is left out.
- **Traversal order.** The order in which `getStatistics` visits the cache's
  values is modelled as insertion order, kept in the field `values`. A hash map
  may visit them in another order. `StatisticsOrderFree` shows the statistics
  are the same for every listing of the cache.
- **Test timing.** `StatisticsTestReplay` takes the instants of creation and
  of each sweep as parameters, bounded the way the test's one-second pauses
  bound them. Each transaction is created at the instant its timestamp is taken.

## Findings

| source | as written | input that shows it | evidently intended | confidence | as-written member | corrected member |
|---|---|---|---|---|---|---|
| src/main/java/com/leomaya/transaction/service/impl/TransactionServiceImpl.java:58 | The warm-up calls `findAllByTimestampBetween(currentTimestamp, minuteAgoTimestamp)`, but the query is declared `(minuteAgoTimestamp, currentTimestamp)`. The range runs from now down to a minute ago, so it selects nothing, and the service (the unnamed constructor) starts with an empty cache. `WarmUpLosesCacheableRow` exhibits the lost rows. | A store holding `Transaction(1, 100.0, now)`: as written the warm-up cache is empty; intended, it holds id 1. | The rows with `now - 60000 <= timestamp <= now`, used by the constructor `WithCorrectedWarmUp`. | not executed | `TransactionService.WarmUpAsWritten` | `TransactionService.WarmUp` |
