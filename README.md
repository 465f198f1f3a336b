# Account cache with least-recently-used eviction

This project models the in-memory account cache of `aurora` and proves properties of it. The cache has three parts:

- **`Account`**: a record with a `long` id and a `long` balance. Its `compareTo` orders accounts from the highest balance to the lowest.
- **`LRUCache`**: a map kept in access order, with a fixed capacity.
  - A successful `get` moves its key to the most recent end and counts one hit.
  - A `put` moves its key to the most recent end.
  - A `put` that adds a key beyond the capacity evicts the least recently touched entry (`removeEldestEntry`).
- **`AccountCacheImpl`**: stores accounts under their own ids in an `LRUCache` and offers four operations:
  - point lookup;
  - upsert;
  - the three accounts with the highest balances (`values().stream().sorted().limit(3)`);
  - the hit count.

The model is arranged in layers:

- **`Accounts`**: the account record and its comparator (`account.dfy`).
- **`LruCaches`**: the cache state, in `lru_cache.dfy`.
  - `CacheState` is the abstract state: the mappings, the recency order (eldest first), the capacity and the hit counter. `Inv` is its invariant.
  - `Lookup` and `Store` say what `get` and `put` do to that state. Lemmas spell out which entry a `put` evicts in each case.
  - The class `LRUCache` keeps the same four things in fields and updates them in place. Its `Get` and `Put` methods are proved to follow `Lookup` and `Store`.
- **`Ranking`**: the ranking query, in `ranking.dfy`.
  - The stable sort is an insertion sort under `CompareTo`.
  - The cut keeps the first three.
  - The lemmas say the result is sorted, comes from the input, and leaves out nothing ranked higher.
- **`AccountCaches`**: the facade, in `account_cache.dfy`.
  - `StoreAccount`, `FindAccount` and `Top3AccountsByBalance` are the facade's operations on the state. Every stored account sits under its own id.
  - The class `AccountCacheImpl` wraps one `LRUCache` and is proved to follow these operations.
- **`CacheScenarios`**: the unit tests' scenarios as lemmas over those operations (`scenarios.dfy`). Balances are left symbolic, constrained only by the order the tests give them.
- **`Seqs`** and **`Options`**: sequence facts and the optional result that stands for Java's `null` (`seqs.dfy`, `options.dfy`).

## Model

| member | source | states |
|---|---|---|
| Accounts.NewAccount | src/main/java/Account.java:7-10 | the two `int` arguments are widened unchanged into the id and balance |
| Accounts.Account.SetId | src/main/java/Account.java:16-18 | the record changes in its id only; the balance is kept |
| Accounts.Account.SetBalance | src/main/java/Account.java:24-26 | the record changes in its balance only; the id is kept |
| Accounts.LongCompare | src/main/java/Account.java:30 | `Long.compare` is negative, zero or positive exactly when the first argument is below, equal to or above the second |
| Accounts.CompareTo | src/main/java/Account.java:28-31 | negative exactly when this balance is higher, zero exactly when equal, positive exactly when lower; ids play no part |
| Accounts.CompareToAntisymmetric | src/main/java/Account.java:28-31 | swapping the arguments negates the comparison |
| Accounts.CompareToTransitive | src/main/java/Account.java:28-31 | the comparator is transitive |
| Seqs.Touch | src/main/java/LRUCache.java:11-14 | moving a key to the most recent end keeps the same keys, each once, and puts that key last |
| Seqs.TouchKeepsOthersInOrder | src/main/java/LRUCache.java:11-14 | moving a key to the most recent end keeps every other pair of keys in their relative order |
| LruCaches.Empty | src/main/java/LRUCache.java:11-14 | a new cache has the given capacity, no mappings and no hits, and satisfies the invariant |
| LruCaches.Lookup | src/main/java/LRUCache.java:37-44 | a hit returns the stored value, counts once more and makes the key the most recent, keeping every mapping; a miss returns nothing and changes nothing; the invariant is kept |
| LruCaches.Store | src/main/java/LRUCache.java:5-20 | `put` returns the value it replaced (none for a new key), keeps capacity, hit count and invariant (keys are exactly the order's keys, each once, at most `capacity` of them) |
| LruCaches.StoreKeepsValue | src/main/java/LRUCache.java:5-20 | with positive capacity, after `put(k, v)` the key `k` maps to `v` and is the most recent |
| LruCaches.StoreChangesOnlyKey | src/main/java/LRUCache.java:5-20 | `put(k, v)` adds no other key and changes no other key's value |
| LruCaches.StoreResident | src/main/java/LRUCache.java:5-20 | updating a resident key replaces its value, makes it the most recent and evicts nothing |
| LruCaches.StoreBelowCapacity | src/main/java/LRUCache.java:17-20 | a new key with room to spare is appended as the most recent and nothing is evicted |
| LruCaches.StoreAtCapacity | src/main/java/LRUCache.java:17-20 | a new key in a full cache evicts exactly the least recently touched mapping |
| LruCaches.StoreZeroCapacity | src/main/java/LRUCache.java:17-20 | with capacity 0 the inserted mapping is itself the eldest and is evicted at once: the state is unchanged |
| LruCaches.LinkedValues | src/main/java/AccountCacheImpl.java:48 | `values()` yields one value per resident key, position by position in recency order |
| LruCaches.LinkedValuesAreStored | src/main/java/AccountCacheImpl.java:48 | the values enumerated are exactly the stored values |
| LruCaches.StoreThenLookup | src/main/java/LRUCache.java:37-44 | after `put(k, v)` with positive capacity, `get(k)` returns `v` and the hit count goes up by one |
| LruCaches.LookupEldestShiftsEviction | src/main/java/LRUCache.java:11-14 | reading the eldest key makes it the most recent and makes the next key the eviction candidate |
| LruCaches.TouchKeepsEvictionOrder | src/main/java/LRUCache.java:11-14 | a `get` hit or a `put` of a resident key leaves the other keys in their eviction order: of two such keys the less recently touched is still evicted first |
| LruCaches.LRUCache.constructor | src/main/java/LRUCache.java:11-14 | the fields hold an empty cache of the given capacity |
| LruCaches.LRUCache.Get | src/main/java/LRUCache.java:37-44 | the value returned and the new fields are those of `Lookup` on the old fields; the invariant is kept |
| LruCaches.LRUCache.Put | src/main/java/LRUCache.java:17-20 | the previous value returned and the new fields are those of `Store` on the old fields, with eviction decided by `RemoveEldestEntry`; the invariant is kept |
| LruCaches.LRUCache.RemoveEldestEntry | src/main/java/LRUCache.java:17-20 | the eldest mapping goes when the size after inserting a new key exceeds the capacity |
| LruCaches.LRUCache.EvictsOnlyWhenFull | src/main/java/LRUCache.java:17-20 | for a valid cache, the size after inserting a new key exceeds the capacity exactly when the cache was already full |
| LruCaches.LRUCache.Values | src/main/java/AccountCacheImpl.java:48 | the values read from the fields are `LinkedValues` of the current state |
| LruCaches.LRUCache.GetCountGetByIdHit | src/main/java/LRUCache.java:27-29 | returns the hit counter and changes nothing |
| Ranking.Insert | src/main/java/AccountCacheImpl.java:50 | inserting into a sorted sequence gives a sorted sequence one longer with the same accounts plus the new one |
| Ranking.Sort | src/main/java/AccountCacheImpl.java:50 | `sorted()` returns a permutation of its input with non-increasing balances |
| Ranking.Top3 | src/main/java/AccountCacheImpl.java:48-52 | the ranking has `min(3, n)` accounts in non-increasing balance order |
| Ranking.TopSelectsHighest | src/main/java/AccountCacheImpl.java:48-52 | the ranking is a sub-multiset of the input, and no account left out has a higher balance than a ranked one |
| Ranking.TopFromInput | src/main/java/AccountCacheImpl.java:48-52 | every ranked account comes from the input |
| Ranking.TopDistinct | src/main/java/AccountCacheImpl.java:48-52 | ranking distinct accounts lists none twice |
| Ranking.InsertLowest | src/main/java/AccountCacheImpl.java:50 | an account below every balance of a sorted sequence is inserted at its end |
| Ranking.SortSorted | src/main/java/AccountCacheImpl.java:50 | sorting accounts already in non-increasing balance order returns them unchanged, ties in their order |
| Ranking.SortAscending | src/main/java/AccountCacheImpl.java:50 | sorting strictly ascending balances reverses the sequence |
| Ranking.TopOfAscending | src/main/java/AccountCacheImpl.java:48-52 | for strictly ascending balances the i-th ranked account is the i-th from the end |
| Ranking.SortedSameBalances | src/main/java/AccountCacheImpl.java:50 | two sorted arrangements of the same accounts have the same balance at every position |
| Ranking.TopBalancesIgnoreOrder | src/main/java/AccountCacheImpl.java:48-52 | the ranked balances depend only on which accounts are resident, not on their recency order |
| Ranking.TopOfArrangement | src/main/java/AccountCacheImpl.java:48-52 | the ranked balances are the first `min(3, n)` balances of any sorted arrangement of the input |
| AccountCaches.StoreAccount | src/main/java/AccountCacheImpl.java:71-85 | `putAccount` stores under the account's own id and keeps the cache invariant with every account under its own id |
| AccountCaches.FindAccount | src/main/java/AccountCacheImpl.java:26-34 | an account is found exactly when its id is resident; the one found has that id and is the account stored under it |
| AccountCaches.Top3AccountsByBalance | src/main/java/AccountCacheImpl.java:41-59 | `min(3, size)` accounts, highest balance first, each the account stored under its own id |
| AccountCaches.RankingOfResidents | src/main/java/AccountCacheImpl.java:41-59 | the ranked accounts are resident under their ids, none is listed twice, and no resident left out has a higher balance than a ranked one |
| AccountCaches.AccountCacheImpl.constructor | src/main/java/AccountCacheImpl.java:18-20 | a fresh empty cache of the given capacity |
| AccountCaches.AccountCacheImpl.GetAccountById | src/main/java/AccountCacheImpl.java:26-34 | result and new cache state are those of `FindAccount` on the old state |
| AccountCaches.AccountCacheImpl.PutAccount | src/main/java/AccountCacheImpl.java:71-85 | the new cache state is `StoreAccount` of the old one |
| AccountCaches.AccountCacheImpl.GetTop3AccountsByBalance | src/main/java/AccountCacheImpl.java:41-59 | returns `Top3AccountsByBalance` of the state: resident, distinct accounts that no resident left out outranks; changes nothing |
| AccountCaches.AccountCacheImpl.GetAccountByIdHitCount | src/main/java/AccountCacheImpl.java:61-69 | returns the number of successful lookups so far and changes nothing |
| CacheScenarios.PutTwo | src/test/java/AccountCacheImplTest.java:41-51 | two puts of distinct ids into an empty cache with room leave both, eldest first, with no hits |
| CacheScenarios.GetEldestOfTwo | src/test/java/AccountCacheImplTest.java:77-96 | reading the eldest of two makes it the most recent and counts a hit |
| CacheScenarios.UpdateEldestOfTwo | src/test/java/AccountCacheImplTest.java:98-116 | updating the eldest of two replaces its record and makes it the most recent |
| CacheScenarios.EvictEldestOfTwo | src/test/java/AccountCacheImplTest.java:77-116 | a third id in a full cache of two evicts the eldest |
| CacheScenarios.RankTwoResidents | src/test/java/AccountCacheImplTest.java:77-116 | two residents rank higher balance first, in either recency order |
| CacheScenarios.RankLowerEldest | src/test/java/AccountCacheImplTest.java:77-116 | two residents rank higher balance first when the lower balance is the eldest |
| CacheScenarios.RankHigherEldest | src/test/java/AccountCacheImplTest.java:77-116 | two residents rank higher balance first when the higher balance is the eldest |
| CacheScenarios.PutAllWithinCapacity | src/test/java/AccountCacheImplTest.java:53-75 | puts of new distinct ids within the capacity evict nothing and enumerate after the residents, in put order |
| CacheScenarios.PutAllFromEmpty | src/test/java/AccountCacheImplTest.java:53-75 | puts of distinct ids into an empty cache with room are enumerated exactly as put |
| CacheScenarios.RankAscendingPuts | src/test/java/AccountCacheImplTest.java:53-75 | after putting ascending balances into an empty cache with room, the i-th ranked account is the i-th from the last put |
| CacheScenarios.GetAfterPut | src/test/java/AccountCacheImplTest.java:27-34 | an account put into a cache of five is found by its id |
| CacheScenarios.GetAbsent | src/test/java/AccountCacheImplTest.java:36-39 | an id never put is not found and counts no hit |
| CacheScenarios.RankFewerThanThree | src/test/java/AccountCacheImplTest.java:41-51 | with two accounts resident the ranking has two entries |
| CacheScenarios.RankMoreThanThree | src/test/java/AccountCacheImplTest.java:53-75 | with five ascending balances resident the ranking has three entries: the highest, second and third highest balances |
| CacheScenarios.QueryProtectsFromEviction | src/test/java/AccountCacheImplTest.java:77-96 | in a cache of two, reading account 1 before putting account 4 evicts account 2, so the ranking is 4 then 1 |
| CacheScenarios.UpdateProtectsFromEviction | src/test/java/AccountCacheImplTest.java:98-116 | in a cache of two, updating account 1 before putting account 4 evicts account 2, so the ranking is 4 then the updated 1 |
| CacheScenarios.RankEmpty | src/test/java/AccountCacheImplTest.java:118-121 | an empty cache ranks nothing |
| CacheScenarios.HitCount | src/test/java/AccountCacheImplTest.java:123-145 | a put counts no hit; a lookup of the stored id then counts exactly one |
| CacheScenarios.PutThenGet | src/test/java/AccountCacheImplTest.java:27-34 | through the class: after `PutAccount`, `GetAccountById` of the same id returns that account and adds one hit, for any cache of positive capacity |

## Left out

- The read/write lock around every facade operation is left out, and so is concurrency in general. Each operation is modelled as one atomic step. `getAccountById` and `getAccountByIdHitCount` run under the read lock, yet `get` reorders the access-ordered map and increments the counter. Racing readers can therefore corrupt the order or lose hits, and the model does not capture this.
- The five-second `Thread.sleep` in `getTop3AccountsByBalance` and `putAccount`, and the `RuntimeException` that wraps an interruption of it, are left out: they involve timing and thread interruption, which the model does not have.
- Logging is left out: it has no effect on the state.
- `subscribeForAccountUpdates` is left out: it only passes `null` to a caller-supplied listener, which is foreign code.
- `getLruCache` is left out: it hands out the inner map, and callers could then mutate it outside the facade.
- Hashing, bucket layout and the load factor of `LinkedHashMap` are left out: they do not affect observable behaviour. The map is an abstract `map` plus a recency sequence.
- `Account` is a value in the model. In Java the cache stores a reference, so a caller's `setBalance` on a stored account changes the cached record. Aliasing is not modelled.
- `LruCaches.LRUCache.GetCountGetByIdHit`: the counter is a `nat`, so Java's 32-bit `int` wrap-around after 2^31 - 1 hits is not modelled.
- `LruCaches.LRUCache.constructor`: the capacity is a `nat`, so the exception `LinkedHashMap` throws for a negative initial capacity is not modelled.
- `null` keys and values are left out. The facade never stores `null` (`account.getId()` would throw first), so `None` stands only for "not found".
- `AccountCaches.AccountCacheImpl.PutAccount` discards the previous value that `put` returns, as the source does. `LRUCache.Put` still returns it.
- `Ranking.Sort`: stability is built into the definition (an account is inserted ahead of equal balances, so equal accounts keep their input order). Beyond `Ranking.SortSorted` (an already sorted input comes back unchanged), it is not stated as a separate property.
- The test scenarios leave balances symbolic and keep only the order the tests give them, so each lemma covers the tests' concrete values among others. The multi-threaded lock tests (from line 152 on) and their log capture are not modelled: they exercise the locks and the sleeps.
