# ItemService cache-consistency model

A Dafny model of `ItemService`, the caching façade of a Spring/Redis demo
application in front of a JPA table of items. The service offers four
operations, each with its own cache policy:

- `create` saves a new item, then writes its DTO through to the Redis value
  cache `cacheOps` for 60 seconds before returning it.
- `readAll` maps the whole table to DTOs. It is memoised by `@Cacheable` in
  `itemAllCache` under the constant key `"readAll"`.
- `readOne(id)` looks up one item or fails with Not-Found (HTTP 404). It is
  memoised by `@Cacheable` in `itemCache` under the key `id`; a Not-Found is
  not memoised.
- `readOneManual(id)` is hand-written cache-aside. It does a GET on `cacheOps`.
  On a miss it queries the table: an absent id fails with Not-Found, a found
  item is SET in `cacheOps` for 10 seconds.

## Structure

- `wrappers.dfy` (`Wrappers`): `Option` and `Result` (`Ok` or `NotFound`).
- `items.dfy` (`Items`): `Item`, `ItemDto`, `FromEntity` (a field copy that
  keeps the id), the entity built by `create`, and the list mapping of `readAll`.
- `store.dfy` (`Store`): the table as rows in insertion order, with `FindById`.
  `findAll` is assumed to return the rows in that order (see "Left out").
- `cache_model.dfy` (`CacheModel`): the whole service state as a value
  (table, next id, the three caches, a logical clock in seconds, a count of
  store reads), one step function per operation, and the invariant `Inv` that
  every step keeps. Cache entries carry `expiry = now + ttl`; a GET hits only
  while `now < expiry`.
- `properties.dfy` (`Properties`): what each operation guarantees and how the
  policies interact over time.
- `service.dfy` (`Service`): the class `ItemService`. Its fields are updated
  in place, one repository or cache call at a time, in the order of the Java
  code. Each of the four operations and `Tick` is proved to perform exactly
  the matching step of `CacheModel` and to keep `Inv`; the collaborator
  methods (`Save`, `QueryById`, `QueryAll`, `CacheGet`, `CacheSet`) state
  what one repository or cache call does.

The store-read counter `storeReads` is not in the Java code. It counts calls
to `findById` and `findAll`, so that "a hit does not query the store" can be
stated.

A service starts over an existing table (unique ids, all below the next id
to be assigned) with empty caches. The invariant, proved for every state
reachable from such a start, is this:
- identifiers are unique and below the next one to be assigned;
- every DTO in `cacheOps` or `itemCache` is `FromEntity` of the stored row with that id;
- the `readAll` memo is a prefix of the current mapped table.

From it follows that both single-item caches are transparent: in every
reachable state, `readOne` and `readOneManual` return what a direct
`findById` would. `readAll` is not transparent: its memo is never
invalidated.

Two consequences of the code differ from what one might expect of a
write-through design. The model follows the code and proves both:
- `create` warms only `cacheOps`, not the separate `itemCache` memo. So a
  `readOne` right after `create` still queries the store
  (`Properties.CreateDoesNotWarmReadOne`); only `readOneManual` is served from
  the cache (`Properties.WriteThroughWarmsManual`).
- Once `"readAll"` is memoised, later `create`s are not reflected. The next
  `readAll` returns the old list, without the new item
  (`Properties.ReadAllStaleAfterCreate`).

## Model

| member | source | states |
|---|---|---|
| `Items.FromEntityLossless` | src/main/java/com/example/redis/ItemService.java:35 | the DTO conversion keeps the id and every field, so it is injective and converting back gives the item |
| `Items.FromEntity` | src/main/java/com/example/redis/ItemService.java:35 | definition, no contract: `ItemDto.fromEntity` as a field copy that keeps the id; `Items.FromEntityLossless` and `Items.FromEntitiesRoundTrip` are proved about it |
| `Items.Build` | src/main/java/com/example/redis/ItemService.java:29-34 | converting the saved entity gives the request's name, description, price and stock with the store-assigned id; the request's own id is ignored |
| `Items.FromEntities` | src/main/java/com/example/redis/ItemService.java:43-46 | the mapped list has the table's length and order, element `i` is `FromEntity` of row `i` |
| `Items.FromEntitiesRoundTrip` | src/main/java/com/example/redis/ItemService.java:43-46 | converting every element of the `readAll` list back gives the stored rows, with ids and fields |
| `Store.FindById` | src/main/java/com/example/redis/ItemService.java:67 | `findById` returns a stored row with that id, and nothing exactly when no row has it |
| `Store.FindByIdAt` | src/main/java/com/example/redis/ItemService.java:53 | with unique ids, `findById` of a row's id returns that row |
| `Store.SaveKeepsIds` | src/main/java/com/example/redis/ItemService.java:29 | saving under the next id keeps ids unique; the id was absent before and finds the new row after |
| `CacheModel.Init` | src/main/java/com/example/redis/ItemService.java:20-26 | definition, no contract: the start state, an existing table and next id with all three caches empty, the clock at `start` and no store reads; `CacheModel.InitInv` is proved about it |
| `CacheModel.Lookup` | src/main/java/com/example/redis/ItemService.java:63 | definition, no contract: `cacheOps.get(id)`, the entry's value while the clock is before its expiry, else absent; `CacheModel.PutThenLookup` is proved about it |
| `CacheModel.Put` | src/main/java/com/example/redis/ItemService.java:73 | definition, no contract: `cacheOps.set(id, value, ttl)` (here and at line 37), the entry with expiry `now + ttl` under the key; `CacheModel.PutThenLookup` is proved about it |
| `CacheModel.CreateStep` | src/main/java/com/example/redis/ItemService.java:28-39 | definition, no contract: save the built row under the next id, then SET its DTO for 60 s and return it; see `CacheModel.CreateKeepsInv`, `Properties.CreateSavesOne`, `Properties.CreateWritesThrough` |
| `CacheModel.ReadAllStep` | src/main/java/com/example/redis/ItemService.java:41-47 | definition, no contract: the `"readAll"` memo if present, else `findAll` mapped to DTOs and memoised; see `CacheModel.ReadAllKeepsInv`, `Properties.ReadAll*` |
| `CacheModel.ReadOneStep` | src/main/java/com/example/redis/ItemService.java:51-57 | definition, no contract: the `itemCache` memo if present, else `findById`, Not-Found not memoised, a found DTO memoised under `id`; see `CacheModel.ReadOneKeepsInv`, `Properties.ReadOne*` |
| `CacheModel.ReadOneManualStep` | src/main/java/com/example/redis/ItemService.java:59-76 | definition, no contract: GET; on a miss, `findById`; Not-Found before any SET, else SET for 10 s; see `CacheModel.ReadOneManualKeepsInv`, `Properties.Manual*` |
| `CacheModel.PutThenLookup` | src/main/java/com/example/redis/ItemService.java:73 | a value SET with a TTL is returned by a GET `dt` seconds later exactly when `dt < ttl` |
| `CacheModel.LoadOne` | src/main/java/com/example/redis/ItemService.java:53-56 | `findById(...).map(fromEntity).orElseThrow` is `Ok` exactly when some row has the id, and then it is that row's DTO |
| `CacheModel.InitInv` | src/main/java/com/example/redis/ItemService.java:20-26 | a service opened over any table with unique ids below the next id, with empty caches, satisfies the invariant |
| `CacheModel.StaleEntryServed` | src/main/java/com/example/redis/ItemService.java:63-65 | a `cacheOps` entry for an id the table lacks is still served by `readOneManual`, so transparency depends on the invariant |
| `CacheModel.CreateKeepsInv` | src/main/java/com/example/redis/ItemService.java:28-39 | `create` keeps the invariant: cached DTOs still mirror the store, and the `readAll` memo is still a prefix |
| `CacheModel.ReadAllKeepsInv` | src/main/java/com/example/redis/ItemService.java:41-47 | `readAll` keeps the invariant |
| `CacheModel.ReadOneKeepsInv` | src/main/java/com/example/redis/ItemService.java:51-57 | `readOne` keeps the invariant |
| `CacheModel.ReadOneManualKeepsInv` | src/main/java/com/example/redis/ItemService.java:59-76 | `readOneManual` keeps the invariant |
| `Properties.CreateSavesOne` | src/main/java/com/example/redis/ItemService.java:29-35 | `create` appends exactly one row, with the request's fields and a fresh id, and returns the DTO of that row, which `findById` now finds |
| `Properties.CreateWritesThrough` | src/main/java/com/example/redis/ItemService.java:37-38 | after `create` returns `d`, `cacheOps[d.id]` is `d` with expiry `now + 60` and a GET returns it; no other key of any cache changes |
| `Properties.ManualHit` | src/main/java/com/example/redis/ItemService.java:63-65 | a live hit returns the cached DTO; store, caches and read count are unchanged |
| `Properties.ManualMissFound` | src/main/java/com/example/redis/ItemService.java:65-76 | a miss on a stored id returns its DTO after one store read and sets `cacheOps[id]` to it with expiry `now + 10` |
| `Properties.ManualMissNotFound` | src/main/java/com/example/redis/ItemService.java:67-73 | a miss on an unknown id is Not-Found after one store read, and the cache is unchanged |
| `Properties.ManualTransparent` | src/main/java/com/example/redis/ItemService.java:59-76 | in every reachable state `readOneManual` answers what a direct lookup would; a success is `FromEntity` of the stored row with that id, and afterwards `cacheOps[id]` holds that value |
| `Properties.ReadOneHit` | src/main/java/com/example/redis/ItemService.java:51 | an `itemCache` hit returns the memo without a store read; nothing changes |
| `Properties.ReadOneMiss` | src/main/java/com/example/redis/ItemService.java:51-57 | a miss does one store read and returns the lookup; only an `Ok` is memoised under `id`; nothing else in the state changes |
| `Properties.ReadOneTransparent` | src/main/java/com/example/redis/ItemService.java:51-57 | in every reachable state `readOne` answers what a direct lookup would, with the requested id |
| `Properties.ReadAllMiss` | src/main/java/com/example/redis/ItemService.java:41-47 | a miss maps the whole table in order, memoises the list under `"readAll"`, and reads the store once; nothing else in the state changes |
| `Properties.ReadAllHit` | src/main/java/com/example/redis/ItemService.java:41 | a hit returns the memoised list without consulting the store |
| `Properties.ReadAllSnapshot` | src/main/java/com/example/redis/ItemService.java:41-47 | in every reachable state the result is the DTOs of the first rows of the table, in order |
| `Properties.WriteThroughWarmsManual` | src/main/java/com/example/redis/ItemService.java:37 | less than 60 s after `create`, `readOneManual` of the new id returns the created DTO without a store read |
| `Properties.WriteThroughExpires` | src/main/java/com/example/redis/ItemService.java:37 | 60 s or more after `create`, `readOneManual` misses, reads the store once, returns the created DTO and refills it for 10 s |
| `Properties.ManualEntryExpires` | src/main/java/com/example/redis/ItemService.java:73 | after a fill, calls within 10 s are served from the cache; later calls read the store again; a Not-Found is queried every time; the answer does not change |
| `Properties.NotFoundNeverCached` | src/main/java/com/example/redis/ItemService.java:55-70 | an id absent from the store is Not-Found on both read paths, and neither cache holds an entry for it afterwards |
| `Properties.CreateDoesNotWarmReadOne` | src/main/java/com/example/redis/ItemService.java:37-51 | after `create`, the next `readOne` of the new id returns the created DTO but reads the store, because `itemCache` is a separate memo |
| `Properties.ReadAllStaleAfterCreate` | src/main/java/com/example/redis/ItemService.java:28-47 | once `"readAll"` is memoised, a later `readAll` returns the same list, which lacks the item just created |
| `Properties.PenExample` | src/main/java/com/example/redis/ItemService.java:28-57 | on an empty store the first `create` gets id 1; `readOneManual(1)` is a hit; `readOne(1)` reads the store once |
| `Service.ItemService.constructor` | src/main/java/com/example/redis/ItemService.java:20-26 | a service over an existing table with unique ids below the next id starts with empty caches and satisfies the invariant |
| `Service.ItemService.Save` | src/main/java/com/example/redis/ItemService.java:29-34 | the built row is appended under the next id |
| `Service.ItemService.QueryById` | src/main/java/com/example/redis/ItemService.java:67 | returns `FindById` of the table and counts one store read |
| `Service.ItemService.QueryAll` | src/main/java/com/example/redis/ItemService.java:43 | returns the table in order and counts one store read |
| `Service.ItemService.CacheGet` | src/main/java/com/example/redis/ItemService.java:63 | returns the cached value only while the clock is before its expiry |
| `Service.ItemService.CacheSet` | src/main/java/com/example/redis/ItemService.java:73 | sets the entry with expiry `now + ttl`, leaving other keys alone |
| `Service.ItemService.Create` | src/main/java/com/example/redis/ItemService.java:28-39 | performs the `create` step and keeps the invariant; the result has the next id and is already in `cacheOps` when returned |
| `Service.ItemService.ReadAll` | src/main/java/com/example/redis/ItemService.java:41-47 | performs the memoised `readAll` step and keeps the invariant; the result is the DTOs of a prefix of the table |
| `Service.ItemService.ReadOne` | src/main/java/com/example/redis/ItemService.java:51-57 | performs the memoised `readOne` step and keeps the invariant; the result equals a direct lookup |
| `Service.ItemService.ReadOneManual` | src/main/java/com/example/redis/ItemService.java:59-76 | performs the cache-aside step and keeps the invariant; the result equals a direct lookup; a Not-Found leaves `cacheOps` unchanged |
| `Service.CreateThenRead` | src/main/java/com/example/redis/ItemService.java:28-76 | a caller that creates and reads back any `dt < 60` seconds later gets the created DTO on both paths, with exactly one store read in total |

## Left out

- Spring, Redis and JPA plumbing (`@Resource`, `ValueOperations`, `SlowDataQuery` and its artificial delay, `ItemRepository`). They are modelled as the maps and table above. `repository` and `itemRepository` are taken as two views of one table.
- Service.ItemService.constructor: the model assumes the caches start empty, hence consistent with the table. Redis and the table are external and may be out of step when the service starts (for example Redis survives while the table is recreated); an entry left over from before is served by `readOneManual` whatever the table holds (`CacheModel.StaleEntryServed`). The transparency lemmas hold only from a consistent start.
- Store: `findAll` is taken to return the rows in insertion (id) order, new rows last. A JPA `findAll()` without a `Sort` does not promise this. The prefix clause of `Inv`, the "first rows, in order" of `Properties.ReadAllSnapshot` and the second ensures of `Service.ItemService.ReadAll` rest on it.
- Real time and `Duration`. The clock is an integer number of seconds that only `Tick` advances. Expired `cacheOps` entries stay in the map; a GET ignores them, which matches Redis eviction for every lookup.
- TTL of the `@Cacheable` caches. Their configuration is not part of this model, so `itemCache` and `itemAllCache` entries never expire here.
- The mapping of Not-Found to `ResponseStatusException(HttpStatus.NOT_FOUND)`. It is the `NotFound` result.
- Concurrency. Each call is one atomic step, so the case of two simultaneous cold `readOneManual` calls (each may query the store) is not modelled. The sequential case, where the second call is a hit, follows from `Properties.ManualEntryExpires` with `dt = 0`.
- Persistence failures and an unavailable cache. The Java code handles neither: an exception from `save`, `get` or `set` simply propagates. The model's store and cache calls always succeed.
- The internals of `ItemDto.fromEntity` and `Item.builder`. Neither file is part of this model, so both are taken as field-by-field copies that keep the id. Field types are not part of it either: `price` and `stock` are unbounded integers.
- Id assignment is modelled as a counter that starts at the value the service is opened with. The store's own identity generator, and 64-bit `Long` overflow, are not modelled.
- The commented-out alternative body of `readOneManual` (lines 77-80).
