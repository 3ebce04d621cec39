/**
 * The state of the item service as values: the store, the three caches,
 * a logical clock in seconds and a count of store reads. Each operation of
 * the service is a step function from a state to its result and the next
 * state; the class in module Service is proved to perform exactly these steps.
 */
module CacheModel {
  import opened Wrappers
  import opened Items
  import opened Store

  /** TTL of the entry `create` writes (write-through), in seconds. */
  const WriteThroughTtl: int := 60
  /** TTL of the entry `readOneManual` writes on a miss (cache-aside), in seconds. */
  const ManualTtl: int := 10
  /** The key of the `itemAllCache` memo: the method name `readAll`. */
  const ReadAllKey: string := "readAll"

  /** A value in the Redis value cache with the clock time at which it expires. */
  datatype Entry = Entry(value: ItemDto, expiry: int)

  datatype State = State(
    rows: seq<Item>,                          // the item table, in insertion order
    nextId: int,                              // identifier the store assigns on the next save
    cacheOps: map<int, Entry>,                // Redis value cache, key = item id
    itemCache: map<int, ItemDto>,             // @Cacheable "itemCache", key = the id argument
    itemAllCache: map<string, seq<ItemDto>>,  // @Cacheable "itemAllCache", key = method name
    now: int,                                 // logical clock, seconds
    storeReads: nat)                          // findById / findAll calls issued so far

  /** The result an operation returns together with the state it leaves. */
  datatype Step<T> = Step(result: T, post: State)

  /**
   * A service opened over an existing table `rows`, whose store assigns
   * `nextId` next, with empty caches, at clock time `start`.
   */
  function Init(rows: seq<Item>, nextId: int, start: int): State
  {
    State(rows, nextId, map[], map[], map[], start, 0)
  }

  /** `cacheOps.get(key)`: an entry is returned only while the clock is before its expiry. */
  function Lookup(cache: map<int, Entry>, key: int, now: int): Option<ItemDto>
  {
    if key in cache && now < cache[key].expiry then Some(cache[key].value) else None
  }

  /** `cacheOps.set(key, value, Duration.ofSeconds(ttl))`. */
  function Put(cache: map<int, Entry>, key: int, value: ItemDto, now: int, ttl: int): map<int, Entry>
  {
    cache[key := Entry(value, now + ttl)]
  }

  /** A value written under `key` is returned by a lookup `dt` seconds later exactly when `dt < ttl`. */
  lemma PutThenLookup(cache: map<int, Entry>, key: int, value: ItemDto, now: int, ttl: int, dt: nat)
    ensures Lookup(Put(cache, key, value, now, ttl), key, now + dt) ==
      if dt < ttl then Some(value) else None
  {
  }

  /** `d` is the DTO of the row the store holds under `id`. */
  ghost predicate Mirrors(rows: seq<Item>, id: int, d: ItemDto)
  {
    FindById(rows, id).Some? && d == FromEntity(FindById(rows, id).value)
  }

  /**
   * What every reachable state satisfies: identifiers are unique and fresh
   * ones lie at or above `nextId`; every value cached under an id, in either
   * single-item cache, is the DTO of the stored row with that id; the only
   * `itemAllCache` key is "readAll" and its list is a prefix of the list the
   * store maps to now (rows are only ever appended).
   */
  ghost predicate Inv(s: State)
  {
    && UniqueIds(s.rows)
    && IdsBelow(s.rows, s.nextId)
    && (forall id :: id in s.cacheOps ==> Mirrors(s.rows, id, s.cacheOps[id].value))
    && (forall id :: id in s.itemCache ==> Mirrors(s.rows, id, s.itemCache[id]))
    && (forall key :: key in s.itemAllCache ==>
          key == ReadAllKey && s.itemAllCache[key] <= FromEntities(s.rows))
  }

  /** `findById(id).map(ItemDto::fromEntity).orElseThrow(NOT_FOUND)` against the rows. */
  function LoadOne(rows: seq<Item>, id: int): (r: Result<ItemDto>)
    ensures r.Ok? <==> (exists k :: 0 <= k < |rows| && rows[k].id == id)
    ensures r.Ok? ==> Mirrors(rows, id, r.value) && r.value.id == id
  {
    match FindById(rows, id)
    case None => NotFound
    case Some(item) => Ok(FromEntity(item))
  }

  // ---------------------------------------------------------------------------
  // The four operations and the passing of time

  /** `create`: save the built row, then write its DTO through to `cacheOps` for 60 s. */
  function CreateStep(s: State, dto: ItemDto): Step<ItemDto>
  {
    var item := Build(dto, s.nextId);
    var created := FromEntity(item);
    Step(created, s.(rows := s.rows + [item], nextId := s.nextId + 1,
                     cacheOps := Put(s.cacheOps, created.id, created, s.now, WriteThroughTtl)))
  }

  /** `readAll` behind `@Cacheable(cacheNames = "itemAllCache", key = "#root.methodName")`. */
  function ReadAllStep(s: State): Step<seq<ItemDto>>
  {
    if ReadAllKey in s.itemAllCache then Step(s.itemAllCache[ReadAllKey], s)
    else
      var list := FromEntities(s.rows);
      Step(list, s.(storeReads := s.storeReads + 1,
                    itemAllCache := s.itemAllCache[ReadAllKey := list]))
  }

  /** `readOne` behind `@Cacheable(cacheNames = "itemCache", key = "#root.args[0]")`; a Not-Found is not memoised. */
  function ReadOneStep(s: State, id: int): Step<Result<ItemDto>>
  {
    if id in s.itemCache then Step(Ok(s.itemCache[id]), s)
    else
      var r := LoadOne(s.rows, id);
      var s1 := s.(storeReads := s.storeReads + 1);
      match r
      case NotFound => Step(r, s1)
      case Ok(d) => Step(r, s1.(itemCache := s.itemCache[id := d]))
  }

  /** `readOneManual`: GET id; on a miss load from the store, 404 if absent, else SET id for 10 s. */
  function ReadOneManualStep(s: State, id: int): Step<Result<ItemDto>>
  {
    match Lookup(s.cacheOps, id, s.now)
    case Some(found) => Step(Ok(found), s)
    case None =>
      var s1 := s.(storeReads := s.storeReads + 1);
      match FindById(s.rows, id)
      case None => Step(NotFound, s1)
      case Some(item) =>
        var found := FromEntity(item);
        Step(Ok(found), s1.(cacheOps := Put(s.cacheOps, id, found, s.now, ManualTtl)))
  }

  /** `dt` seconds pass; nothing else changes. */
  function Advance(s: State, dt: nat): State
  {
    s.(now := s.now + dt)
  }

  // ---------------------------------------------------------------------------
  // The invariant holds initially and every step keeps it

  /** Any table with unique ids below `nextId` and empty caches is a valid start. */
  lemma InitInv(rows: seq<Item>, nextId: int, start: int)
    requires UniqueIds(rows) && IdsBelow(rows, nextId)
    ensures Inv(Init(rows, nextId, start))
  {
  }

  /**
   * The invariant is needed for transparency: an entry left in `cacheOps`
   * for an id the table does not hold is still served by `readOneManual`.
   */
  lemma StaleEntryServed()
    ensures var d := ItemDto(5, "pen", "blue", 500, 10);
      var s := State([], 1, map[5 := Entry(d, 100)], map[], map[], 0, 0);
      && !Inv(s)
      && ReadOneManualStep(s, 5).result == Ok(d)
      && LoadOne(s.rows, 5) == NotFound
  {
  }

  lemma CreateKeepsInv(s: State, dto: ItemDto)
    requires Inv(s)
    ensures Inv(CreateStep(s, dto).post)
  {
    var item := Build(dto, s.nextId);
    var t := CreateStep(s, dto).post;
    SaveKeepsIds(s.rows, item, s.nextId);
    forall id | FindById(s.rows, id).Some?
      ensures FindById(t.rows, id) == FindById(s.rows, id)
    {
      FindByIdAppend(s.rows, item, id);
    }
    FromEntitiesPrefix(s.rows, t.rows);
  }

  lemma ReadAllKeepsInv(s: State)
    requires Inv(s)
    ensures Inv(ReadAllStep(s).post)
  {
  }

  lemma ReadOneKeepsInv(s: State, id: int)
    requires Inv(s)
    ensures Inv(ReadOneStep(s, id).post)
  {
  }

  lemma ReadOneManualKeepsInv(s: State, id: int)
    requires Inv(s)
    ensures Inv(ReadOneManualStep(s, id).post)
  {
  }

  lemma AdvanceKeepsInv(s: State, dt: nat)
    requires Inv(s)
    ensures Inv(Advance(s, dt))
  {
  }
}
