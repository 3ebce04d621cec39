/**
 * `ItemService` as an object: the store, the three caches, the clock and the
 * store-read count are fields that its methods update in place, one
 * repository or cache-store call at a time. Each of the four operations and
 * `Tick` is proved to perform the matching step of module CacheModel and to
 * keep its invariant; the collaborator methods state what one call does.
 */
module Service {
  import opened Wrappers
  import opened Items
  import opened Store
  import opened CacheModel
  import Properties

  class ItemService {
    var rows: seq<Item>
    var nextId: int
    var cacheOps: map<int, Entry>
    var itemCache: map<int, ItemDto>
    var itemAllCache: map<string, seq<ItemDto>>
    var now: int
    var storeReads: nat

    /** The fields as a CacheModel state. */
    function Abs(): State
      reads this
    {
      State(rows, nextId, cacheOps, itemCache, itemAllCache, now, storeReads)
    }

    ghost predicate Valid()
      reads this
    {
      Inv(Abs())
    }

    /**
     * A service over an existing table whose ids are unique and below the
     * next id its store assigns, with empty caches, its clock at `start`.
     */
    constructor (table: seq<Item>, next: int, start: int)
      requires UniqueIds(table) && IdsBelow(table, next)
      ensures Valid() && Abs() == Init(table, next, start)
    {
      rows, nextId := table, next;
      cacheOps, itemCache, itemAllCache := map[], map[], map[];
      now, storeReads := start, 0;
      InitInv(table, next, start);
    }

    // -------------------------------------------------------------------------
    // The collaborators, one call each

    /** `itemRepository.save(Item.builder()...build())`: the store assigns the next id. */
    method Save(dto: ItemDto) returns (item: Item)
      modifies this`rows, this`nextId
      ensures item == Build(dto, old(nextId))
      ensures rows == old(rows) + [item] && nextId == old(nextId) + 1
    {
      item := Build(dto, nextId);
      rows := rows + [item];
      nextId := nextId + 1;
    }

    /** `repository.findById(id)`, counted as one store read. */
    method QueryById(id: int) returns (r: Option<Item>)
      modifies this`storeReads
      ensures r == FindById(rows, id) && storeReads == old(storeReads) + 1
    {
      r := FindById(rows, id);
      storeReads := storeReads + 1;
    }

    /** `repository.findAll()`, counted as one store read. */
    method QueryAll() returns (items: seq<Item>)
      modifies this`storeReads
      ensures items == rows && storeReads == old(storeReads) + 1
    {
      items := rows;
      storeReads := storeReads + 1;
    }

    /** `cacheOps.get(key)`: absent once the entry's expiry is reached. */
    method CacheGet(key: int) returns (r: Option<ItemDto>)
      ensures r == Lookup(cacheOps, key, now)
      ensures r.Some? ==> key in cacheOps && now < cacheOps[key].expiry && r.value == cacheOps[key].value
    {
      if key in cacheOps && now < cacheOps[key].expiry {
        r := Some(cacheOps[key].value);
      } else {
        r := None;
      }
    }

    /** `cacheOps.set(key, value, Duration.ofSeconds(ttl))`. */
    method CacheSet(key: int, value: ItemDto, ttl: int)
      modifies this`cacheOps
      ensures cacheOps == Put(old(cacheOps), key, value, now, ttl)
    {
      cacheOps := cacheOps[key := Entry(value, now + ttl)];
    }

    // -------------------------------------------------------------------------
    // The service's operations

    /** `create`: save, convert, write through for 60 s, then return. */
    method Create(dto: ItemDto) returns (created: ItemDto)
      requires Valid()
      modifies this
      ensures Valid()
      ensures Step(created, Abs()) == CreateStep(old(Abs()), dto)
      ensures created.id == old(nextId) && Lookup(cacheOps, created.id, now) == Some(created)
    {
      CreateKeepsInv(Abs(), dto);
      var item := Save(dto);
      var newDto := FromEntity(item);
      CacheSet(newDto.id, newDto, WriteThroughTtl);
      created := newDto;
    }

    /** `readAll` with its `itemAllCache` memo under the key "readAll". */
    method ReadAll() returns (list: seq<ItemDto>)
      requires Valid()
      modifies this
      ensures Valid()
      ensures Step(list, Abs()) == ReadAllStep(old(Abs()))
      ensures |list| <= |rows| && forall i :: 0 <= i < |list| ==> list[i] == FromEntity(rows[i])
    {
      Properties.ReadAllSnapshot(Abs());
      ReadAllKeepsInv(Abs());
      if ReadAllKey in itemAllCache {
        list := itemAllCache[ReadAllKey];
        return;
      }
      var items := QueryAll();
      list := FromEntities(items);
      itemAllCache := itemAllCache[ReadAllKey := list];
    }

    /** `readOne` with its `itemCache` memo keyed by `id`; a Not-Found is not memoised. */
    method ReadOne(id: int) returns (r: Result<ItemDto>)
      requires Valid()
      modifies this
      ensures Valid()
      ensures Step(r, Abs()) == ReadOneStep(old(Abs()), id)
      ensures r == LoadOne(rows, id)
    {
      Properties.ReadOneTransparent(Abs(), id);
      ReadOneKeepsInv(Abs(), id);
      if id in itemCache {
        r := Ok(itemCache[id]);
        return;
      }
      var row := QueryById(id);
      match row
      case None =>
        r := NotFound;
      case Some(item) =>
        r := Ok(FromEntity(item));
        itemCache := itemCache[id := r.value];
    }

    /** `readOneManual`: cache-aside with a 10 s fill; Not-Found is raised before any cache write. */
    method ReadOneManual(id: int) returns (r: Result<ItemDto>)
      requires Valid()
      modifies this
      ensures Valid()
      ensures Step(r, Abs()) == ReadOneManualStep(old(Abs()), id)
      ensures r == LoadOne(rows, id)
      ensures r.NotFound? ==> cacheOps == old(cacheOps)
    {
      Properties.ManualTransparent(Abs(), id);
      ReadOneManualKeepsInv(Abs(), id);
      var found := CacheGet(id);
      if found.None? {
        var row := QueryById(id);
        if row.None? {
          r := NotFound;
          return;
        }
        found := Some(FromEntity(row.value));
        CacheSet(id, found.value, ManualTtl);
      }
      r := Ok(found.value);
    }

    /** The clock moves on by `dt` seconds. */
    method Tick(dt: nat)
      requires Valid()
      modifies this`now
      ensures Valid()
      ensures Abs() == Advance(old(Abs()), dt)
    {
      AdvanceKeepsInv(Abs(), dt);
      now := now + dt;
    }
  }

  /** Create, wait `dt` seconds, then read the new item back on both paths: both answer the created DTO. */
  method CreateThenRead(svc: ItemService, dto: ItemDto, dt: nat) returns (a: Result<ItemDto>, b: Result<ItemDto>)
    requires svc.Valid() && dt < 60
    modifies svc
    ensures svc.Valid()
    ensures a == b == Ok(FromEntity(Build(dto, old(svc.nextId))))
    ensures svc.storeReads == old(svc.storeReads) + 1
  {
    var created := svc.Create(dto);
    svc.Tick(dt);
    a := svc.ReadOneManual(created.id);
    b := svc.ReadOne(created.id);
    Properties.CreateSavesOne(old(svc.Abs()), dto);
  }
}
