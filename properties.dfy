/**
 * What each operation of the item service guarantees, and how the three
 * cache policies (write-through, declarative read-through, manual
 * cache-aside) interact over time.
 */
module Properties {
  import opened Wrappers
  import opened Items
  import opened Store
  import opened CacheModel

  // ---------------------------------------------------------------------------
  // create

  /** `create` appends exactly one row, built from the request, under a fresh id, and returns its DTO. */
  lemma CreateSavesOne(s: State, dto: ItemDto)
    requires Inv(s)
    ensures var t := CreateStep(s, dto).post;
      |t.rows| == |s.rows| + 1 && t.rows[..|s.rows|] == s.rows && t.nextId == s.nextId + 1
    ensures var out := CreateStep(s, dto); var item := out.post.rows[|s.rows|];
      && item.name == dto.name && item.description == dto.description
      && item.price == dto.price && item.stock == dto.stock
      && FindById(s.rows, item.id) == None
      && out.result == FromEntity(item)
      && FindById(out.post.rows, out.result.id) == Some(item)
    ensures CreateStep(s, dto).post.storeReads == s.storeReads
  {
    var item := Build(dto, s.nextId);
    assert (s.rows + [item])[..|s.rows|] == s.rows;
    SaveKeepsIds(s.rows, item, s.nextId);
  }

  /**
   * After `create` returns `d`, `cacheOps` holds `d` under `d.id` until
   * 60 seconds from now, a GET at once returns it, and no other cache key changes.
   */
  lemma CreateWritesThrough(s: State, dto: ItemDto)
    ensures var out := CreateStep(s, dto); var d := out.result;
      && d.id in out.post.cacheOps
      && out.post.cacheOps[d.id] == Entry(d, s.now + 60)
      && Lookup(out.post.cacheOps, d.id, out.post.now) == Some(d)
    ensures var out := CreateStep(s, dto);
      forall k :: k != out.result.id ==>
        (k in out.post.cacheOps <==> k in s.cacheOps) &&
        (k in s.cacheOps ==> out.post.cacheOps[k] == s.cacheOps[k])
    ensures var t := CreateStep(s, dto).post;
      t.itemCache == s.itemCache && t.itemAllCache == s.itemAllCache && t.now == s.now
  {
  }

  // ---------------------------------------------------------------------------
  // readOneManual

  /** A live cache hit returns the cached DTO without a store query; nothing changes. */
  lemma ManualHit(s: State, id: int)
    requires Lookup(s.cacheOps, id, s.now).Some?
    ensures ReadOneManualStep(s, id) == Step(Ok(s.cacheOps[id].value), s)
  {
  }

  /** A miss on a stored id returns its DTO and writes it under `id` for 10 seconds. */
  lemma ManualMissFound(s: State, id: int)
    requires Lookup(s.cacheOps, id, s.now).None?
    requires FindById(s.rows, id).Some?
    ensures var d := FromEntity(FindById(s.rows, id).value);
      ReadOneManualStep(s, id) ==
        Step(Ok(d), s.(storeReads := s.storeReads + 1,
                       cacheOps := s.cacheOps[id := Entry(d, s.now + 10)]))
  {
  }

  /** A miss on an unknown id is Not-Found after one store query, and the cache is untouched. */
  lemma ManualMissNotFound(s: State, id: int)
    requires Lookup(s.cacheOps, id, s.now).None?
    requires FindById(s.rows, id).None?
    ensures ReadOneManualStep(s, id) == Step(NotFound, s.(storeReads := s.storeReads + 1))
  {
  }

  /**
   * In every reachable state the manual cache is transparent: it answers what
   * the store would, so a success is the DTO of the stored row with that id,
   * and afterwards the cache holds an entry for `id` equal to it.
   */
  lemma ManualTransparent(s: State, id: int)
    requires Inv(s)
    ensures ReadOneManualStep(s, id).result == LoadOne(s.rows, id)
    ensures ReadOneManualStep(s, id).post.rows == s.rows
    ensures var out := ReadOneManualStep(s, id);
      out.result.Ok? ==>
        && Mirrors(s.rows, id, out.result.value)
        && id in out.post.cacheOps && out.post.cacheOps[id].value == out.result.value
  {
  }

  // ---------------------------------------------------------------------------
  // readOne

  /** An `itemCache` hit returns the memo without a store query; nothing changes. */
  lemma ReadOneHit(s: State, id: int)
    requires id in s.itemCache
    ensures ReadOneStep(s, id) == Step(Ok(s.itemCache[id]), s)
  {
  }

  /** On a miss `readOne` queries the store once; only a found DTO is memoised. */
  lemma ReadOneMiss(s: State, id: int)
    requires id !in s.itemCache
    ensures var out := ReadOneStep(s, id);
      && out.result == LoadOne(s.rows, id)
      && out.post == s.(storeReads := s.storeReads + 1,
                        itemCache := if out.result.Ok? then s.itemCache[id := out.result.value]
                                     else s.itemCache)
  {
  }

  /** In every reachable state the `itemCache` memo answers what the store would. */
  lemma ReadOneTransparent(s: State, id: int)
    requires Inv(s)
    ensures ReadOneStep(s, id).result == LoadOne(s.rows, id)
    ensures ReadOneStep(s, id).result.Ok? ==> ReadOneStep(s, id).result.value.id == id
  {
  }

  // ---------------------------------------------------------------------------
  // readAll

  /** On a miss `readAll` maps the whole store in order and memoises the list under "readAll". */
  lemma ReadAllMiss(s: State)
    requires ReadAllKey !in s.itemAllCache
    ensures var out := ReadAllStep(s);
      && |out.result| == |s.rows|
      && (forall i :: 0 <= i < |s.rows| ==> out.result[i] == FromEntity(s.rows[i]))
      && out.post == s.(storeReads := s.storeReads + 1,
                        itemAllCache := s.itemAllCache[ReadAllKey := out.result])
  {
  }

  /** On a hit the memoised list is returned without consulting the store. */
  lemma ReadAllHit(s: State)
    requires ReadAllKey in s.itemAllCache
    ensures ReadAllStep(s) == Step(s.itemAllCache[ReadAllKey], s)
  {
  }

  /**
   * Whatever `readAll` returns in a reachable state is the DTO list of the
   * first rows of the store, in order: current or missing only rows saved later.
   */
  lemma ReadAllSnapshot(s: State)
    requires Inv(s)
    ensures var r := ReadAllStep(s).result;
      |r| <= |s.rows| && forall i :: 0 <= i < |r| ==> r[i] == FromEntity(s.rows[i])
  {
  }

  // ---------------------------------------------------------------------------
  // Interplay over time

  /** Within 60 s of `create`, `readOneManual` of the new id is served from the cache. */
  lemma WriteThroughWarmsManual(s: State, dto: ItemDto, dt: nat)
    requires dt < 60
    ensures var c := CreateStep(s, dto); var later := Advance(c.post, dt);
      ReadOneManualStep(later, c.result.id) == Step(Ok(c.result), later)
  {
  }

  /** From 60 s after `create` on, `readOneManual` misses, queries the store, and refills for 10 s. */
  lemma WriteThroughExpires(s: State, dto: ItemDto, dt: nat)
    requires Inv(s)
    requires dt >= 60
    ensures var c := CreateStep(s, dto); var later := Advance(c.post, dt);
      var r := ReadOneManualStep(later, c.result.id);
      && r.result == Ok(c.result)
      && r.post.storeReads == s.storeReads + 1
      && r.post.cacheOps[c.result.id] == Entry(c.result, s.now + dt + 10)
  {
    CreateSavesOne(s, dto);
  }

  /**
   * A value filled by `readOneManual` serves later calls for under 10 s;
   * from 10 s on the next call queries the store again; a Not-Found is never
   * cached, so it is queried again at once; the answer stays the same.
   */
  lemma ManualEntryExpires(s: State, id: int, dt: nat)
    requires Inv(s)
    requires Lookup(s.cacheOps, id, s.now).None?
    ensures var r1 := ReadOneManualStep(s, id);
      var r2 := ReadOneManualStep(Advance(r1.post, dt), id);
      && r2.result == r1.result
      && r2.post.storeReads == r1.post.storeReads + (if dt < 10 && r1.result.Ok? then 0 else 1)
  {
    var r1 := ReadOneManualStep(s, id);
    ReadOneManualKeepsInv(s, id);
    AdvanceKeepsInv(r1.post, dt);
    ManualTransparent(Advance(r1.post, dt), id);
    if r1.result.NotFound? {
      ManualMissNotFound(Advance(r1.post, dt), id);
    }
  }

  /** An id the store does not hold is Not-Found on both read paths and leaves no cache entry. */
  lemma NotFoundNeverCached(s: State, id: int)
    requires Inv(s)
    requires FindById(s.rows, id).None?
    ensures ReadOneStep(s, id).result == NotFound
    ensures ReadOneManualStep(s, id).result == NotFound
    ensures id !in ReadOneStep(s, id).post.itemCache
    ensures id !in ReadOneManualStep(s, id).post.cacheOps
  {
  }

  /**
   * `create` does not warm `itemCache`: the next `readOne` of the new id
   * queries the store (and then answers the created DTO).
   */
  lemma CreateDoesNotWarmReadOne(s: State, dto: ItemDto)
    requires Inv(s)
    ensures var c := CreateStep(s, dto); var r := ReadOneStep(c.post, c.result.id);
      r.result == Ok(c.result) && r.post.storeReads == s.storeReads + 1
  {
    CreateSavesOne(s, dto);
    assert CreateStep(s, dto).result.id !in s.itemCache;
  }

  /**
   * Once "readAll" is memoised, a `create` is not reflected: the next
   * `readAll` returns the same list, which lacks the created DTO.
   */
  lemma ReadAllStaleAfterCreate(s: State, dto: ItemDto)
    requires Inv(s)
    ensures var r1 := ReadAllStep(s); var c := CreateStep(r1.post, dto);
      var r2 := ReadAllStep(c.post);
      r2.result == r1.result && c.result !in r2.result
  {
    var r1 := ReadAllStep(s);
    ReadAllKeepsInv(s);
    ReadAllSnapshot(s);
    var c := CreateStep(r1.post, dto);
    CreateWritesThrough(r1.post, dto);
  }

  /** A worked example: the first item of an empty table gets id 1 and is then served by each read path. */
  lemma PenExample()
    ensures var c := CreateStep(Init([], 1, 0), ItemDto(0, "pen", "blue", 500, 10));
      && c.result == ItemDto(1, "pen", "blue", 500, 10)
      && ReadOneManualStep(c.post, 1) == Step(Ok(c.result), c.post)
      && ReadOneStep(c.post, 1).result == Ok(c.result)
      && ReadOneStep(c.post, 1).post.storeReads == 1
  {
  }
}
