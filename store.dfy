/**
 * The persistent store behind `repository` (reads) and `itemRepository`
 * (writes): a table of rows in insertion order. The model assumes that
 * `findAll` returns the rows in this order, new rows last; a `findAll`
 * without a sort order leaves the order to the database.
 */
module Store {
  import opened Wrappers
  import opened Items

  /** No two rows share an identifier. */
  ghost predicate UniqueIds(rows: seq<Item>)
  {
    forall i, j :: 0 <= i < j < |rows| ==> rows[i].id != rows[j].id
  }

  /** Every identifier in the table lies below the next one the store will assign. */
  ghost predicate IdsBelow(rows: seq<Item>, bound: int)
  {
    forall k :: 0 <= k < |rows| ==> rows[k].id < bound
  }

  /** `findById`: the row with that identifier, or nothing. */
  function FindById(rows: seq<Item>, id: int): (r: Option<Item>)
    ensures r.Some? ==> r.value in rows && r.value.id == id
    ensures r.None? <==> forall k :: 0 <= k < |rows| ==> rows[k].id != id
  {
    if rows == [] then None
    else if rows[0].id == id then Some(rows[0])
    else FindById(rows[1..], id)
  }

  /** With unique identifiers, `findById` finds exactly the row that carries the id. */
  lemma FindByIdAt(rows: seq<Item>, k: int)
    requires UniqueIds(rows)
    requires 0 <= k < |rows|
    ensures FindById(rows, rows[k].id) == Some(rows[k])
  {
    var r := FindById(rows, rows[k].id);
    var j :| 0 <= j < |rows| && rows[j] == r.value;
    assert j == k;
  }

  /** Appending a row never changes what an earlier row's identifier finds. */
  lemma {:induction false} FindByIdAppend(rows: seq<Item>, item: Item, id: int)
    ensures FindById(rows + [item], id) ==
      if FindById(rows, id).Some? then FindById(rows, id)
      else if item.id == id then Some(item)
      else None
  {
    if rows != [] {
      assert (rows + [item])[1..] == rows[1..] + [item];
      FindByIdAppend(rows[1..], item, id);
    }
  }

  /** Saving a row under a fresh identifier keeps identifiers unique and below the new bound. */
  lemma SaveKeepsIds(rows: seq<Item>, item: Item, bound: int)
    requires UniqueIds(rows) && IdsBelow(rows, bound)
    requires item.id == bound
    ensures UniqueIds(rows + [item]) && IdsBelow(rows + [item], bound + 1)
    ensures FindById(rows, item.id) == None
    ensures FindById(rows + [item], item.id) == Some(item)
  {
    FindByIdAppend(rows, item, item.id);
  }
}
