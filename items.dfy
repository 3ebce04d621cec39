/**
 * The persisted entity `Item`, its transfer form `ItemDto`, and the conversions
 * between them that the service uses (`ItemDto.fromEntity`, `Item.builder()`).
 */
module Items {

  /** A row of the item table; `id` is assigned by the store on save. */
  datatype Item = Item(id: int, name: string, description: string, price: int, stock: int)

  /** The flattened copy of an Item that the service returns and caches. */
  datatype ItemDto = ItemDto(id: int, name: string, description: string, price: int, stock: int)

  /** `ItemDto.fromEntity`: a field-by-field copy of the entity. */
  function FromEntity(item: Item): ItemDto
  {
    ItemDto(item.id, item.name, item.description, item.price, item.stock)
  }

  /** The reverse conversion, used only to state that `FromEntity` loses nothing. */
  function ToEntity(dto: ItemDto): Item
  {
    Item(dto.id, dto.name, dto.description, dto.price, dto.stock)
  }

  /** `FromEntity` keeps the identifier and every field, so it is injective. */
  lemma FromEntityLossless(a: Item, b: Item)
    ensures ToEntity(FromEntity(a)) == a
    ensures FromEntity(a).id == a.id
    ensures FromEntity(a) == FromEntity(b) ==> a == b
  {
  }

  /**
   * The entity that `create` saves: name, description, price and stock taken
   * from the request, the identifier the store assigns; the id of the request
   * itself is ignored.
   */
  function Build(dto: ItemDto, id: int): (item: Item)
    ensures FromEntity(item) == dto.(id := id)
  {
    Item(id, dto.name, dto.description, dto.price, dto.stock)
  }

  /** `findAll().stream().map(ItemDto::fromEntity).toList()`: same length, same order. */
  function FromEntities(items: seq<Item>): (dtos: seq<ItemDto>)
    ensures |dtos| == |items|
    ensures forall i :: 0 <= i < |items| ==> dtos[i] == FromEntity(items[i])
  {
    if items == [] then [] else [FromEntity(items[0])] + FromEntities(items[1..])
  }

  /** Converting every DTO of a mapped list back gives the original rows. */
  lemma FromEntitiesRoundTrip(items: seq<Item>)
    ensures |FromEntities(items)| == |items|
    ensures forall i :: 0 <= i < |items| ==> ToEntity(FromEntities(items)[i]) == items[i]
  {
  }

  /** Mapping is monotone for the prefix order: a prefix of the rows maps to a prefix of the list. */
  lemma FromEntitiesPrefix(a: seq<Item>, b: seq<Item>)
    requires a <= b
    ensures FromEntities(a) <= FromEntities(b)
  {
    assert FromEntities(a) == FromEntities(b)[..|a|];
  }
}
