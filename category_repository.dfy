/**
 * The category repository the use cases depend on, as an in-memory store
 * keyed by identifier. Entities are stored as snapshots of their fields.
 */
module CategoryRepo {
  import opened Wrappers
  import opened Errors
  import opened Identifier
  import opened CategoryDomain

  class CategoryRepository {
    var items: map<Uuid, CategoryRow>

    /** Every entry is stored under its own identifier. */
    ghost predicate Valid()
      reads this
    {
      forall id :: id in items ==> items[id].categoryId == id
    }

    constructor ()
      ensures Valid() && items == map[]
    {
      items := map[];
    }

    /** `insert(entity)`: stores a new entity; an identifier already present is refused. */
    method Insert(entity: Category) returns (r: Outcome<DomainError>)
      requires Valid()
      modifies this
      ensures Valid()
      ensures entity.categoryId in old(items) ==>
        r == Fail(DuplicateEntityError(entity.categoryId.id)) && items == old(items)
      ensures entity.categoryId !in old(items) ==>
        r == Pass && items == old(items)[entity.categoryId := entity.Snapshot()]
    {
      if entity.categoryId in items {
        r := Fail(DuplicateEntityError(entity.categoryId.id));
      } else {
        items := items[entity.categoryId := entity.Snapshot()];
        r := Pass;
      }
    }

    /** `findById(id)`: the stored entity, or an explicit absence. */
    function FindById(id: Uuid): (r: Option<CategoryRow>)
      reads this
      ensures r.Some? <==> id in items
      ensures r.Some? ==> r.value == items[id]
      ensures Valid() && r.Some? ==> r.value.categoryId == id
    {
      if id in items then Some(items[id]) else None
    }

    /** `update(entity)`: replaces the stored entity; an absent one is NotFound. */
    method Update(entity: Category) returns (r: Outcome<DomainError>)
      requires Valid()
      modifies this
      ensures Valid()
      ensures entity.categoryId in old(items) ==>
        r == Pass && items == old(items)[entity.categoryId := entity.Snapshot()]
      ensures entity.categoryId !in old(items) ==>
        r == Fail(NotFoundError(entity.categoryId.id, CategoryEntityName)) && items == old(items)
    {
      if entity.categoryId in items {
        items := items[entity.categoryId := entity.Snapshot()];
        r := Pass;
      } else {
        r := Fail(NotFoundError(entity.categoryId.id, CategoryEntityName));
      }
    }

    /** `delete(id)`: removes the stored entity; an absent one is NotFound. */
    method Delete(id: Uuid) returns (r: Outcome<DomainError>)
      requires Valid()
      modifies this
      ensures Valid()
      ensures id in old(items) ==> r == Pass && items == old(items) - {id}
      ensures id !in old(items) ==>
        r == Fail(NotFoundError(id.id, CategoryEntityName)) && items == old(items)
    {
      if id in items {
        items := items - {id};
        r := Pass;
      } else {
        r := Fail(NotFoundError(id.id, CategoryEntityName));
      }
    }
  }
}
