/**
 * Create: builds the entity with `Category.create`, inserts it and returns its
 * projection. The check that would reject an entity whose notification has
 * errors is disabled in the source, so invalid categories are stored too.
 */
module CreateCategory {
  import opened Wrappers
  import opened Errors
  import opened JsValues
  import opened Identifier
  import opened CategoryDomain
  import opened CategoryRepo
  import opened CategoryOutputMapper

  datatype CreateCategoryInput = CreateCategoryInput(name: Value, description: Value, isActive: Value)

  function PropsOf(input: CreateCategoryInput): CategoryProps {
    CategoryProps(None, input.name, input.description, input.isActive, None)
  }

  /**
   * The category Create stores: a generated id, the defaults of the
   * constructor and the creation time.
   */
  function CreatedRow(input: CreateCategoryInput, random: Entropy, now: Timestamp): (row: CategoryRow)
    ensures row.categoryId == Generate(random) && row.createdAt == now
    ensures row.name == input.name
    ensures row.description == if Nullish(input.description) then Null else input.description
    ensures row.isActive == if Nullish(input.isActive) then Bool(true) else input.isActive
  {
    InitialRow(PropsOf(input), random, now)
  }

  class CreateCategoryUseCase {
    const repo: CategoryRepository

    constructor (repo: CategoryRepository)
      ensures this.repo == repo
    {
      this.repo := repo;
    }

    /**
     * Stores the new category under its fresh id and returns its projection,
     * whether or not validation failed: success depends only on the id being
     * new; a refused insert propagates and the
     * store is unchanged.
     */
    method Execute(input: CreateCategoryInput, random: Entropy, now: Timestamp)
      returns (r: Result<CategoryOutput, DomainError>)
      requires repo.Valid()
      modifies repo
      ensures repo.Valid()
      ensures r.Success? <==> CreatedRow(input, random, now).categoryId !in old(repo.items)
      ensures var row := CreatedRow(input, random, now);
        && (row.categoryId in old(repo.items) ==>
              r == Failure(DuplicateEntityError(row.categoryId.id)) && repo.items == old(repo.items))
        && (row.categoryId !in old(repo.items) ==>
              r == Success(ToOutput(row)) && repo.items == old(repo.items)[row.categoryId := row])
    {
      var entity := Category.Create(PropsOf(input), random, now);
      assert entity.Snapshot() == CreatedRow(input, random, now);
      var inserted := repo.Insert(entity);
      assert inserted.Pass? <==> entity.categoryId !in old(repo.items);
      r := inserted.ToResult(ToOutput(entity.Snapshot()));
    }
  }
}
