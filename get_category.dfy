/** Get: parses the id, looks the category up and returns its projection. */
module GetCategory {
  import opened Wrappers
  import opened Errors
  import opened Identifier
  import opened CategoryRepo
  import opened CategoryOutputMapper

  datatype GetCategoryInput = GetCategoryInput(id: string)

  class GetCategoryUseCase {
    const repo: CategoryRepository

    constructor (repo: CategoryRepository)
      ensures this.repo == repo
    {
      this.repo := repo;
    }

    /**
     * A malformed id is an InvalidUuidError, an absent one a NotFoundError
     * naming the id and "Category"; a present one yields exactly the stored
     * fields. Only `findById` reads the store, which stays as it was.
     */
    function Execute(input: GetCategoryInput): (r: Result<CategoryOutput, DomainError>)
      reads repo
      requires repo.Valid()
      ensures !ValidUuid(input.id) ==> r == Failure(InvalidUuidError)
      ensures ValidUuid(input.id) ==>
        (r.Success? <==> UuidValue(input.id) in repo.items)
      ensures ValidUuid(input.id) && r.Failure? ==>
        r.error == NotFoundError(input.id, CategoryEntityName)
      ensures r.Success? ==>
        && r.value.id == input.id
        && var row := repo.items[UuidValue(input.id)];
           r.value == CategoryOutput(row.categoryId.id, row.name, row.description, row.isActive, row.createdAt)
    {
      match Parse(input.id)
      case Failure(e) => Failure(e)
      case Success(id) =>
        match repo.FindById(id)
        case None => Failure(NotFoundError(input.id, CategoryEntityName))
        case Some(row) => Success(ToOutput(row))
    }
  }
}
