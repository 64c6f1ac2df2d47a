/** Delete: parses the id and hands it to the repository; it returns nothing. */
module DeleteCategory {
  import opened Wrappers
  import opened Errors
  import opened Identifier
  import opened CategoryRepo
  import opened GetCategory

  datatype DeleteCategoryInput = DeleteCategoryInput(id: string)

  class DeleteCategoryUseCase {
    const repo: CategoryRepository

    constructor (repo: CategoryRepository)
      ensures this.repo == repo
    {
      this.repo := repo;
    }

    /**
     * A malformed id fails before the store is touched; otherwise the entry
     * under exactly that id is removed, or the repository's NotFoundError
     * propagates unchanged with the store as it was.
     */
    method Execute(input: DeleteCategoryInput) returns (r: Outcome<DomainError>)
      requires repo.Valid()
      modifies repo
      ensures repo.Valid()
      ensures !ValidUuid(input.id) ==> r == Fail(InvalidUuidError) && repo.items == old(repo.items)
      ensures ValidUuid(input.id) && UuidValue(input.id) in old(repo.items) ==>
        r == Pass && repo.items == old(repo.items) - {UuidValue(input.id)}
      ensures ValidUuid(input.id) && UuidValue(input.id) !in old(repo.items) ==>
        r == Fail(NotFoundError(input.id, Errors.CategoryEntityName)) && repo.items == old(repo.items)
    {
      var parsed := Parse(input.id);
      if parsed.Failure? {
        return Fail(parsed.error);
      }
      r := repo.Delete(parsed.value);
    }
  }

  /** After a delete, a get on the same id finds nothing. */
  method DeleteThenGet(delete: DeleteCategoryUseCase, get: GetCategoryUseCase, id: string)
    requires delete.repo == get.repo && delete.repo.Valid()
    modifies delete.repo
    ensures get.repo.Valid()
    ensures ValidUuid(id) ==> get.Execute(GetCategoryInput(id)) == Failure(NotFoundError(id, Errors.CategoryEntityName))
    ensures !ValidUuid(id) ==> get.Execute(GetCategoryInput(id)) == Failure(InvalidUuidError)
  {
    var _ := delete.Execute(DeleteCategoryInput(id));
  }
}
