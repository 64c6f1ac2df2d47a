/** The plain record every use case returns: a read-only snapshot of a category. */
module CategoryOutputMapper {
  import opened Wrappers
  import opened JsValues
  import opened Identifier
  import opened CategoryDomain

  datatype CategoryOutput = CategoryOutput(
    id: string,
    name: Value,
    description: Value,
    isActive: Value,
    createdAt: Timestamp)

  /** `CategoryOutputMapper.toOutput(entity)`. */
  function ToOutput(row: CategoryRow): (out: CategoryOutput)
    ensures ValidUuid(out.id)
  {
    CategoryOutput(row.categoryId.id, row.name, row.description, row.isActive, row.createdAt)
  }

  /** Reads an output record back into the stored fields it was projected from. */
  function FromOutput(out: CategoryOutput): (r: Option<CategoryRow>)
    ensures r.Some? <==> ValidUuid(out.id)
    ensures r.Some? ==> ToOutput(r.value) == out
  {
    match Parse(out.id)
    case Success(id) => Some(CategoryRow(id, out.name, out.description, out.isActive, out.createdAt))
    case Failure(_) => None
  }

  /** Projecting and reading back preserves every field. */
  lemma OutputRoundTrip(row: CategoryRow)
    ensures FromOutput(ToOutput(row)) == Some(row)
  {
  }
}
