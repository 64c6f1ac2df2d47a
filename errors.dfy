/** The errors the domain and application layers raise. */
module Errors {

  datatype DomainError =
    /** A malformed identifier string, raised by the identifier's constructor. */
    | InvalidUuidError
    /** No stored entity with this id; `entityName` is the entity class's name. */
    | NotFoundError(id: string, entityName: string)
    /** Validation failed; carries the notification's field -> messages map. */
    | EntityValidationError(errors: map<string, seq<string>>)
    /** The store already holds an entity with this id. */
    | DuplicateEntityError(id: string)

  const CategoryEntityName := "Category"
}
