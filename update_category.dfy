/**
 * Update: loads the category, applies the supplied changes through the
 * entity's commands, and stores the result only if its notification holds
 * no errors.
 */
module UpdateCategory {
  import opened Wrappers
  import opened Errors
  import opened JsValues
  import opened Identifier
  import opened Notifications
  import opened CategoryValidation
  import opened CategoryDomain
  import opened CategoryRepo
  import opened CategoryOutputMapper

  /** `description` is `Undefined` when not supplied, and may be an explicit `Null`. */
  datatype UpdateCategoryInput = UpdateCategoryInput(id: string, name: Value, description: Value, isActive: Value)

  /** The name after the update: replaced only by a truthy input name. */
  function UpdatedName(row: CategoryRow, input: UpdateCategoryInput): Value {
    if Truthy(input.name) then input.name else row.name
  }

  /**
   * The fields after the changes: a truthy name replaces the name, any supplied
   * description (`null` included) replaces the description, `true` and `false`
   * set `is_active`, and everything else, the id and creation time included,
   * is kept.
   */
  function MutatedRow(row: CategoryRow, input: UpdateCategoryInput): (r: CategoryRow)
    ensures r.categoryId == row.categoryId && r.createdAt == row.createdAt
    ensures Truthy(input.name) ==> r.name == input.name
    ensures !Truthy(input.name) ==> r.name == row.name
    ensures !input.description.Undefined? ==> r.description == input.description
    ensures input.description.Undefined? ==> r.description == row.description
    ensures input.isActive == Bool(true) ==> r.isActive == Bool(true)
    ensures input.isActive == Bool(false) ==> r.isActive == Bool(false)
    ensures !input.isActive.Bool? ==> r.isActive == row.isActive
  {
    var description := if input.description.Undefined? then row.description else input.description;
    var isActive := if input.isActive.Bool? then input.isActive else row.isActive;
    row.(name := UpdatedName(row, input), description := description, isActive := isActive)
  }

  /**
   * The loaded entity's notification after the changes: `changeName` validates
   * once, then `changeDescription` validates once more, both before `is_active`
   * is changed. With neither change, nothing is validated.
   */
  function MutatedNotification(row: CategoryRow, input: UpdateCategoryInput): (n: Notification)
    ensures n.WellFormed()
    ensures !Truthy(input.name) && input.description.Undefined? ==> n == EmptyNotification
    ensures n.HasErrors() <==>
      || (Truthy(input.name) && !IsValidCategory(input.name, row.description, row.isActive))
      || (!input.description.Undefined? &&
          !IsValidCategory(UpdatedName(row, input), input.description, row.isActive))
  {
    var afterName :=
      if Truthy(input.name) then ValidateFields(EmptyNotification, input.name, row.description, row.isActive)
      else EmptyNotification;
    if input.description.Undefined? then afterName
    else ValidateFields(afterName, UpdatedName(row, input), input.description, row.isActive)
  }

  /**
   * When validation ran at all, every rule the final name and description
   * break is reported under its field.
   */
  lemma MutatedNotificationReportsFinalState(row: CategoryRow, input: UpdateCategoryInput)
    requires Truthy(input.name) || !input.description.Undefined?
    ensures var r, n := MutatedRow(row, input), MutatedNotification(row, input);
      && (forall m :: m in NameErrors(r.name) ==> "name" in n.errors && m in n.errors["name"])
      && (forall m :: m in DescriptionErrors(r.description) ==>
            "description" in n.errors && m in n.errors["description"])
  {
  }

  class UpdateCategoryUseCase {
    const repo: CategoryRepository

    constructor (repo: CategoryRepository)
      ensures this.repo == repo
    {
      this.repo := repo;
    }

    /**
     * A malformed id fails before the store is read; an absent category is a
     * NotFoundError; a change the rules reject is an EntityValidationError with
     * the notification's messages, and nothing is stored. Otherwise the entry
     * is replaced by the changed category, every other entry is kept, and the
     * projection of the changed category is returned.
     */
    method Execute(input: UpdateCategoryInput) returns (r: Result<CategoryOutput, DomainError>)
      requires repo.Valid()
      modifies repo
      ensures repo.Valid()
      ensures !ValidUuid(input.id) ==> r == Failure(InvalidUuidError) && repo.items == old(repo.items)
      ensures ValidUuid(input.id) && UuidValue(input.id) !in old(repo.items) ==>
        r == Failure(NotFoundError(input.id, CategoryEntityName)) && repo.items == old(repo.items)
      ensures ValidUuid(input.id) && UuidValue(input.id) in old(repo.items) ==>
        var id: Uuid := UuidValue(input.id);
        var row, n := MutatedRow(old(repo.items)[id], input), MutatedNotification(old(repo.items)[id], input);
        && (n.HasErrors() ==>
              r == Failure(EntityValidationError(n.ToJSON())) && repo.items == old(repo.items))
        && (!n.HasErrors() ==>
              r == Success(ToOutput(row)) && repo.items == old(repo.items)[id := row])
    {
      var parsed := Parse(input.id);
      if parsed.Failure? {
        return Failure(parsed.error);
      }
      var categoryId := parsed.value;
      var found := repo.FindById(categoryId);
      if found.None? {
        return Failure(NotFoundError(input.id, CategoryEntityName));
      }
      var row := found.value;
      var category := new Category.Load(row);
      if Truthy(input.name) {
        category.ChangeName(input.name);
      }
      assert category.Snapshot() == row.(name := UpdatedName(row, input));
      if !input.description.Undefined? {
        category.ChangeDescription(input.description);
      }
      assert category.notification == MutatedNotification(row, input);
      if input.isActive == Bool(true) {
        category.Activate();
      }
      if input.isActive == Bool(false) {
        category.Deactivate();
      }
      assert category.Snapshot() == MutatedRow(row, input);
      if category.notification.HasErrors() {
        return Failure(EntityValidationError(category.notification.ToJSON()));
      }
      var updated := repo.Update(category);
      r := updated.ToResult(ToOutput(category.Snapshot()));
    }
  }
}
