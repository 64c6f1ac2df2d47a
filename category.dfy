/**
 * The Category aggregate. Its commands overwrite fields in place and re-run
 * validation, which appends to the notification the entity owns; business-rule
 * violations never throw and are observable only through the notification.
 */
module CategoryDomain {
  import opened Wrappers
  import opened JsValues
  import opened Identifier
  import opened Notifications
  import opened CategoryValidation

  /** Constructor properties: every field optional except `name`. */
  datatype CategoryProps = CategoryProps(
    categoryId: Option<Uuid>,
    name: Value,
    description: Value,
    isActive: Value,
    createdAt: Option<Timestamp>)

  /** The stored state of a category: its fields without the notification. */
  datatype CategoryRow = CategoryRow(
    categoryId: Uuid,
    name: Value,
    description: Value,
    isActive: Value,
    createdAt: Timestamp)

  /**
   * The fields the constructor sets: a missing id is generated from `random`,
   * a missing description is `null`, a missing `is_active` is `true` and a
   * missing `created_at` is `now`; supplied values are kept as they are.
   */
  function InitialRow(props: CategoryProps, random: Entropy, now: Timestamp): (row: CategoryRow)
    ensures props.categoryId.Some? ==> row.categoryId == props.categoryId.value
    ensures props.categoryId.None? ==> row.categoryId == Generate(random)
    ensures row.name == props.name
    ensures Nullish(props.description) ==> row.description == Null
    ensures !Nullish(props.description) ==> row.description == props.description
    ensures Nullish(props.isActive) ==> row.isActive == Bool(true)
    ensures !Nullish(props.isActive) ==> row.isActive == props.isActive
    ensures row.createdAt == if props.createdAt.Some? then props.createdAt.value else now
  {
    CategoryRow(
      props.categoryId.GetOr(Generate(random)),
      props.name,
      Coalesce(props.description, Null),
      Coalesce(props.isActive, Bool(true)),
      props.createdAt.GetOr(now))
  }

  class Category {
    const categoryId: Uuid
    var name: Value
    var description: Value
    var isActive: Value
    const createdAt: Timestamp
    var notification: Notification
    /** How many times `validate` has run on this entity. */
    ghost var validations: nat

    ghost predicate Valid()
      reads this
    {
      notification.WellFormed()
    }

    function Snapshot(): CategoryRow
      reads this
    {
      CategoryRow(categoryId, name, description, isActive, createdAt)
    }

    /** `new Category(props)`: sets the fields and does not validate. */
    constructor (props: CategoryProps, random: Entropy, now: Timestamp)
      ensures Valid()
      ensures Snapshot() == InitialRow(props, random, now)
      ensures notification == EmptyNotification && validations == 0
    {
      var row := InitialRow(props, random, now);
      categoryId := row.categoryId;
      name := row.name;
      description := row.description;
      isActive := row.isActive;
      createdAt := row.createdAt;
      notification := EmptyNotification;
      validations := 0;
    }

    /** Rebuilds a stored category, with an empty notification and no validation. */
    constructor Load(row: CategoryRow)
      ensures Valid()
      ensures Snapshot() == row
      ensures notification == EmptyNotification && validations == 0
    {
      categoryId := row.categoryId;
      name := row.name;
      description := row.description;
      isActive := row.isActive;
      createdAt := row.createdAt;
      notification := EmptyNotification;
      validations := 0;
    }

    /** `Category.create(props)`: constructs, then validates exactly once. */
    static method Create(props: CategoryProps, random: Entropy, now: Timestamp) returns (c: Category)
      ensures fresh(c) && c.Valid()
      ensures c.Snapshot() == InitialRow(props, random, now)
      ensures c.notification == ValidateFields(EmptyNotification, c.name, c.description, c.isActive)
      ensures c.validations == 1
    {
      c := new Category(props, random, now);
      c.Validate();
    }

    /** `Category.validate(this)`: records the failures of every rule on the current fields. */
    method Validate()
      requires Valid()
      modifies this
      ensures Valid()
      ensures Snapshot() == old(Snapshot())
      ensures notification == ValidateFields(old(notification), name, description, isActive)
      ensures validations == old(validations) + 1
    {
      notification := ValidateFields(notification, name, description, isActive);
      validations := validations + 1;
    }

    /** `changeName(name)`: overwrites the name, then validates once more. */
    method ChangeName(newName: Value)
      requires Valid()
      modifies this
      ensures Valid()
      ensures Snapshot() == old(Snapshot()).(name := newName)
      ensures notification == ValidateFields(old(notification), newName, description, isActive)
      ensures validations == old(validations) + 1
    {
      name := newName;
      Validate();
    }

    /** `changeDescription(description)`: overwrites the description, then validates once more. */
    method ChangeDescription(newDescription: Value)
      requires Valid()
      modifies this
      ensures Valid()
      ensures Snapshot() == old(Snapshot()).(description := newDescription)
      ensures notification == ValidateFields(old(notification), name, newDescription, isActive)
      ensures validations == old(validations) + 1
    {
      description := newDescription;
      Validate();
    }

    /** `activate()`: `is_active` becomes true whatever it was; no validation. */
    method Activate()
      requires Valid()
      modifies this
      ensures Valid()
      ensures Snapshot() == old(Snapshot()).(isActive := Bool(true))
      ensures notification == old(notification) && validations == old(validations)
    {
      isActive := Bool(true);
    }

    /** `deactivate()`: `is_active` becomes false whatever it was; no validation. */
    method Deactivate()
      requires Valid()
      modifies this
      ensures Valid()
      ensures Snapshot() == old(Snapshot()).(isActive := Bool(false))
      ensures notification == old(notification) && validations == old(validations)
    {
      isActive := Bool(false);
    }
  }

  /**
   * Creating from a valid name alone gives an active category with a `null`
   * description and a notification without errors.
   */
  lemma CreateWithValidName(name: string, random: Entropy, now: Timestamp)
    requires 0 < |name| <= NameMaxLength
    ensures var row := InitialRow(CategoryProps(None, Str(name), Undefined, Undefined, None), random, now);
      && row.isActive == Bool(true)
      && row.description == Null
      && row.categoryId == Generate(random)
      && !ValidateFields(EmptyNotification, row.name, row.description, row.isActive).HasErrors()
  {
  }

  /**
   * A rejected name is reported with the same messages whether it arrives
   * through `create` or through a later `changeName`, whatever the entity
   * recorded before.
   */
  lemma ChangeNameReportsLikeCreate(name: Value, before: Notification, description: Value, isActive: Value,
                                    random: Entropy, now: Timestamp)
    ensures var created := InitialRow(CategoryProps(None, name, Undefined, Undefined, None), random, now);
      var atCreate := ValidateFields(EmptyNotification, name, created.description, created.isActive);
      var atChange := ValidateFields(before, name, description, isActive);
      forall m :: m in NameErrors(name) ==> m in atCreate.errors["name"] && m in atChange.errors["name"]
  {
  }

  /**
   * The entity's scenarios: create inactive, change name and description,
   * activate, deactivate, then change the name to `null`.
   */
  method TestScenarios(random: Entropy, now: Timestamp) returns (c: Category)
    ensures fresh(c) && c.Valid()
    ensures c.name == Null && c.description == Str("some description") && c.isActive == Bool(false)
    ensures c.validations == 4
    ensures "name" in c.notification.errors
    ensures NameNotEmpty in c.notification.errors["name"]
    ensures NameMustBeString in c.notification.errors["name"]
    ensures NameTooLong in c.notification.errors["name"]
  {
    c := Category.Create(CategoryProps(None, Str("Movie"), Undefined, Bool(false), None), random, now);
    assert c.isActive == Bool(false) && c.description == Null && c.validations == 1;
    c.ChangeName(Str("other name"));
    assert c.name == Str("other name") && c.validations == 2;
    c.ChangeDescription(Str("some description"));
    assert c.description == Str("some description") && c.validations == 3;
    c.Activate();
    assert c.isActive == Bool(true);
    c.Deactivate();
    c.ChangeName(Null);
  }
}
