# Category domain and application layer, modelled in Dafny

This project models the Category module of a video catalogue service: the
Category aggregate with its self-validation, the identifier value object, the
repository the use cases depend on, and the four use cases Create, Get,
Update and Delete.

- `uuid.dfy` (`Identifier`): the identifier. A string is accepted when it has
  the 8-4-4-4-12 hexadecimal shape of section 3 of RFC 4122. `new Uuid()` is
  modelled as version-4 generation from 16 random bytes supplied by the caller.
- `notification.dfy` (`Notifications`): the error accumulator an entity owns.
  It maps each field to its messages and appends a message only once.
- `category_validation.dfy` (`CategoryValidation`): the rules for `name`,
  `description` and `is_active`, with their exact messages.
- `category.dfy` (`CategoryDomain`): the `Category` class. `create`,
  `changeName`, `changeDescription`, `activate` and `deactivate` update its
  fields in place, and validation appends to its notification. A ghost counter
  records how many times validation ran.
- `category_repository.dfy` (`CategoryRepo`): the repository, a class over a
  `map` from identifier to the stored fields.
- `category_output.dfy` (`CategoryOutputMapper`): the output projection
  `{id, name, description, is_active, created_at}`.
- `create_category.dfy`, `get_category.dfy`, `update_category.dfy`,
  `delete_category.dfy`: the use cases. Each is a class holding the repository
  it is given. Create, Update and Delete are sequential methods over the
  repository state. Get only reads, so it is a function.
- `js_values.dfy`, `errors.dfy`, `wrappers.dfy`: weakly-typed input values
  (`Undefined | Null | Str | Num | Bool`), the error kinds, and `Option`,
  `Result` and `Outcome`.

Thrown errors are modelled as `Failure`/`Fail` results. The kinds are
`InvalidUuidError`, `NotFoundError(id, "Category")`,
`EntityValidationError(errors)` and `DuplicateEntityError(id)`.

Sources of a few behaviours are not part of this model: `uuid.vo.ts`, the
entity, the notification, the validator and the repository implementations.
Their behaviour is taken from their tests and from the use cases that call
them. These choices follow from that:
- Validation runs every rule on every call. This is a modelling choice. The
  test that creates a category with only `description: 5` expects a
  description message, so `create` validates more than `name`. The
  `changeName` and `changeDescription` tests would also be satisfied by
  validation restricted to the changed field; the model validates every field
  there as well.
- `description` is optional: `null` and `undefined` pass its rule.
- The only rule on `is_active` is "must be a boolean". The constructor replaces
  `null` and `undefined` by `true` before any rule sees them.
- Stored categories are reloaded into a fresh entity with an empty
  notification and without validation (`Category.Load`).

## Model

| member | source | states |
|---|---|---|
| `Identifier.Parse` | src/core/shared/domain/value-objects/__tests__/uuid.vo.spec.ts:8-26 | construction from a string succeeds exactly when the string is well formed, and then keeps it verbatim as `id`; otherwise it fails with InvalidUuidError |
| `Identifier.Generate` | src/core/shared/domain/value-objects/__tests__/uuid.vo.spec.ts:15-20 | a generated identifier always passes the validity check (parsing its text gives it back), carries version nibble 4 and an RFC 4122 variant digit |
| `Identifier.Format` | src/core/shared/domain/value-objects/__tests__/uuid.vo.spec.ts:15-18 | the hexadecimal text of any 16 bytes, grouped 8-4-4-4-12, is a valid identifier |
| `Identifier.Hex` | src/core/shared/domain/value-objects/__tests__/uuid.vo.spec.ts:15-18 | each byte becomes its high and low hexadecimal digit, at positions 2k and 2k+1 |
| `Identifier.TestIdentifiers` | src/core/shared/domain/value-objects/__tests__/uuid.vo.spec.ts:8-26 | `"invalid-uuid"` and the empty string are refused with InvalidUuidError; `123e4567-e89b-12d3-a456-426614174000` is accepted and kept as is |
| `Notifications.Notification.AddError` | src/category/domain/__tests__/category.entity.spec.ts:188-214 | a message not yet under the field is appended to the field's list and nothing else is added; a message already there changes nothing; other fields are untouched and messages stay distinct |
| `Notifications.Notification.AddErrors` | src/category/domain/__tests__/category.entity.spec.ts:143-186 | every reported failure appears under its field and nothing else is added: the fields are the old ones plus those reported, every message is old or reported, and the result has errors iff the old one had or some failure was reported |
| `Notifications.Notification.HasErrors` | src/core/category/application/use-cases/update-category/update-category.use-case.ts:40 | some field has a message; on a well-formed notification, the same as some field being recorded |
| `Notifications.Notification.ToJSON` | src/core/category/application/use-cases/update-category/update-category.use-case.ts:41 | the reported field -> messages map is exactly the recorded one, and is empty iff there are no errors |
| `Notifications.AddErrorIdempotent` | src/category/domain/__tests__/category.entity.spec.ts:188-214 | adding the same message twice records it once |
| `CategoryValidation.NameErrors` | src/category/domain/__tests__/category.entity.spec.ts:146-169 | "should not be empty" iff the name is null, undefined or `''`; "must be a string" iff it is not a string; the length message iff it is not a string of at most 255 characters; no message iff it is a non-empty string of at most 255 characters |
| `CategoryValidation.DescriptionErrors` | src/category/domain/__tests__/category.entity.spec.ts:172-178 | no message iff the description is null, undefined or a string; otherwise exactly "description must be a string" |
| `CategoryValidation.IsActiveErrors` | src/category/domain/__tests__/category.entity.spec.ts:180-186 | no message iff `is_active` is a boolean; otherwise exactly "is_active must be a boolean value" |
| `CategoryValidation.RuleErrors` | src/category/domain/__tests__/category.entity.spec.ts:143-186 | the failures of all three rule groups, each tagged with its field; empty iff the fields satisfy the independent validity predicate |
| `CategoryValidation.ValidateFields` | src/category/domain/__tests__/category.entity.spec.ts:143-223 | after validation every failing rule's message is recorded under its field and no other message is added, earlier messages are kept, a valid state adds nothing, and the notification has errors iff it had them before or the state is invalid |
| `CategoryValidation.EmptyNameNotification` | src/category/domain/__tests__/category.entity.spec.ts:154-158 | validating an empty name from an empty notification records exactly one message, "name should not be empty", under `name` |
| `CategoryValidation.TestRuleCases` | src/category/domain/__tests__/category.entity.spec.ts:146-186 | the exact message lists of the tests: null name gives three messages, `''` one, `5` two, 256 characters only the length message; `5` as description or `is_active` gives its one message |
| `CategoryDomain.InitialRow` | src/category/domain/__tests__/category.entity.spec.ts:10-46 | constructor defaults: description null, `is_active` true, `created_at` now, an id generated when none is supplied; supplied values are kept |
| `CategoryDomain.Category.constructor` | src/category/domain/__tests__/category.entity.spec.ts:89-105 | the fields are those defaults (a null or undefined id gets a generated one, a supplied id is kept), the notification is empty, and validation has not run |
| `CategoryDomain.Category.Load` | src/core/category/application/use-cases/update-category/update-category.use-case.ts:20 | a stored category is rebuilt with exactly its stored fields and an empty notification |
| `CategoryDomain.Category.Create` | src/category/domain/__tests__/category.entity.spec.ts:49-86 | a fresh entity with the constructor defaults, validated exactly once over all of its fields |
| `CategoryDomain.Category.Validate` | src/category/domain/__tests__/category.entity.spec.ts:143-186 | leaves the fields unchanged, records the current state's failures, and counts one validation |
| `CategoryDomain.Category.ChangeName` | src/category/domain/__tests__/category.entity.spec.ts:107-114 | only the name changes, and validation runs once more on the new state |
| `CategoryDomain.Category.ChangeDescription` | src/category/domain/__tests__/category.entity.spec.ts:116-123 | only the description changes, and validation runs once more on the new state |
| `CategoryDomain.Category.Activate` | src/category/domain/__tests__/category.entity.spec.ts:125-132 | `is_active` becomes true whatever it was; nothing else changes and no error is added |
| `CategoryDomain.Category.Deactivate` | src/category/domain/__tests__/category.entity.spec.ts:134-140 | `is_active` becomes false whatever it was; nothing else changes |
| `CategoryDomain.TestScenarios` | src/category/domain/__tests__/category.entity.spec.ts:107-196 | create, change name and description, activate, deactivate, then a `null` name: each command sets its field, four validations have run, and the three name messages are recorded |
| `CategoryDomain.CreateWithValidName` | src/category/domain/__tests__/category.entity.spec.ts:50-60 | creating from any non-empty name of at most 255 characters gives an active category with a null description, a generated id and no validation errors |
| `CategoryDomain.ChangeNameReportsLikeCreate` | src/category/domain/__tests__/category.entity.spec.ts:188-214 | a bad name is reported with the same messages through `changeName` as through `create`, whatever the entity recorded before |
| `CategoryRepo.CategoryRepository.Insert` | src/category/application/use-cases/create-category/create-category.use-case.ts:20 | a new id is stored with the entity's fields and every other entry is kept; an id already present is refused and the store is unchanged |
| `CategoryRepo.CategoryRepository.FindById` | src/core/category/application/use-cases/get-category/get-category.use-case.ts:18-21 | present iff the id is stored, and then the stored entry, whose id is the one asked for |
| `CategoryRepo.CategoryRepository.Update` | src/core/category/application/use-cases/update-category/update-category.use-case.ts:44 | replaces only the entity's own entry; an absent id is NotFound and the store is unchanged |
| `CategoryRepo.CategoryRepository.Delete` | src/core/category/application/use-cases/delete-category/delete-category.use-case.ts:12 | removes exactly that entry; an absent id is NotFound and the store is unchanged |
| `CategoryOutputMapper.ToOutput` | src/core/category/application/use-cases/get-category/__tests__/get-category.use-case.int-spec.ts:31-37 | the projection of the stored fields; its id is valid identifier text, and `OutputRoundTrip` pins all five fields |
| `CategoryOutputMapper.FromOutput` | src/core/category/application/use-cases/get-category/__tests__/get-category.use-case.int-spec.ts:31-37 | an output record reads back iff its id is valid, and projecting what it reads back gives the same record |
| `CategoryOutputMapper.OutputRoundTrip` | src/core/category/application/use-cases/get-category/__tests__/get-category.use-case.int-spec.ts:31-37 | projecting a category and reading it back preserves id, name, description, is_active and created_at |
| `CreateCategory.CreatedRow` | src/category/application/use-cases/create-category/create-category.use-case.ts:14 | the category Create builds has a generated id, creation time now, the supplied name, description null and `is_active` true unless supplied |
| `CreateCategory.CreateCategoryUseCase.Execute` | src/category/application/use-cases/create-category/create-category.use-case.ts:13-23 | success depends only on the fresh id being new, not on validation: the new category is stored under it, earlier entries are kept, and its projection is returned; a refused insert propagates, gives no output and leaves the store unchanged |
| `GetCategory.GetCategoryUseCase.Execute` | src/core/category/application/use-cases/get-category/get-category.use-case.ts:16-24 | a malformed id is InvalidUuidError; a well-formed absent id is NotFoundError(id, "Category"); a present id yields exactly the stored id, name, description, is_active and created_at; the store is only read |
| `UpdateCategory.MutatedRow` | src/core/category/application/use-cases/update-category/update-category.use-case.ts:26-38 | a truthy name replaces the name; any supplied description, null included, replaces the description; `true` and `false` set `is_active`; everything else, the id and creation time included, is untouched |
| `UpdateCategory.MutatedNotification` | src/core/category/application/use-cases/update-category/update-category.use-case.ts:26-42 | the loaded entity has errors after the changes iff the name change or the description change produced a state the rules reject; with neither change nothing is validated |
| `UpdateCategory.MutatedNotificationReportsFinalState` | src/core/category/application/use-cases/update-category/update-category.use-case.ts:26-42 | when validation ran, every rule broken by the final name and description is reported under its field |
| `UpdateCategory.UpdateCategoryUseCase.Execute` | src/core/category/application/use-cases/update-category/update-category.use-case.ts:18-47 | a malformed id and an absent id fail with the store unchanged; rejected changes fail with EntityValidationError carrying the notification and nothing stored; otherwise only that entry is replaced by the changed category and its projection returned |
| `DeleteCategory.DeleteCategoryUseCase.Execute` | src/core/category/application/use-cases/delete-category/delete-category.use-case.ts:10-13 | a malformed id fails before the store is touched; otherwise exactly that id's entry is removed, or NotFoundError propagates with the store unchanged; success carries no output |
| `DeleteCategory.DeleteThenGet` | src/core/category/application/use-cases/delete-category/delete-category.use-case.ts:10-13 | after a delete, a get on the same well-formed id is NotFoundError(id, "Category") |

## Left out

- Asynchrony: each `execute` runs sequentially. The race between Update's `findById` and `update` against a concurrent delete is not modelled. In the sequential model Update's repository write always succeeds.
- Randomness and the clock are parameters: `new Uuid()` takes 16 caller-supplied random bytes (`Entropy`), and `created_at` takes a `now` timestamp. Timestamps are opaque.
- `Identifier.Parse`: the model checks only the RFC 4122 shape. The identifier library's own check may be stricter, for example about version and variant digits or the nil identifier. In the model `Parse("")` is refused with InvalidUuidError; the real constructor may treat an empty string differently (for example by generating a fresh identifier), since `uuid.vo.ts` is not part of this model.
- `UpdateCategory.MutatedNotification`: each validation in Update checks every field, not only the changed one. A row that Create stored with an invalid description (for example the number 5) therefore makes an update that supplies only a valid name fail with EntityValidationError; under validation restricted to the changed field that update would succeed.
- The identifier test's count of validation calls has no counterpart. `Identifier.Parse` evaluates `ValidUuid` once; `Identifier.Generate` proves validity instead of checking it, so the generated path has no counterpart of the source's validation call. A value-level model cannot observe a spy.
- Numbers are integers: NaN, fractions and other JavaScript numbers are not modelled. String length counts characters, not UTF-16 code units.
- The repository stores value snapshots, not live entity objects, so aliasing between a stored entity and one a caller holds is not modelled. Search and listing operations are not modelled.
- `CategoryRepo.CategoryRepository.Insert`: a duplicate id is refused with `DuplicateEntityError`. The persistence error the real store raises is not part of this model.
- The Jest matchers and spies, the HTTP controller, dependency-injection wiring, the database configuration and the process entry point are not modelled.
