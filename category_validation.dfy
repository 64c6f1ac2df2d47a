/**
 * The category's validation rules: each maps a field value to the messages
 * of the rules it fails. Every rule of a field runs; none short-circuits.
 */
module CategoryValidation {
  import opened JsValues
  import opened Notifications

  const NameMaxLength := 255

  const NameNotEmpty := "name should not be empty"
  const NameMustBeString := "name must be a string"
  const NameTooLong := "name must be shorter than or equal to 255 characters"
  const DescriptionMustBeString := "description must be a string"
  const IsActiveMustBeBoolean := "is_active must be a boolean value"

  /** The state the rules accept, stated field by field. */
  predicate IsValidCategory(name: Value, description: Value, isActive: Value) {
    && name.Str? && 0 < |name.s| <= NameMaxLength
    && (Nullish(description) || description.Str?)
    && isActive.Bool?
  }

  /** `name`: required, a string, at most 255 characters. */
  function NameErrors(name: Value): (msgs: seq<string>)
    ensures NameNotEmpty in msgs <==> Nullish(name) || name == Str("")
    ensures NameMustBeString in msgs <==> !name.Str?
    ensures NameTooLong in msgs <==> !(name.Str? && |name.s| <= NameMaxLength)
    ensures forall m :: m in msgs ==> m == NameNotEmpty || m == NameMustBeString || m == NameTooLong
    ensures msgs == [] <==> name.Str? && 0 < |name.s| <= NameMaxLength
  {
    (if Nullish(name) || name == Str("") then [NameNotEmpty] else [])
    + (if name.Str? then [] else [NameMustBeString])
    + (if name.Str? && |name.s| <= NameMaxLength then [] else [NameTooLong])
  }

  /** `description`: optional; when present, a string. */
  function DescriptionErrors(description: Value): (msgs: seq<string>)
    ensures msgs == [] <==> Nullish(description) || description.Str?
    ensures msgs != [] ==> msgs == [DescriptionMustBeString]
  {
    if Nullish(description) || description.Str? then [] else [DescriptionMustBeString]
  }

  /** `is_active`: a boolean. */
  function IsActiveErrors(isActive: Value): (msgs: seq<string>)
    ensures msgs == [] <==> isActive.Bool?
    ensures msgs != [] ==> msgs == [IsActiveMustBeBoolean]
  {
    if isActive.Bool? then [] else [IsActiveMustBeBoolean]
  }

  function Tag(field: string, msgs: seq<string>): (r: seq<FieldError>)
    ensures |r| == |msgs|
    ensures forall i :: 0 <= i < |r| ==> r[i] == FieldError(field, msgs[i])
    ensures forall m :: m in msgs ==> FieldError(field, m) in r
    ensures forall e :: e in r ==> e.field == field && e.message in msgs
  {
    if msgs == [] then [] else [FieldError(field, msgs[0])] + Tag(field, msgs[1..])
  }

  /** Every failure of the three rule groups, tagged with its field. */
  function RuleErrors(name: Value, description: Value, isActive: Value): (r: seq<FieldError>)
    ensures r == [] <==> IsValidCategory(name, description, isActive)
    ensures forall m :: m in NameErrors(name) ==> FieldError("name", m) in r
    ensures forall m :: m in DescriptionErrors(description) ==> FieldError("description", m) in r
    ensures forall m :: m in IsActiveErrors(isActive) ==> FieldError("is_active", m) in r
    ensures forall e :: e in r ==>
      || (e.field == "name" && e.message in NameErrors(name))
      || (e.field == "description" && e.message in DescriptionErrors(description))
      || (e.field == "is_active" && e.message in IsActiveErrors(isActive))
  {
    var n, d, a := NameErrors(name), DescriptionErrors(description), IsActiveErrors(isActive);
    var tn, td, ta := Tag("name", n), Tag("description", d), Tag("is_active", a);
    assert forall e :: e in tn + td + ta <==> e in tn || e in td || e in ta;
    var r := tn + td + ta;
    r
  }

  /**
   * `Category.validate(entity)`: runs every rule on the given field values
   * and records each failure in the notification; it never throws.
   */
  function ValidateFields(n: Notification, name: Value, description: Value, isActive: Value): (r: Notification)
    ensures r.HasErrors() <==> n.HasErrors() || !IsValidCategory(name, description, isActive)
    ensures forall m :: m in NameErrors(name) ==> "name" in r.errors && m in r.errors["name"]
    ensures forall m :: m in DescriptionErrors(description) ==>
      "description" in r.errors && m in r.errors["description"]
    ensures forall m :: m in IsActiveErrors(isActive) ==>
      "is_active" in r.errors && m in r.errors["is_active"]
    ensures r.errors.Keys == n.errors.Keys + set e | e in RuleErrors(name, description, isActive) :: e.field
    ensures forall f, m :: f in r.errors && m in r.errors[f] ==>
      (f in n.errors && m in n.errors[f]) || FieldError(f, m) in RuleErrors(name, description, isActive)
    ensures n.IncludedIn(r)
    ensures IsValidCategory(name, description, isActive) ==> r == n
    ensures n.WellFormed() ==> r.WellFormed()
  {
    var failures := RuleErrors(name, description, isActive);
    var r := n.AddErrors(failures);
    assert forall e :: e in failures ==> e.field in r.errors;
    r
  }

  /** The rule cases of the entity's tests, message for message. */
  lemma TestRuleCases()
    ensures NameErrors(Null) == [NameNotEmpty, NameMustBeString, NameTooLong]
    ensures NameErrors(Undefined) == [NameNotEmpty, NameMustBeString, NameTooLong]
    ensures NameErrors(Str("")) == [NameNotEmpty]
    ensures NameErrors(Num(5)) == [NameMustBeString, NameTooLong]
    ensures NameErrors(Str(seq(256, _ => 't'))) == [NameTooLong]
    ensures DescriptionErrors(Num(5)) == [DescriptionMustBeString]
    ensures IsActiveErrors(Num(5)) == [IsActiveMustBeBoolean]
  {
  }

  /**
   * The exact notification `create` leaves for an empty name: only the
   * not-empty message, under `name`.
   */
  lemma EmptyNameNotification()
    ensures ValidateFields(EmptyNotification, Str(""), Null, Bool(true))
      == Notification(map["name" := [NameNotEmpty]])
  {
    var failures := RuleErrors(Str(""), Null, Bool(true));
    assert NameErrors(Str("")) == [NameNotEmpty];
    assert failures == [FieldError("name", NameNotEmpty)];
    var r := ValidateFields(EmptyNotification, Str(""), Null, Bool(true));
    assert r == EmptyNotification.AddError("name", NameNotEmpty);
    assert [] + [NameNotEmpty] == [NameNotEmpty];
    assert r.errors == map["name" := [NameNotEmpty]];
  }
}
