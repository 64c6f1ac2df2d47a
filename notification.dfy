/**
 * The validation notification an entity owns: for each field, the messages
 * its failed rules reported, in the order they were first reported.
 */
module Notifications {

  /** One failed rule: the field it guards and its message. */
  datatype FieldError = FieldError(field: string, message: string)

  ghost predicate Distinct(s: seq<string>) {
    forall i, j :: 0 <= i < j < |s| ==> s[i] != s[j]
  }

  datatype Notification = Notification(errors: map<string, seq<string>>) {

    /** Every recorded field has a message, and no message twice. */
    ghost predicate WellFormed() {
      forall field :: field in errors ==> errors[field] != [] && Distinct(errors[field])
    }

    /** Every message `this` records for a field, `other` records for it too. */
    ghost predicate IncludedIn(other: Notification) {
      forall field :: field in errors ==>
        field in other.errors && forall m :: m in errors[field] ==> m in other.errors[field]
    }

    /** `addError(message, field)`: appends the message unless the field already has it. */
    function AddError(field: string, message: string): (n: Notification)
      ensures n.errors.Keys == errors.Keys + {field}
      ensures message in n.errors[field]
      ensures forall f :: f in errors && f != field ==> n.errors[f] == errors[f]
      ensures IncludedIn(n)
      ensures field in errors && message in errors[field] ==> n == this
      ensures !(field in errors && message in errors[field]) ==>
        n.errors[field] == (if field in errors then errors[field] else []) + [message]
      ensures WellFormed() ==> n.WellFormed()
    {
      var current := if field in errors then errors[field] else [];
      if message in current then this
      else Notification(errors[field := current + [message]])
    }

    /** Records each failed rule in turn, as the validator does. */
    function AddErrors(failures: seq<FieldError>): (n: Notification)
      ensures n.errors.Keys == errors.Keys + set e | e in failures :: e.field
      ensures forall e :: e in failures ==> e.message in n.errors[e.field]
      ensures forall f, m :: f in n.errors && m in n.errors[f] ==>
        (f in errors && m in errors[f]) || FieldError(f, m) in failures
      ensures IncludedIn(n)
      ensures WellFormed() ==> n.WellFormed()
      ensures n.HasErrors() <==> HasErrors() || failures != []
      decreases |failures|
    {
      if failures == [] then this
      else AddError(failures[0].field, failures[0].message).AddErrors(failures[1..])
    }

    /**
     * `hasErrors()`: some field has a message. On a well-formed notification
     * this is the same as some field being recorded at all.
     */
    predicate HasErrors(): (b: bool)
      ensures WellFormed() ==> (b <==> errors != map[])
    {
      exists field :: field in errors && errors[field] != []
    }

    /**
     * `toJSON()`: the field -> messages map reported to callers; it is empty
     * exactly when there is nothing to report.
     */
    function ToJSON(): (json: map<string, seq<string>>)
      ensures WellFormed() ==> (json != map[] <==> HasErrors())
      ensures json.Keys == errors.Keys
      ensures forall f :: f in json ==> json[f] == errors[f]
    {
      errors
    }
  }

  const EmptyNotification := Notification(map[])

  /** Adding a message twice records it once. */
  lemma AddErrorIdempotent(n: Notification, field: string, message: string)
    ensures n.AddError(field, message).AddError(field, message) == n.AddError(field, message)
  {
  }
}
