/**
 * The weakly-typed values that reach the domain layer from its callers:
 * the entity accepts `null`, numbers or booleans where a string is declared,
 * and its validation rules are what reject them.
 */
module JsValues {

  datatype Value =
    | Undefined
    | Null
    | Str(s: string)
    | Num(n: int)
    | Bool(b: bool)

  /** `null` or `undefined`: the values that `??` replaces. */
  predicate Nullish(v: Value) {
    v.Undefined? || v.Null?
  }

  /** JavaScript's `v ?? default`. */
  function Coalesce(v: Value, default: Value): Value {
    if Nullish(v) then default else v
  }

  /** JavaScript truthiness, as tested by `v && ...`. */
  predicate Truthy(v: Value) {
    match v
    case Undefined => false
    case Null => false
    case Str(s) => s != ""
    case Num(n) => n != 0
    case Bool(b) => b
  }

  /** An opaque point in time (`Date` in the source). */
  datatype Timestamp = Timestamp(millis: int)
}
