/** Optional values and success/error results shared by the resolver and the
    registration screen models. */
module Wrappers {

  /** A value that may be absent (`undefined` or `null` on the JavaScript side). */
  datatype Option<+T> = None | Some(value: T)

  /** The outcome of a GraphQL operation: a payload, or an error carrying its code. */
  datatype Result<+T, +E> = Ok(value: T) | Err(error: E)

  /** JavaScript truthiness of an optional number: `undefined`, `null`, `NaN`
      (all `None` here) and `0` are falsy; every other number is truthy. */
  predicate Truthy(x: Option<int>) {
    x.Some? && x.value != 0
  }
}
