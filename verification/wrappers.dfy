/** Option and Result, the two failure-carrying shapes the model uses in place of
    Python's `None` and raised exceptions. */
module Wrappers {

  /** `None` stands for Python's `None` (or a missing dictionary key). */
  datatype Option<+T> = None | Some(value: T)

  /** `Failure` stands for an exception the source raises to its caller. */
  datatype Result<+T, +E> = Success(value: T) | Failure(error: E)

  /** Python truthiness of an optional string: `None` and `""` are both false. */
  predicate Truthy(o: Option<string>) {
    o.Some? && o.value != ""
  }

  /** Python's `a or b` on optional strings. */
  function Or(a: Option<string>, b: Option<string>): Option<string> {
    if Truthy(a) then a else b
  }
}
