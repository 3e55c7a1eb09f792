/** Option and Outcome: the null/undefined values and the thrown errors of the source. */
module Wrappers {

  /** A value that may be absent (`null` / `undefined` in the source). */
  datatype Option<+T> = None | Some(value: T)

  /** The outcome of an operation that either completes or throws. */
  datatype Outcome<+E> = Pass | Fail(error: E)
}
