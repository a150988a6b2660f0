/** Option and Outcome, the two failure-compatible shapes the model needs. */
module Wrappers {

  datatype Option<+T> = None | Some(value: T)

  /** The result of an awaited operation that either completes or rejects with an error. */
  datatype Outcome<+E> = Pass | Fail(error: E)
}
