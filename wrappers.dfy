/** Option and Outcome, the two failure-carrying wrappers the callbacks need. */
module Wrappers {

  /** A value that may be absent: Python's `None` or a number. */
  datatype Option<+T> = None | Some(value: T)

  /** The result of a hook that either completes or raises. */
  datatype Outcome<+E> = Pass | Fail(error: E)
}
