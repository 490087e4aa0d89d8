/** Failure-carrying return values: Java's `null` results and thrown exceptions
    become `None`, `Err` and `Fail` values that callers match on. */
module Wrappers {

  /** A possibly absent value; `None` stands for Java's `null` or an empty `Optional`. */
  datatype Option<+T> = None | Some(value: T)

  /** A value, or the error an operation raised instead of producing it. */
  datatype Result<+T, +E> = Ok(value: T) | Err(error: E)

  /** The result of an operation that returns nothing but may fail. */
  datatype Outcome<+E> = Pass | Fail(error: E)
}
