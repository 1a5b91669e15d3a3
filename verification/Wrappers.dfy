/** The two result shapes used throughout: a missing value, and a Python
    exception (`AssertionError`, `KeyError`, `ParrotError`, ...) versus a value. */
module Wrappers {
  datatype Option<+T> = None | Some(value: T)

  datatype Result<+T> = Ok(value: T) | Raised {
    predicate IsFailure() { Raised? }
    function PropagateFailure<U>(): Result<U> requires Raised? { Raised }
    function Extract(): T requires Ok? { value }
  }
}
