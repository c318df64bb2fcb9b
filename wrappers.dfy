/** Option and Result values shared by every module of the model. */
module Wrappers {

  /** A value that may be absent, like a nil pointer or a nil interface in Go. */
  datatype Option<+T> = None | Some(value: T) {
    predicate IsFailure() {
      None?
    }

    function PropagateFailure<U>(): Option<U>
      requires None?
    {
      None
    }

    function Extract(): T
      requires Some?
    {
      value
    }
  }

  /** The (value, error) pair a Go function returns when exactly one of the two is non-nil. */
  datatype Result<+T, +E> = Success(value: T) | Failure(error: E)
}
