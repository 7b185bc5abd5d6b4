/** Optional values and value-or-error results: `Option` for lookups that
    may find nothing, `Result` for operations that return a value or an
    error (Go's `(T, error)` pairs). `Result` supports Dafny's `:-` operator. */
module Wrappers {

  datatype Option<+T> = None | Some(value: T)

  datatype Result<+T, +E> = Success(value: T) | Failure(error: E) {
    predicate IsFailure() {
      Failure?
    }

    function PropagateFailure<U>(): Result<U, E>
      requires Failure?
    {
      Failure(error)
    }

    function Extract(): T
      requires Success?
    {
      value
    }
  }
}
