/** The outcome of an operation that the Python code either completes or
    aborts with an exception. `Failure` carries what the exception says. */
module Results {

  datatype Result<+T, +E> = Success(value: T) | Failure(error: E) {

    /** The `:-` operator stops at a Failure, as the exception propagates. */
    predicate IsFailure() {
      Failure?
    }

    /** The same exception, as the failure of the enclosing call. */
    function PropagateFailure<U>(): Result<U, E>
      requires Failure?
    {
      Failure(error)
    }

    /** What a completed call returned. */
    function Extract(): T
      requires Success?
    {
      value
    }
  }

  datatype Option<+T> = None | Some(value: T)
}
