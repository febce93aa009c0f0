/** Failure-compatible wrappers shared by the three components. */
module Results {

  datatype Option<+T> = None | Some(value: T)

  /** The success-or-error value that the Rust functions return. */
  datatype Result<+T, +E> = Ok(value: T) | Err(error: E) {
    predicate IsFailure() {
      Err?
    }

    function PropagateFailure<U>(): Result<U, E>
      requires Err?
    {
      Err(error)
    }

    function Extract(): T
      requires Ok?
    {
      value
    }
  }
}
