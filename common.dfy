/** Option and Result, the failure-compatible wrappers every other module uses
    for Python's `None` and for raised exceptions. */
module Common {

  datatype Option<+T> = None | Some(value: T)

  /** `Err` stands for an exception the Python code raises; it aborts the
      current evaluation, so every caller propagates it unchanged. */
  datatype Result<+T, +E> = Ok(value: T) | Err(error: E) {

    predicate IsFailure() {
      Err?
    }

    function PropagateFailure<U>(): Result<U, E>
      requires Err?
    {
      Err(error)
    }

    function Extract(): T
      requires Ok?
    {
      value
    }
  }
}
