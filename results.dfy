/** The source aborts the whole run (`ERROR`/`ASSERT` print and `exit(-1)`) on every
    fault.  The model returns the fault to the caller instead, as a `Result`. */
module Results {

  datatype Result<+T, +E> = Ok(value: T) | Err(error: E) {

    predicate IsFailure() {
      Err?
    }

    function PropagateFailure<U>(): Result<U, E>
      requires Err?
    {
      Err(error)
    }

    function Extract(): T
      requires Ok?
    {
      value
    }
  }

  datatype Option<+T> = None | Some(value: T)
}
