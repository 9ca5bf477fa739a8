/** Failure-compatible result type for the operations of the model, and the
    errors the Python code raises on the paths the model covers. */
module Results {

  /** The exceptions the modelled code can raise. */
  datatype Error =
    | HStackMismatch      // numpy.hstack: covariate rows differ from the intercept column's rows
    | ShapeAssertion      // a failed `assert shape(...) == ...`
    | ZeroDivision        // float(r) / (n - p) with n == p
    | NegativeDimension   // numpy.ones(q) with q < 0

  /** An optional argument: Python's `None` or a value. */
  datatype Option<+T> = None | Some(value: T)

  datatype Result<+T> = Ok(value: T) | Err(error: Error) {

    predicate IsFailure() {
      Err?
    }

    function PropagateFailure<U>(): Result<U>
      requires Err?
    {
      Err(error)
    }

    function Extract(): T
      requires Ok?
    {
      value
    }
  }
}
