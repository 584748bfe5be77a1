/** Failure-compatible result types shared by every module of the bill model.
    Each `Error` constructor stands for the Python exception the original
    program would raise at that point. */
module Outcomes {

  datatype Error =
    | MissingField    // IndexError: a split produced too few parts
    | NotANumber      // ValueError raised by int() or float()
    | InvalidDate     // ValueError raised by datetime.date
    | Overflow        // OverflowError: a datetime.date field beyond a C int
    | MissingPrice    // KeyError: no price for a record's date or hour
    | DivisionByZero  // ZeroDivisionError: no billing dates at all

  datatype Result<+T> = Ok(value: T) | Err(error: Error) {
    predicate IsFailure() {
      Err?
    }

    function PropagateFailure<U>(): Result<U>
      requires Err?
    {
      Err(error)
    }

    function Extract(): T
      requires Ok?
    {
      value
    }
  }

  /** Python's optional argument: `None` or a value. */
  datatype Option<+T> = None | Some(value: T)
}
