/** Failure values shared by the averaging, partitioning and summation
    operations. Every error the Python code raises is a `ValueError`;
    the model keeps the three distinct reasons apart so that contracts
    can say which one a call produces. */
module Results {

  /** The optional `type` argument of the summation entry point: Python's
      `None` or a string. */
  datatype Option<+T> = None | Some(value: T)

  /** Why an operation refused its arguments. */
  datatype Failure =
    | TooFewArguments          // avg called with fewer than two numbers
    | StepTooLarge             // step wider than the interval being split
    | UnknownRule(got: string) // summation rule name not recognised

  /** Either the operation's value or the reason it raised. */
  datatype Result<+T> = Ok(value: T) | Err(error: Failure)
}
