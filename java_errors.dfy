/** The exceptions the modelled Java code can raise, and results that carry them. */
module JavaErrors {

  /** The Java exception a failing call ends with. */
  datatype Exception =
    | AssertionError            // an explicit `throw new AssertionError(...)`
    | NullPointer               // a method called on a null field
    | IndexOutOfBounds          // an array or list index outside its bounds
    | NegativeArraySize         // `new T[n]` with n < 0
    | Arithmetic                // integer division or remainder by zero
    | IllegalArgument           // `Random.nextInt(bound)` with bound <= 0

  /** The value a call returns, or the exception it throws. */
  datatype Result<+T> = Ok(value: T) | Err(error: Exception)

  /** A `void` call: it completes, or it throws. */
  datatype Outcome = Pass | Fail(error: Exception)

  /** A Java reference that may be null. */
  datatype Option<+T> = None | Some(value: T)
}
