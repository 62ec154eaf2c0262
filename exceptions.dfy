/** Values standing in for Java's nulls and exceptions on the payment path. */
module Exceptions {

  /** A nullable Java reference: `None` is `null`. */
  datatype Option<+T> = None | Some(value: T)

  /**
   * The exceptions the payment path tells apart when it catches one:
   * an IllegalArgumentException, an SQLException, and anything else.
   */
  datatype Exception =
    | IllegalArgument(message: string)
    | SqlError(message: string)
    | OtherException(message: string)

  /** The completion of a Java method returning `void`: normal, or by a throw. */
  datatype Outcome = Pass | Fail(exception: Exception) {
    predicate IsFailure() {
      Fail?
    }

    function PropagateFailure<U>(): Result<U>
      requires Fail?
    {
      Err(exception)
    }
  }

  /** The completion of a Java method returning a value: normal, or by a throw. */
  datatype Result<+T> = Ok(value: T) | Err(exception: Exception) {
    predicate IsFailure() {
      Err?
    }

    function PropagateFailure<U>(): Result<U>
      requires Err?
    {
      Err(exception)
    }

    function Extract(): T
      requires Ok?
    {
      value
    }
  }
}
