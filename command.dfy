/** The request to credit a user's balance, and its validation. */
module Command {
  import opened Exceptions

  /** An immutable record; either field may be null. */
  datatype AddPaymentCommand = AddPaymentCommand(userId: Option<int>, amount: Option<real>)

  const USER_ID_NULL := "User ID cannot be null"
  const AMOUNT_NULL := "Amount cannot be null"
  const AMOUNT_NOT_POSITIVE := "Amount must be greater than zero"

  /**
   * Guard checks in a fixed order; the first one that fails throws an
   * IllegalArgumentException. The sign of the user id is not checked.
   */
  function Validate(cmd: AddPaymentCommand): (o: Outcome)
    ensures o.Pass? <==> cmd.userId.Some? && cmd.amount.Some? && cmd.amount.value > 0.0
    ensures o.Fail? ==> o.exception.IllegalArgument?
    ensures cmd.userId.None? ==> o.exception.message == USER_ID_NULL
    ensures cmd.userId.Some? && cmd.amount.None? ==> o.exception.message == AMOUNT_NULL
    ensures cmd.userId.Some? && cmd.amount.Some? && cmd.amount.value <= 0.0 ==>
              o.exception.message == AMOUNT_NOT_POSITIVE
  {
    if cmd.userId.None? then Fail(IllegalArgument(USER_ID_NULL))
    else if cmd.amount.None? then Fail(IllegalArgument(AMOUNT_NULL))
    else if cmd.amount.value <= 0.0 then Fail(IllegalArgument(AMOUNT_NOT_POSITIVE))
    else Pass
  }
}
