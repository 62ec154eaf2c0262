/** The outcome record a payment attempt returns to its caller. */
module PaymentResults {
  import opened Exceptions

  const SUCCESS := "SUCCESS"
  const FAILED_PREFIX := "FAILED: "

  /** The generation timestamp of the record is not modelled. */
  datatype PaymentResult = PaymentResult(
    transferId: Option<int>,
    userId: Option<int>,
    amount: Option<real>,
    newBalance: Option<real>,
    status: string)

  predicate Succeeded(r: PaymentResult) {
    r.status == SUCCESS
  }

  function Success(transferId: int, userId: int, amount: real, newBalance: real): (r: PaymentResult)
    ensures Succeeded(r)
    ensures r.transferId == Some(transferId) && r.userId == Some(userId)
    ensures r.amount == Some(amount) && r.newBalance == Some(newBalance)
  {
    PaymentResult(Some(transferId), Some(userId), Some(amount), Some(newBalance), SUCCESS)
  }

  function Failure(userId: Option<int>, amount: Option<real>, errorMessage: string): (r: PaymentResult)
    ensures !Succeeded(r)
    ensures r.transferId.None? && r.newBalance.None?
    ensures r.userId == userId && r.amount == amount
    ensures |r.status| == |FAILED_PREFIX| + |errorMessage|
    ensures r.status[..|FAILED_PREFIX|] == FAILED_PREFIX && r.status[|FAILED_PREFIX|..] == errorMessage
  {
    var status := FAILED_PREFIX + errorMessage;
    assert status[0] != SUCCESS[0];
    PaymentResult(None, userId, amount, None, status)
  }
}
