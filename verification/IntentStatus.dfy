/** The status rules of a payment intent: apps/service/src/application/payment-state/intentStatus.ts. */
module IntentStatusRules {
  import opened Domain

  function ComputeIntentStatus(due: int, paid: int): IntentStatus
  {
    if paid <= 0 then RequiresPayment
    else if paid > due then Overpaid
    else if paid >= due then Paid
    else PartiallyPaid
  }

  /** The CASE expression of the refund update: the status itself unless everything paid went back. */
  function StatusAfterRefund(it: Intent, refunded: int): IntentStatus
  {
    if refunded > 0 && it.paid > 0 && refunded >= it.paid then IntentStatus.Refunded else it.status
  }

  function PayableError(it: Intent, now: Time): Option<ErrorCode>
  {
    if it.expiresAt.Some? && it.expiresAt.value <= now then Some(IntentExpired)
    else if !it.status.RequiresPayment? && !it.status.PartiallyPaid? then Some(IntentNotPayable)
    else None
  }

  function AmountError(it: Intent, amount: int): Option<ErrorCode>
  {
    if amount > it.remaining then Some(OverpaymentRejected)
    else if !it.allowPartial && amount != it.remaining then Some(PartialPaymentNotAllowed)
    else None
  }
}
