/** Entities of the payment ledger: one record per table row, one constructor per status. */
module Domain {

  datatype Option<+T> = None | Some(value: T)

  // Identifiers are opaque to the service (random UUIDs, caller-chosen keys): they are only
  // ever compared for equality.
  type MerchantId = nat
  type IntentId = nat
  type TxId = nat
  type IdempotencyKey = nat
  type Currency = nat

  // A provider's own name for a payment.
  type Reference = string

  // Milliseconds since the epoch.
  type Time = int

  datatype Provider = FakeGateway | Manual | XenditSandbox

  datatype IntentStatus =
    | RequiresPayment | PartiallyPaid | Paid | Overpaid | Refunded
    | Voided | Expired | Cancelled | Failed

  datatype Intent = Intent(
    merchant: MerchantId,
    due: int,
    paid: int,
    refunded: int,
    remaining: int,
    status: IntentStatus,
    allowPartial: bool,
    currency: Currency,
    expiresAt: Option<Time>)

  datatype TxStatus =
    | Pending | RequiresAction | Succeeded | Failed | Cancelled | Expired
    | Voided | Refunded | Reversed | Ignored
  {
    /** The statuses from which a payment may still be credited. */
    predicate Confirmable() { Pending? || RequiresAction? }
  }

  datatype Direction = Incoming | Outgoing

  datatype TxKind = Payment | Deposit | Settlement | Refund
  {
    predicate Refundable() { Payment? || Deposit? || Settlement? }
  }

  datatype Tx = Tx(
    merchant: MerchantId,
    intentId: IntentId,
    provider: Provider,
    kind: TxKind,
    direction: Direction,
    status: TxStatus,
    amount: int,
    currency: Currency,
    parent: Option<TxId>,
    reference: Option<Reference>,
    key: Option<IdempotencyKey>,
    expiresAt: Option<Time>)

  /** The two tables every use case works on. */
  datatype Ledger = Ledger(intents: map<IntentId, Intent>, txs: map<TxId, Tx>)

  datatype ErrorCode =
    | ValidationError | IntentNotFound | IntentExpired | IntentNotPayable
    | OverpaymentRejected | PartialPaymentNotAllowed
    | TransactionNotFound | InvalidTransactionStatus | TransactionNotRefundable
    | TransactionNotVoidable | RefundExceedsRefundable
    | IdempotencyConflict | UniqueViolation | ForbiddenInProduction
    | ProviderUnavailable | ProviderError | ProviderRefundFailed | ProviderCancelFailed

  datatype Result<+T> = Ok(value: T) | Err(code: ErrorCode)
}
