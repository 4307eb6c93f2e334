/**
 * Creating an intent and starting a payment on it. The idempotency keys of these two
 * use cases are modelled in module Idempotency.
 */
module CreateGatewayPayment {
  import opened Domain
  import opened IntentStatusRules
  import opened LedgerSpec
  import opened PaymentDb
  import opened Sequential

  /** What the provider's createPayment returned. */
  datatype Outcome =
    | Threw
    | Answered(status: PaymentStatus, reference: Reference, expiresAt: Option<Time>)

  type PaymentStatus = s: TxStatus |
    s.RequiresAction? || s.Succeeded? || s.Failed? || s.Pending? || s.Cancelled? || s.Expired?
    witness TxStatus.Pending

  datatype Created = Created(tx: Tx, intent: Intent)

  datatype Request = Request(
    merchant: MerchantId, intentId: IntentId, provider: Provider, amount: int, key: Option<IdempotencyKey>)

  /** The row the use case inserts: a success is recorded as pending until it is credited. */
  function Row(q: Request, it: Intent, p: Outcome): Tx
    requires p.Answered?
  {
    Tx(q.merchant, q.intentId, q.provider, Payment, Incoming,
       if p.status.Succeeded? then TxStatus.Pending else p.status,
       q.amount, it.currency, None, Some(p.reference), q.key, p.expiresAt)
  }

  /** Why a request is refused before the provider is called; `admission` is the verdict of the account and method checks. */
  function Refusal(l: Ledger, q: Request, now: Time, admission: Option<ErrorCode>): Option<ErrorCode>
  {
    if q.amount <= 0 then Some(ValidationError)
    else if !HasIntent(l, q.intentId, q.merchant) then Some(IntentNotFound)
    else if PayableError(l.intents[q.intentId], now).Some? then PayableError(l.intents[q.intentId], now)
    else if AmountError(l.intents[q.intentId], q.amount).Some? then AmountError(l.intents[q.intentId], q.amount)
    else admission
  }

  /** What a payable request looks like: an intent of the merchant, in time, still owing, for an amount it may be paid. */
  lemma RefusedExactly(l: Ledger, q: Request, now: Time, admission: Option<ErrorCode>)
    ensures q.amount <= 0 ==> Refusal(l, q, now, admission) == Some(ValidationError)
    ensures 0 < q.amount && (q.intentId in l.intents ==> l.intents[q.intentId].merchant != q.merchant) ==>
      Refusal(l, q, now, admission) == Some(IntentNotFound)
    ensures 0 < q.amount && q.intentId in l.intents && l.intents[q.intentId].merchant == q.merchant ==>
      var it := l.intents[q.intentId];
      var inTime := it.expiresAt == None || now < it.expiresAt.value;
      var owing := it.status in {RequiresPayment, PartiallyPaid};
      && (!inTime ==> Refusal(l, q, now, admission) == Some(IntentExpired))
      && (inTime && !owing ==> Refusal(l, q, now, admission) == Some(IntentNotPayable))
      && (inTime && owing && it.remaining < q.amount ==> Refusal(l, q, now, admission) == Some(OverpaymentRejected))
      && (inTime && owing && q.amount < it.remaining && !it.allowPartial ==>
            Refusal(l, q, now, admission) == Some(PartialPaymentNotAllowed))
      && (inTime && owing && (q.amount == it.remaining || (q.amount < it.remaining && it.allowPartial)) ==>
            Refusal(l, q, now, admission) == admission)
  {
  }

  /**
   * A request is either refused before the provider is called and changes nothing, or the
   * provider is called and its answer is recorded. When nothing else runs in between, a
   * success is always credited: a payment the provider has taken is never turned away.
   */
  method Execute(db: Tables, t: TxId, q: Request, now: Time, admission: Option<ErrorCode>, outcome: Outcome)
    returns (r: Result<Created>, providerCalled: bool)
    requires t !in db.txs
    modifies db
    ensures providerCalled <==> Refusal(old(db.View()), q, now, admission).None?
    ensures !providerCalled ==> db.View() == old(db.View()) && r == Err(Refusal(old(db.View()), q, now, admission).value)
    ensures providerCalled && outcome.Threw? ==> db.View() == old(db.View()) && r == Err(ProviderError)
    ensures providerCalled && outcome.Answered? ==>
      var l := old(db.View());
      var row := Row(q, l.intents[q.intentId], outcome);
      if !IndexesAdmit(l, t, row) then db.View() == l && r == Err(UniqueViolation)
      else
        && t in db.txs && q.intentId in db.intents && r == Ok(Created(db.txs[t], db.intents[q.intentId]))
        && Next(l, if outcome.status.Succeeded? then PaymentCredited(t, row) else PaymentRecorded(t, row), db.View())
        && (db.txs[t].status == outcome.status)
        && (outcome.status.Succeeded? ==> db.intents[q.intentId] == Credited(l.intents[q.intentId], q.amount))
    // the provider is only asked for what the intent still owes, in time
    ensures providerCalled ==>
      && 0 < q.amount && q.intentId in old(db.intents) && admission == None
      && (var it := old(db.intents)[q.intentId];
          && it.merchant == q.merchant && (it.expiresAt.Some? ==> now < it.expiresAt.value)
          && it.status in {RequiresPayment, PartiallyPaid}
          && q.amount <= it.remaining && (!it.allowPartial ==> q.amount == it.remaining))
    // one row is new, as the provider answered; a success moves the amount from what remains to what is paid
    ensures r.Ok? ==>
      && providerCalled && outcome.Answered? && t in db.txs && q.intentId in old(db.intents) && q.intentId in db.intents
      && (var was := old(db.intents)[q.intentId]; var it := db.intents[q.intentId];
          && db.txs == old(db.txs)[t := db.txs[t]] && db.intents == old(db.intents)[q.intentId := it]
          && db.txs[t] == Tx(q.merchant, q.intentId, q.provider, Payment, Incoming, outcome.status, q.amount, was.currency,
                             None, Some(outcome.reference), q.key, outcome.expiresAt)
          && r.value == Created(db.txs[t], it)
          && (outcome.status != TxStatus.Succeeded ==> it == was)
          && (outcome.status == TxStatus.Succeeded ==>
                && it.paid == was.paid + q.amount && it.remaining == was.remaining - q.amount
                && it.(paid := was.paid, remaining := was.remaining, status := was.status) == was))
  {
    providerCalled := false;
    if q.amount <= 0 { return Err(ValidationError), false; }
    var found := db.FindIntent(q.intentId, q.merchant);
    if found.None? { return Err(IntentNotFound), false; }
    var intent := found.value;
    var unpayable := PayableError(intent, now);
    if unpayable.Some? { return Err(unpayable.value), false; }
    var wrongAmount := AmountError(intent, q.amount);
    if wrongAmount.Some? { return Err(wrongAmount.value), false; }
    if admission.Some? { return Err(admission.value), false; }

    providerCalled := true;
    if outcome.Threw? { return Err(ProviderError), true; }
    var status: TxStatus := if outcome.status.Succeeded? then TxStatus.Pending else outcome.status;
    var inserted := db.CreateTx(t, Tx(q.merchant, q.intentId, q.provider, Payment, Incoming, status, q.amount,
                                      intent.currency, None, Some(outcome.reference), q.key, outcome.expiresAt));
    if inserted.Err? { return Err(inserted.code), true; }
    var updated := intent;
    var tx := inserted.value;
    if outcome.status.Succeeded? {
      var applied := db.ApplySucceededPayment(t, q.merchant, q.intentId, q.amount);
      updated := applied.value.intent;
      tx := applied.value.tx;
    }
    r := Ok(Created(tx, updated));
  }

  /** A new intent owes everything and has been paid nothing. */
  method CreatePaymentIntent(db: Tables, i: IntentId, m: MerchantId, due: int, allowPartial: bool, currency: Currency,
                             expiresAt: Option<Time>) returns (r: Result<Intent>)
    requires i !in db.intents
    modifies db
    ensures r.Err? <==> due <= 0
    ensures r.Err? ==> db.View() == old(db.View()) && r.code == ValidationError
    ensures r.Ok? ==>
      && db.txs == old(db.txs) && db.intents == old(db.intents)[i := r.value]
      && r.value == Intent(m, due, 0, 0, due, RequiresPayment, allowPartial, currency, expiresAt)
      && Next(old(db.View()), IntentCreated(i, m, due, allowPartial, currency, expiresAt), db.View())
  {
    if due <= 0 { return Err(ValidationError); }
    var it := db.CreateIntent(i, m, due, allowPartial, currency, expiresAt);
    r := Ok(it);
  }
}
