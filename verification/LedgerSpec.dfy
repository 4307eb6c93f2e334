/**
 * What each statement of the transaction and intent repositories does to the two tables.
 * Every function here is one atomic step: a single conditional UPDATE or INSERT, or one
 * database transaction.
 */
module LedgerSpec {
  import opened Domain
  import opened IntentStatusRules

  function Now(l: Ledger, i: IntentId, it: Intent): Ledger { l.(intents := l.intents[i := it]) }

  predicate HasTx(l: Ledger, t: TxId, m: MerchantId) { t in l.txs && l.txs[t].merchant == m }

  predicate HasIntent(l: Ledger, i: IntentId, m: MerchantId) { i in l.intents && l.intents[i].merchant == m }

  // ----- unique indexes of the transaction table -----

  predicate KeyFree(l: Ledger, t: TxId, m: MerchantId, key: Option<IdempotencyKey>)
  {
    key.Some? ==> forall u :: u in l.txs && u != t && l.txs[u].merchant == m ==> l.txs[u].key != key
  }

  predicate ReferenceFree(l: Ledger, t: TxId, p: Provider, reference: Option<Reference>)
  {
    reference.Some? ==> forall u :: u in l.txs && u != t && l.txs[u].provider == p ==> l.txs[u].reference != reference
  }

  predicate IndexesAdmit(l: Ledger, t: TxId, row: Tx)
  {
    KeyFree(l, t, row.merchant, row.key) && ReferenceFree(l, t, row.provider, row.reference)
  }

  // ----- inserts and status writes -----

  function InsertTx(l: Ledger, t: TxId, row: Tx): (Ledger, Result<Tx>)
  {
    if IndexesAdmit(l, t, row) then (l.(txs := l.txs[t := row]), Ok(row)) else (l, Err(UniqueViolation))
  }

  /** The columns a status write may change; `None` leaves a column as it is. */
  datatype TxChange = TxChange(status: TxStatus, reference: Option<Reference>, key: Option<IdempotencyKey>)
  {
    function Apply(row: Tx): Tx
    {
      row.(status := status,
           reference := if reference.Some? then reference else row.reference,
           key := if key.Some? then key else row.key)
    }
  }

  /** An index can only refuse a value the row does not carry yet. */
  predicate ChangeAdmitted(l: Ledger, t: TxId, change: TxChange)
    requires t in l.txs
  {
    var row := l.txs[t];
    && (change.key == row.key || KeyFree(l, t, row.merchant, change.key))
    && (change.reference == row.reference || ReferenceFree(l, t, row.provider, change.reference))
  }

  /** The unconditional status write: no guard on the row's current status. */
  function UpdateTxStatus(l: Ledger, t: TxId, m: MerchantId, change: TxChange): (Ledger, Result<Tx>)
  {
    if !HasTx(l, t, m) then (l, Err(TransactionNotFound))
    else
      var row := change.Apply(l.txs[t]);
      if ChangeAdmitted(l, t, change) then (l.(txs := l.txs[t := row]), Ok(row)) else (l, Err(UniqueViolation))
  }

  /** What the unique indexes guarantee of every stored table. */
  ghost predicate IndexesHold(l: Ledger)
  {
    forall t {:trigger l.txs[t]} :: t in l.txs ==> IndexesAdmit(l, t, l.txs[t])
  }

  /** Two rows may share neither a merchant and a key nor a provider and a reference. */
  lemma IndexesHoldExactly(l: Ledger)
    ensures IndexesHold(l) <==>
      forall t, u :: t in l.txs && u in l.txs && t != u ==>
        && !(l.txs[t].merchant == l.txs[u].merchant && l.txs[t].key != None && l.txs[t].key == l.txs[u].key)
        && !(l.txs[t].provider == l.txs[u].provider && l.txs[t].reference != None && l.txs[t].reference == l.txs[u].reference)
  {
    if IndexesHold(l) {
      forall t, u | t in l.txs && u in l.txs && t != u
        ensures !(l.txs[t].merchant == l.txs[u].merchant && l.txs[t].key != None && l.txs[t].key == l.txs[u].key)
        ensures !(l.txs[t].provider == l.txs[u].provider && l.txs[t].reference != None && l.txs[t].reference == l.txs[u].reference)
      {
        assert IndexesAdmit(l, t, l.txs[t]);
      }
    }
  }

  lemma StoredExactly(l: Ledger, t: TxId, row: Tx)
    requires IndexesHold(l)
    ensures IndexesHold(l.(txs := l.txs[t := row])) <==> IndexesAdmit(l, t, row)
  {
    var l' := l.(txs := l.txs[t := row]);
    assert l'.txs[t] == row;
    if IndexesHold(l') {
      assert IndexesAdmit(l', t, l'.txs[t]);
      assert forall u :: u in l.txs && u != t ==> u in l'.txs && l'.txs[u] == l.txs[u];
    }
    if IndexesAdmit(l, t, row) {
      forall u | u in l'.txs
        ensures IndexesAdmit(l', u, l'.txs[u])
      {
        if u != t { assert IndexesAdmit(l, u, l.txs[u]); }
      }
    }
  }

  /** An insert or a status write is refused exactly when it would break an index. */
  lemma RefusedByIndexesExactly(l: Ledger, t: TxId, row: Tx, change: TxChange)
    requires IndexesHold(l)
    ensures t !in l.txs ==> (InsertTx(l, t, row).1.Ok? <==> IndexesHold(l.(txs := l.txs[t := row])))
    ensures t in l.txs ==>
      (UpdateTxStatus(l, t, l.txs[t].merchant, change).1.Ok? <==> IndexesHold(l.(txs := l.txs[t := change.Apply(l.txs[t])])))
    ensures t !in l.txs && InsertTx(l, t, row).1.Err? ==> InsertTx(l, t, row) == (l, Err(UniqueViolation))
    ensures t in l.txs && UpdateTxStatus(l, t, l.txs[t].merchant, change).1.Err? ==>
      UpdateTxStatus(l, t, l.txs[t].merchant, change) == (l, Err(UniqueViolation))
  {
    StoredExactly(l, t, row);
    if t in l.txs {
      StoredExactly(l, t, change.Apply(l.txs[t]));
      assert IndexesAdmit(l, t, l.txs[t]);
    }
  }

  lemma WritesKeepIndexes(l: Ledger, t: TxId, row: Tx, m: MerchantId, change: TxChange)
    requires IndexesHold(l)
    ensures t !in l.txs ==> IndexesHold(InsertTx(l, t, row).0)
    ensures IndexesHold(UpdateTxStatus(l, t, m, change).0)
  {
  }

  function MarkSucceeded(l: Ledger, t: TxId): Ledger
    requires t in l.txs
  {
    l.(txs := l.txs[t := l.txs[t].(status := TxStatus.Succeeded)])
  }

  // ----- the two atomic credits -----

  datatype Credit = Credit(tx: Tx, intent: Intent, changed: bool)

  /** The intent columns after an amount is credited, status recomputed by the CASE expression. */
  function Credited(it: Intent, amount: int): Intent
  {
    it.(paid := it.paid + amount,
        remaining := it.remaining - amount,
        status := if it.paid + amount > it.due then Overpaid
                  else if it.paid + amount >= it.due then Paid
                  else if it.paid + amount > 0 then PartiallyPaid
                  else RequiresPayment)
  }

  function ApplySucceededPayment(l: Ledger, t: TxId, m: MerchantId, i: IntentId, amount: int): (Ledger, Result<Credit>)
  {
    if HasTx(l, t, m) && l.txs[t].status.Confirmable() then
      if HasIntent(l, i, m) && l.intents[i].remaining >= amount then
        var l' := Now(MarkSucceeded(l, t), i, Credited(l.intents[i], amount));
        (l', Ok(Credit(l'.txs[t], l'.intents[i], true)))
      else (l, Err(OverpaymentRejected))
    else if HasTx(l, t, m) && l.txs[t].status.Succeeded? then
      if HasIntent(l, i, m) then (l, Ok(Credit(l.txs[t], l.intents[i], false))) else (l, Err(IntentNotFound))
    else (l, Err(InvalidTransactionStatus))
  }

  /** The credit every caller makes: the row's own merchant, intent and amount. */
  function CreditRow(l: Ledger, t: TxId): (Ledger, Result<Credit>)
    requires t in l.txs
  {
    ApplySucceededPayment(l, t, l.txs[t].merchant, l.txs[t].intentId, l.txs[t].amount)
  }

  function RefundedBy(it: Intent, amount: int): Intent
  {
    it.(refunded := it.refunded + amount,
        status := if it.paid > 0 && it.refunded + amount >= it.paid then IntentStatus.Refunded else it.status)
  }

  /** Not conditional on the refund row's status: it relies on being run once per refund row. */
  function ApplySucceededRefund(l: Ledger, t: TxId, m: MerchantId, i: IntentId, amount: int,
                                      reference: Option<Reference>): (Ledger, Result<Credit>)
  {
    var (l1, marked) := UpdateTxStatus(l, t, m, TxChange(TxStatus.Succeeded, reference, None));
    if marked.Err? then (l, Err(marked.code))
    else if HasIntent(l, i, m) && l.intents[i].refunded + amount <= l.intents[i].paid then
      var l' := Now(l1, i, RefundedBy(l.intents[i], amount));
      (l', Ok(Credit(l'.txs[t], l'.intents[i], true)))
    else (l, Err(RefundExceedsRefundable))
  }

  /** When the guarded credit credits, has been before, or refuses, and that a refusal leaves no trace. */
  lemma CreditAnswersExactly(l: Ledger, t: TxId, m: MerchantId, i: IntentId, amount: int)
    ensures var (l', r) := ApplySucceededPayment(l, t, m, i, amount);
      var mine := t in l.txs && l.txs[t].merchant == m;
      var open := mine && l.txs[t].status in {TxStatus.Pending, RequiresAction};
      var before := mine && l.txs[t].status == TxStatus.Succeeded;
      var known := i in l.intents && l.intents[i].merchant == m;
      && (r.Ok? && r.value.changed <==> open && known && amount <= l.intents[i].remaining)
      && (r.Ok? && !r.value.changed <==> before && known)
      && (r == Err(OverpaymentRejected) <==> open && !(known && amount <= l.intents[i].remaining))
      && (r == Err(IntentNotFound) <==> before && !known)
      && (r == Err(InvalidTransactionStatus) <==> !open && !before)
      && (r.Ok? ==> t in l'.txs && i in l'.intents && r.value.tx == l'.txs[t] && r.value.intent == l'.intents[i])
      && (!(r.Ok? && r.value.changed) ==> l' == l)
  {
  }

  /** The same for the guarded refund, which no status of its row can stop. */
  lemma RefundAnswersExactly(l: Ledger, t: TxId, m: MerchantId, i: IntentId, amount: int, reference: Option<Reference>)
    requires IndexesHold(l)
    ensures var (l', r) := ApplySucceededRefund(l, t, m, i, amount, reference);
      var mine := t in l.txs && l.txs[t].merchant == m;
      var taken := mine && reference != None
        && exists u :: u in l.txs && u != t && l.txs[u].provider == l.txs[t].provider && l.txs[u].reference == reference;
      var room := i in l.intents && l.intents[i].merchant == m && l.intents[i].refunded + amount <= l.intents[i].paid;
      && (r.Ok? <==> mine && !taken && room)
      && (r == Err(TransactionNotFound) <==> !mine)
      && (r == Err(UniqueViolation) <==> taken)
      && (r == Err(RefundExceedsRefundable) <==> mine && !taken && !room)
      && (r.Ok? ==> t in l'.txs && i in l'.intents && r.value == Credit(l'.txs[t], l'.intents[i], true)
                    && l'.txs[t].status == TxStatus.Succeeded && l'.intents[i].refunded == l.intents[i].refunded + amount)
      && (r.Err? ==> l' == l)
  {
    if t in l.txs { assert IndexesAdmit(l, t, l.txs[t]); }
  }

  /**
   * The status rules are written twice, in SQL and in the service. They agree on a credit unless
   * nothing is due and nothing comes of it, and on a refund unless nothing has been refunded.
   */
  lemma StatusRulesAgree(it: Intent, amount: int)
    ensures Credited(it, amount).status == ComputeIntentStatus(it.due, it.paid + amount)
      <==> 0 < it.paid + amount || it.paid + amount < it.due
    ensures RefundedBy(it, amount).status == StatusAfterRefund(it, it.refunded + amount)
      <==> 0 < it.refunded + amount || it.paid <= 0 || it.refunded + amount < it.paid || it.status.Refunded?
  {
  }

  // ----- absolute writes of the intent repository -----

  function UpdateTotals(l: Ledger, i: IntentId, paid: int, refunded: int, remaining: int): Ledger
    requires i in l.intents
  {
    Now(l, i, l.intents[i].(paid := paid, refunded := refunded, remaining := remaining))
  }

  function UpdateIntentStatus(l: Ledger, i: IntentId, status: IntentStatus): Ledger
    requires i in l.intents
  {
    Now(l, i, l.intents[i].(status := status))
  }

  function NewIntent(m: MerchantId, due: int, allowPartial: bool, currency: Currency, expiresAt: Option<Time>): Intent
  {
    Intent(m, due, 0, 0, due, RequiresPayment, allowPartial, currency, expiresAt)
  }
}
