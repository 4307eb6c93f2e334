/**
 * The three use cases that credit a payment by reading the intent, marking the row and
 * writing totals in separate statements: status refresh, event reprocessing, and the
 * confirm fallback. Run alone, each amounts to the single guarded update. A process that
 * stops between its statements leaves a state described here exactly.
 */
module CreditPaths {
  import opened Domain
  import opened IntentStatusRules
  import opened LedgerSpec
  import opened LedgerInvariant
  import opened PaymentDb
  import opened Sequential

  /** Where the process stops, if it does: after the row is marked, or after the totals are written. */
  datatype Stop = Never | AfterMark | AfterTotals

  function Max0(x: int): int { if x > 0 then x else 0 }

  /** The two states a crash inside a credit can leave. */
  function Crashed(l: Ledger, t: TxId, stop: Stop): Ledger
    requires t in l.txs && l.txs[t].intentId in l.intents && !stop.Never?
  {
    var i, amount := l.txs[t].intentId, l.txs[t].amount;
    var it := l.intents[i];
    var marked := MarkSucceeded(l, t);
    if stop.AfterMark? then marked
    else LedgerSpec.UpdateTotals(marked, i, it.paid + amount, it.refunded, Max0(it.due - (it.paid + amount)))
  }

  /**
   * What a crash leaves undone: after the mark the whole intent, after the totals only its
   * status, which is then still the one from before.
   */
  lemma CrashedColumns(l: Ledger, t: TxId)
    requires Sound(l, t) && Credits(l, t)
    ensures var i, done := l.txs[t].intentId, CreditRow(l, t).0;
      && Crashed(l, t, AfterMark) == Ledger(l.intents, done.txs)
      && Crashed(l, t, AfterTotals).txs == done.txs
      && Crashed(l, t, AfterTotals).intents == l.intents[i := done.intents[i].(status := l.intents[i].status)]
  {
  }

  /** A verdict that credits: the row is still open and the intent has room for it. */
  predicate Credits(l: Ledger, t: TxId)
    requires t in l.txs
  {
    && l.txs[t].status.Confirmable()
    && HasIntent(l, l.txs[t].intentId, l.txs[t].merchant)
    && l.txs[t].amount <= l.intents[l.txs[t].intentId].remaining
  }

  predicate Overpays(l: Ledger, t: TxId)
    requires t in l.txs
  {
    && l.txs[t].status.Confirmable()
    && HasIntent(l, l.txs[t].intentId, l.txs[t].merchant)
    && l.intents[l.txs[t].intentId].remaining < l.txs[t].amount
  }

  /** What the invariant says of one row and its intent. */
  predicate Sound(l: Ledger, t: TxId)
  {
    t in l.txs && RowOk(l, l.txs[t]) && IntentOk(l.intents[l.txs[t].intentId])
  }

  lemma InvMakesSound(l: Ledger, t: TxId)
    requires LedgerInv(l) && t in l.txs
    ensures Sound(l, t)
  {
    assert RowOk(l, l.txs[t]);
  }

  predicate Decisive(v: TxStatus) { v.Succeeded? || v.Failed? || v.Cancelled? || v.Expired? }

  /**
   * A verdict in terms of columns. Only an open row is moved, and only by the four verdicts that
   * decide: a success that fits marks it and moves its amount from what its intent still owes to
   * what is paid, the others close the row under their own name and leave every intent alone.
   */
  lemma VerdictColumns(l: Ledger, t: TxId, verdict: TxStatus, reference: Option<Reference>)
    requires Sound(l, t)
    ensures var row := l.txs[t];
      var i, l' := row.intentId, VerdictEffect(l, t, verdict, reference);
      var it := l.intents[i];
      var open := row.status in {TxStatus.Pending, RequiresAction};
      && i in l'.intents && l'.txs == l.txs[t := l'.txs[t]] && l'.intents == l.intents[i := l'.intents[i]]
      && (!open || verdict !in {TxStatus.Succeeded, TxStatus.Failed, TxStatus.Cancelled, TxStatus.Expired} ==> l' == l)
      && (open && verdict == TxStatus.Succeeded && it.remaining < row.amount ==> l' == l)
      && (open && verdict == TxStatus.Succeeded && row.amount <= it.remaining ==>
            && l'.txs[t] == row.(status := TxStatus.Succeeded)
            && l'.intents[i] == it.(paid := it.paid + row.amount, remaining := it.remaining - row.amount,
                                    status := if row.amount == it.remaining then Paid else PartiallyPaid))
      && (open && verdict in {TxStatus.Failed, TxStatus.Cancelled, TxStatus.Expired} ==>
            && l'.intents == l.intents
            && (if exists u :: u in l.txs && u != t && l.txs[u].provider == row.provider && reference.Some?
                               && l.txs[u].reference == reference && row.reference != reference then l' == l
                else l'.txs[t] == row.(status := verdict, reference := if reference.Some? then reference else row.reference)))
  {
  }

  // ----- RefreshProviderStatus -----

  predicate RefreshTerminal(s: TxStatus)
  {
    s.Succeeded? || s.Failed? || s.Cancelled? || s.Expired? || s.Voided? || s.Refunded?
  }

  datatype Refreshed = Refreshed(tx: Tx, intent: Option<Intent>, changed: bool)

  /** `polled` is what the adapter answers, `None` when it cannot be polled. */
  method RefreshProviderStatus(db: Tables, t: TxId, m: MerchantId, polled: Option<TxStatus>,
                               reference: Option<Reference>, stop: Stop) returns (r: Result<Refreshed>)
    modifies db
    ensures (t in old(db.txs) ==> old(db.txs)[t].merchant != m) ==> db.View() == old(db.View()) && r == Err(TransactionNotFound)
    ensures HasTx(old(db.View()), t, m) && polled.None? ==> db.View() == old(db.View()) && r == Err(ProviderUnavailable)
    ensures HasTx(old(db.View()), t, m) && polled.Some? && Sound(old(db.View()), t) ==>
      var l := old(db.View());
      if polled.value.Succeeded? && Credits(l, t) && !stop.Never? then
        db.View() == Crashed(l, t, stop)
      else
        && db.View() == VerdictEffect(l, t, polled.value, reference)
        && (r.Ok? ==> l.txs[t].intentId in db.intents && r.value.intent == Some(db.intents[l.txs[t].intentId]))
        && (r.Ok? ==> r.value.tx == db.txs[t] && (r.value.changed <==> l.txs[t].status.Confirmable() && Decisive(polled.value)))
        && (polled.value.Succeeded? ==> (r.Err? <==> Overpays(l, t)) && (r.Err? ==> r.code == OverpaymentRejected))
        && (!polled.value.Succeeded? ==>
              (r.Err? <==> l.txs[t].status.Confirmable() && Decisive(polled.value)
                           && UpdateTxStatus(l, t, m, TxChange(polled.value, reference, None)).1.Err?))
  {
    var found := db.FindTx(t, m);
    if found.None? { return Err(TransactionNotFound); }
    var tx := found.value;
    if polled.None? { return Err(ProviderUnavailable); }
    var intent := db.FindIntent(tx.intentId, tx.merchant);
    var changed := false;
    if polled.value.Succeeded? && !tx.status.Succeeded? {
      if !RefreshTerminal(tx.status) {
        if intent.Some? && tx.amount > intent.value.remaining { return Err(OverpaymentRejected); }
        changed := db.MarkSucceededIfConfirmable(t, tx.merchant);
        if changed {
          if stop.AfterMark? { return Ok(Refreshed(tx, intent, changed)); }
          tx := tx.(status := TxStatus.Succeeded);
          if intent.Some? {
            var paid := intent.value.paid + tx.amount;
            var _ := db.UpdateTotals(tx.intentId, tx.merchant, paid, intent.value.refunded, Max0(intent.value.due - paid));
            if stop.AfterTotals? { return Ok(Refreshed(tx, intent, changed)); }
            var written := db.UpdateIntentStatus(tx.intentId, tx.merchant, ComputeIntentStatus(intent.value.due, paid));
            if written.Ok? { intent := Some(written.value); }
          }
        } else {
          var reloaded := db.FindTx(t, tx.merchant);
          if reloaded.Some? { tx := reloaded.value; }
          intent := db.FindIntent(tx.intentId, tx.merchant);
        }
      }
    } else if (polled.value.Failed? || polled.value.Cancelled? || polled.value.Expired?) && !RefreshTerminal(tx.status) {
      var closed := db.UpdateStatus(t, tx.merchant, TxChange(polled.value, if reference.Some? then reference else tx.reference, None));
      if closed.Err? { return Err(closed.code); }
      tx := closed.value;
      changed := true;
    }
    r := Ok(Refreshed(tx, intent, changed));
  }

  // ----- ReprocessProviderEvents -----

  predicate ReplayTerminal(s: TxStatus)
  {
    s.Succeeded? || s.Failed? || s.Cancelled? || s.Expired? || s.Reversed?
  }

  /** `applySucceeded` of the reprocess use case: silent on a closed row, an error when the intent has no room. */
  method ReplaySucceeded(db: Tables, t: TxId, stop: Stop) returns (error: Option<ErrorCode>)
    requires t in db.txs
    modifies db
    ensures Sound(old(db.View()), t) ==>
      var l := old(db.View());
      if Credits(l, t) && !stop.Never? then db.View() == Crashed(l, t, stop)
      else db.View() == VerdictEffect(l, t, TxStatus.Succeeded, None) && (error.Some? <==> Overpays(l, t))
    ensures error.Some? ==> db.View() == old(db.View()) && error.value == OverpaymentRejected
  {
    var tx := db.txs[t];
    var intent := db.FindIntent(tx.intentId, tx.merchant);
    if tx.status.Succeeded? || ReplayTerminal(tx.status) { return None; }
    if intent.Some? && tx.amount > intent.value.remaining { return Some(OverpaymentRejected); }
    var changed := db.MarkSucceededIfConfirmable(t, tx.merchant);
    if changed && stop.AfterMark? { return None; }
    if changed && intent.Some? {
      var paid := intent.value.paid + tx.amount;
      var _ := db.UpdateTotals(tx.intentId, tx.merchant, paid, intent.value.refunded, Max0(intent.value.due - paid));
      if stop.AfterTotals? { return None; }
      var _ := db.UpdateIntentStatus(tx.intentId, tx.merchant, ComputeIntentStatus(intent.value.due, paid));
    }
    error := None;
  }

  // ----- ConfirmFakeGatewayPayment -----

  datatype Confirmed = Confirmed(tx: Tx, intent: Intent, already: bool)

  /**
   * `atomic` selects the branch: the single guarded update, or the fallback that reads,
   * checks and writes. Both answer alike and leave the same ledger.
   */
  method ConfirmFakeGatewayPayment(db: Tables, t: TxId, m: MerchantId, production: bool, atomic: bool, stop: Stop)
    returns (r: Result<Confirmed>)
    modifies db
    ensures production ==> db.View() == old(db.View()) && r == Err(ForbiddenInProduction)
    ensures !production && (t in old(db.txs) ==> old(db.txs)[t].merchant != m) ==>
      db.View() == old(db.View()) && r == Err(TransactionNotFound)
    ensures !production && HasTx(old(db.View()), t, m) && Sound(old(db.View()), t) ==>
      var l := old(db.View());
      var (l', credit) := CreditRow(l, t);
      if Credits(l, t) && !atomic && !stop.Never? then db.View() == Crashed(l, t, stop)
      else
        && db.View() == l' == VerdictEffect(l, t, TxStatus.Succeeded, None)
        && r == (if credit.Ok? then Ok(Confirmed(credit.value.tx, credit.value.intent, !credit.value.changed)) else Err(credit.code))
        // confirmed means succeeded, now or before; and each refusal has its reason
        && (r.Ok? ==>
              && l.txs[t].intentId in db.intents && r.value.tx == db.txs[t] && r.value.intent == db.intents[l.txs[t].intentId]
              && db.txs[t].status == TxStatus.Succeeded && (r.value.already <==> l.txs[t].status == TxStatus.Succeeded))
        && (r.Err? ==> db.View() == l)
        && (r == Err(InvalidTransactionStatus) <==> l.txs[t].status !in {TxStatus.Succeeded, TxStatus.Pending, RequiresAction})
        && (r == Err(OverpaymentRejected) <==>
              l.txs[t].status in {TxStatus.Pending, RequiresAction} && l.intents[l.txs[t].intentId].remaining < l.txs[t].amount)
  {
    if production { return Err(ForbiddenInProduction); }
    var found := db.FindTx(t, m);
    if found.None? { return Err(TransactionNotFound); }
    var tx := found.value;
    var loaded := db.FindIntent(tx.intentId, m);
    if tx.status.Succeeded? {
      if loaded.None? { return Err(IntentNotFound); }
      return Ok(Confirmed(tx, loaded.value, true));
    }
    if !tx.status.Confirmable() { return Err(InvalidTransactionStatus); }
    if loaded.None? { return Err(IntentNotFound); }
    var intent := loaded.value;

    if atomic {
      var applied := db.ApplySucceededPayment(t, m, tx.intentId, tx.amount);
      if applied.Err? { return Err(applied.code); }
      return Ok(Confirmed(applied.value.tx, applied.value.intent, !applied.value.changed));
    }
    if tx.amount > intent.remaining { return Err(OverpaymentRejected); }
    var changed := db.MarkSucceededIfConfirmable(t, m);
    assert changed;  // run alone, the row found open above is still open; the reload branch serves concurrent confirms
    if stop.AfterMark? { return Ok(Confirmed(tx, intent, false)); }
    var paid := intent.paid + tx.amount;
    var _ := db.UpdateTotals(tx.intentId, m, paid, intent.refunded, Max0(intent.due - paid));
    if stop.AfterTotals? { return Ok(Confirmed(tx, intent, false)); }
    var written := db.UpdateIntentStatus(tx.intentId, m, ComputeIntentStatus(intent.due, paid));
    intent := written.value;
    tx := tx.(status := TxStatus.Succeeded);
    r := Ok(Confirmed(tx, intent, false));
  }
}
