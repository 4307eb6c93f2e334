/** Cancelling a payment that has not succeeded. */
module VoidPayment {
  import opened Domain
  import opened LedgerSpec
  import opened PaymentDb
  import opened Sequential

  /** What the transaction's provider can do: nothing, cancel, or refuse to. */
  datatype Adapter =
    | Absent
    | Cancels(reference: Option<Reference>)
    | Rejects(reference: Option<Reference>)

  datatype Outcome = Outcome(tx: Tx, intent: Option<Intent>, providerCancelled: bool, replay: bool)

  /** Why an open or closed transaction is not voided, once its key has been looked at. */
  function Refusal(l: Ledger, t: TxId, adapter: Adapter): Option<ErrorCode>
    requires t in l.txs
  {
    if !l.txs[t].status.Confirmable() || !l.txs[t].direction.Incoming? then Some(TransactionNotVoidable)
    else if adapter.Absent? && !l.txs[t].provider.Manual? then Some(ProviderUnavailable)
    else None
  }

  function Change(adapter: Adapter, key: Option<IdempotencyKey>): TxChange
  {
    match adapter
    case Absent => TxChange(TxStatus.Cancelled, None, key)
    case Cancels(reference) => TxChange(TxStatus.Cancelled, reference, key)
    case Rejects(reference) => TxChange(TxStatus.Failed, reference, None)
  }

  /** What a void answers and leaves once its key is no hindrance: a replay, a refusal, or a row that is closed. */
  ghost predicate Decides(l: Ledger, t: TxId, m: MerchantId, key: Option<IdempotencyKey>, adapter: Adapter, r: Result<Outcome>, l': Ledger)
    requires HasTx(l, t, m)
  {
    var tx := l.txs[t];
    var intent := if HasIntent(l, tx.intentId, m) then Some(l.intents[tx.intentId]) else None;
    if tx.status.Cancelled? || tx.status.Voided? then
      // already cancelled: replayed under the stored key, refused otherwise
      && l' == l
      && r == if key.Some? && tx.key == key then Ok(Outcome(tx, intent, false, true)) else Err(TransactionNotVoidable)
    else if Refusal(l, t, adapter).Some? then
      l' == l && r == Err(Refusal(l, t, adapter).value)
    else
      // open: cancelled, or failed when the provider refuses; in both cases the row is closed
      var (after, written) := UpdateTxStatus(l, t, m, Change(adapter, key));
      && l' == after && Next(l, PaymentClosed(t, Change(adapter, key)), l')
      && r == (if written.Err? then Err(written.code)
               else if adapter.Rejects? then Err(ProviderCancelFailed)
               else Ok(Outcome(written.value, intent, adapter.Cancels?, false)))
  }

  /** A key found on another transaction is a conflict; it is found whenever it is not on this one too. */
  ghost predicate Voids(l: Ledger, t: TxId, m: MerchantId, key: Option<IdempotencyKey>, adapter: Adapter, r: Result<Outcome>, l': Ledger)
    requires HasTx(l, t, m)
  {
    var taken := key.Some? && exists u :: u in l.txs && u != t && l.txs[u].merchant == m && l.txs[u].key == key;
    || (taken && l' == l && r == Err(IdempotencyConflict))
    || ((taken ==> l.txs[t].key == key) && Decides(l, t, m, key, adapter, r, l'))
  }

  /**
   * Only an open incoming payment is ever touched, and only its status, reference and key. An
   * answer other than a replay finds it cancelled under the key; a refusal by the provider leaves
   * it failed with the key it had.
   */
  lemma VoidColumns(l: Ledger, t: TxId, m: MerchantId, key: Option<IdempotencyKey>, adapter: Adapter, r: Result<Outcome>, l': Ledger)
    requires HasTx(l, t, m) && Voids(l, t, m, key, adapter, r, l')
    ensures l'.intents == l.intents && t in l'.txs && l'.txs == l.txs[t := l'.txs[t]]
    ensures l'.txs[t] != l.txs[t] ==> l.txs[t].status in {TxStatus.Pending, RequiresAction} && l.txs[t].direction == Incoming
    ensures r.Ok? ==> var i := l.txs[t].intentId;
      r.value.intent == if i in l.intents && l.intents[i].merchant == m then Some(l.intents[i]) else None
    ensures r.Ok? && r.value.replay ==> l' == l && l.txs[t].key == key && r.value.tx == l.txs[t]
    ensures r.Ok? && !r.value.replay ==>
      && (adapter != Absent || l.txs[t].provider == Manual) && (r.value.providerCancelled <==> adapter != Absent)
      && l'.txs[t] == l.txs[t].(status := TxStatus.Cancelled, key := if key.Some? then key else l.txs[t].key,
                                reference := if adapter.Cancels? && adapter.reference.Some? then adapter.reference else l.txs[t].reference)
      && r.value.tx == l'.txs[t]
    ensures r == Err(ProviderCancelFailed) ==>
      l'.txs[t] == l.txs[t].(status := TxStatus.Failed,
                             reference := if adapter.Rejects? && adapter.reference.Some? then adapter.reference else l.txs[t].reference)
    ensures r.Err? && r.code != ProviderCancelFailed ==> l' == l
  {
  }

  /** When a void is refused: as a conflict, as not voidable, or as not supported by the provider. */
  lemma VoidRefusals(l: Ledger, t: TxId, m: MerchantId, key: Option<IdempotencyKey>, adapter: Adapter, r: Result<Outcome>, l': Ledger)
    requires HasTx(l, t, m) && Voids(l, t, m, key, adapter, r, l')
    ensures var tx := l.txs[t];
      var elsewhere := key.Some? && exists u :: u in l.txs && u != t && l.txs[u].merchant == m && l.txs[u].key == key;
      var open := tx.status in {TxStatus.Pending, RequiresAction} && tx.direction == Incoming;
      var replayed := tx.status in {TxStatus.Cancelled, TxStatus.Voided} && key.Some? && tx.key == key;
      var reachable := adapter != Absent || tx.provider == Manual;
      && (r == Err(IdempotencyConflict) ==> elsewhere)
      && (elsewhere && tx.key != key ==> r == Err(IdempotencyConflict))
      && (!elsewhere ==> (r == Err(TransactionNotVoidable) <==> !open && !replayed))
      && (!elsewhere ==> (r == Err(ProviderUnavailable) <==> open && !reachable))
      && (!elsewhere && replayed ==> r.Ok? && r.value.replay)
  {
  }

  /**
   * However much later, the key of a cancellation answers a void of the same transaction by the
   * row as it was cancelled, changes nothing, and conflicts on every other transaction.
   */
  lemma SecondVoidReplays(l: Ledger, t: TxId, m: MerchantId, key: Option<IdempotencyKey>, adapter: Adapter, r: Result<Outcome>, l': Ledger,
                          later: Ledger, u: TxId, adapter': Adapter, r': Result<Outcome>, l'': Ledger)
    requires HasTx(l, t, m) && Voids(l, t, m, key, adapter, r, l') && r.Ok? && !r.value.replay && key.Some?
    requires Grows(l', later) && IndexesHold(later)
    requires HasTx(later, u, m) && Voids(later, u, m, key, adapter', r', l'')
    ensures l'' == later
    ensures if u == t then r'.Ok? && r'.value.tx == r.value.tx && r'.value.replay && !r'.value.providerCancelled else r' == Err(IdempotencyConflict)
  {
    assert l'.txs[t].status == TxStatus.Cancelled && l'.txs[t].key == key;
    assert SameRow(l'.txs[t], later.txs[t]) && later.txs[t] == l'.txs[t];
    assert IndexesAdmit(later, t, later.txs[t]);
  }

  method Execute(db: Tables, t: TxId, m: MerchantId, key: Option<IdempotencyKey>, adapter: Adapter) returns (r: Result<Outcome>)
    modifies db
    ensures (t in old(db.txs) ==> old(db.txs)[t].merchant != m) ==> db.View() == old(db.View()) && r == Err(TransactionNotFound)
    ensures HasTx(old(db.View()), t, m) ==> Voids(old(db.View()), t, m, key, adapter, r, db.View())
    // a cancellation is stored as cancelled, one the provider refused as failed
    ensures r.Ok? ==> t in db.txs && r.value.tx == db.txs[t] && (r.value.replay || db.txs[t].status == TxStatus.Cancelled)
    ensures r == Err(ProviderCancelFailed) ==> t in db.txs && db.txs[t].status == TxStatus.Failed
  {
    var found := db.FindTx(t, m);
    if found.None? { return Err(TransactionNotFound); }
    var tx := found.value;
    if key.Some? {
      var existing := db.FindByKey(m, key.value);
      if existing.Some? && existing.value != t { return Err(IdempotencyConflict); }
    }
    if tx.status.Cancelled? || tx.status.Voided? {
      if key.Some? && tx.key == key {
        var intent := db.FindIntent(tx.intentId, m);
        return Ok(Outcome(tx, intent, false, true));
      }
      return Err(TransactionNotVoidable);
    }
    if !tx.status.Confirmable() || !tx.direction.Incoming? { return Err(TransactionNotVoidable); }
    if adapter.Absent? && !tx.provider.Manual? { return Err(ProviderUnavailable); }
    if adapter.Rejects? {
      var failed := db.UpdateStatus(t, m, TxChange(TxStatus.Failed, adapter.reference, None));
      if failed.Err? { return Err(failed.code); }
      return Err(ProviderCancelFailed);
    }
    var reference := if adapter.Cancels? then adapter.reference else None;
    var cancelled := db.UpdateStatus(t, m, TxChange(TxStatus.Cancelled, reference, key));
    if cancelled.Err? { return Err(cancelled.code); }
    var intent := db.FindIntent(tx.intentId, m);
    r := Ok(Outcome(cancelled.value, intent, adapter.Cancels?, false));
  }
}
