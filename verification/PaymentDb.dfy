/**
 * The transaction and intent repositories over their two tables. Each method is one
 * statement or one database transaction of the service.
 */
module PaymentDb {
  import opened Domain
  import opened IntentStatusRules
  import opened LedgerSpec
  import opened LedgerInvariant
  import opened Sums

  /** A row as a query returns it: a copy, which later writes do not touch. */
  datatype TxRow = TxRow(id: TxId, tx: Tx)

  datatype IntentRow = IntentRow(id: IntentId, intent: Intent)

  /** `rows` lists the rows of `txs` that satisfy `keep`, each once. */
  ghost predicate Lists(rows: seq<TxRow>, txs: map<TxId, Tx>, keep: (TxId, Tx) -> bool)
  {
    && (forall k :: 0 <= k < |rows| ==> rows[k].id in txs && rows[k].tx == txs[rows[k].id] && keep(rows[k].id, rows[k].tx))
    && (forall j, k :: 0 <= j < k < |rows| ==> rows[j].id != rows[k].id)
    && (forall t :: t in txs && keep(t, txs[t]) ==> exists k :: 0 <= k < |rows| && rows[k].id == t)
  }

  function OfIntent(i: IntentId, m: MerchantId): (TxId, Tx) -> bool
  {
    (t: TxId, r: Tx) => r.intentId == i && r.merchant == m
  }

  predicate StaleTx(r: Tx, now: Time)
  {
    r.status.Confirmable() && r.expiresAt.Some? && r.expiresAt.value <= now
  }

  predicate OverdueIntent(it: Intent, now: Time)
  {
    it.expiresAt.Some? && it.expiresAt.value <= now && (it.status.RequiresPayment? || it.status.PartiallyPaid?)
  }

  class Tables {
    var intents: map<IntentId, Intent>
    var txs: map<TxId, Tx>

    function View(): Ledger
      reads this
    {
      Ledger(intents, txs)
    }

    constructor ()
      ensures View() == Ledger(map[], map[])
    {
      intents, txs := map[], map[];
    }

    // ----- intent repository -----

    method FindIntent(i: IntentId, m: MerchantId) returns (r: Option<Intent>)
      ensures r == if i in intents && intents[i].merchant == m then Some(intents[i]) else None
    {
      r := if i in intents && intents[i].merchant == m then Some(intents[i]) else None;
    }

    method CreateIntent(i: IntentId, m: MerchantId, due: int, allowPartial: bool, currency: Currency, expiresAt: Option<Time>)
      returns (it: Intent)
      requires i !in intents
      modifies this`intents
      ensures it == NewIntent(m, due, allowPartial, currency, expiresAt)
      ensures View() == Now(old(View()), i, it)
    {
      it := Intent(m, due, 0, 0, due, RequiresPayment, allowPartial, currency, expiresAt);
      intents := intents[i := it];
    }

    method UpdateTotals(i: IntentId, m: MerchantId, paid: int, refunded: int, remaining: int) returns (r: Result<Intent>)
      modifies this`intents
      ensures r.Ok? <==> HasIntent(old(View()), i, m)
      ensures r.Ok? ==> View() == LedgerSpec.UpdateTotals(old(View()), i, paid, refunded, remaining) && r.value == intents[i]
      ensures r.Err? ==> View() == old(View()) && r.code == IntentNotFound
    {
      if i !in intents || intents[i].merchant != m { return Err(IntentNotFound); }
      intents := intents[i := intents[i].(paid := paid, refunded := refunded, remaining := remaining)];
      r := Ok(intents[i]);
    }

    method UpdateIntentStatus(i: IntentId, m: MerchantId, status: IntentStatus) returns (r: Result<Intent>)
      modifies this`intents
      ensures r.Ok? <==> HasIntent(old(View()), i, m)
      ensures r.Ok? ==> View() == LedgerSpec.UpdateIntentStatus(old(View()), i, status) && r.value == intents[i]
      ensures r.Err? ==> View() == old(View()) && r.code == IntentNotFound
    {
      if i !in intents || intents[i].merchant != m { return Err(IntentNotFound); }
      intents := intents[i := intents[i].(status := status)];
      r := Ok(intents[i]);
    }

    method FindExpiredActive(now: Time, limit: nat) returns (rows: seq<IntentRow>)
      ensures forall k :: 0 <= k < |rows| ==>
        && rows[k].id in intents && rows[k].intent == intents[rows[k].id] && OverdueIntent(rows[k].intent, now)
        && rows[k].intent.status in {RequiresPayment, PartiallyPaid}
        && rows[k].intent.expiresAt.Some? && rows[k].intent.expiresAt.value <= now
      ensures forall j, k :: 0 <= j < k < |rows| ==> rows[j].id != rows[k].id
      ensures |rows| <= limit
      ensures |rows| < limit ==>
        forall i :: i in intents && intents[i].status in {RequiresPayment, PartiallyPaid}
                    && intents[i].expiresAt.Some? && intents[i].expiresAt.value <= now ==>
          OverdueIntent(intents[i], now) && exists k :: 0 <= k < |rows| && rows[k].id == i
    {
      rows := [];
      var rest := set i: IntentId | i in intents && OverdueIntent(intents[i], now);
      while rest != {} && |rows| < limit
        invariant |rows| <= limit
        invariant forall i :: i in rest ==> i in intents && OverdueIntent(intents[i], now)
        invariant forall k :: 0 <= k < |rows| ==>
          rows[k].id !in rest && rows[k].id in intents && rows[k].intent == intents[rows[k].id] && OverdueIntent(rows[k].intent, now)
        invariant forall j, k :: 0 <= j < k < |rows| ==> rows[j].id != rows[k].id
        invariant forall i :: i in intents && OverdueIntent(intents[i], now) && i !in rest ==>
          exists k :: 0 <= k < |rows| && rows[k].id == i
        decreases |rest|
      {
        var i :| i in rest;
        ghost var before := rows;
        rows := rows + [IntentRow(i, intents[i])];
        assert rows[|before|].id == i;
        assert forall k :: 0 <= k < |before| ==> rows[k] == before[k];
        rest := rest - {i};
      }
    }

    // ----- transaction repository -----

    method FindTx(t: TxId, m: MerchantId) returns (r: Option<Tx>)
      ensures r == if t in txs && txs[t].merchant == m then Some(txs[t]) else None
    {
      r := if t in txs && txs[t].merchant == m then Some(txs[t]) else None;
    }

    /** The rows of a set of ids, in whatever order the database yields them, at most `limit` of them. */
    method Select(ids: set<TxId>, limit: nat) returns (rows: seq<TxRow>)
      requires forall t :: t in ids ==> t in txs
      ensures forall k :: 0 <= k < |rows| ==> rows[k].id in ids && rows[k].tx == txs[rows[k].id]
      ensures forall j, k :: 0 <= j < k < |rows| ==> rows[j].id != rows[k].id
      ensures |rows| <= limit
      ensures |rows| < limit || |ids| <= limit ==> forall t :: t in ids ==> exists k :: 0 <= k < |rows| && rows[k].id == t
    {
      rows := [];
      var rest := ids;
      while rest != {} && |rows| < limit
        invariant rest <= ids
        invariant |rows| <= limit
        invariant |rows| + |rest| == |ids|
        invariant forall k :: 0 <= k < |rows| ==> rows[k].id in ids && rows[k].id !in rest && rows[k].tx == txs[rows[k].id]
        invariant forall j, k :: 0 <= j < k < |rows| ==> rows[j].id != rows[k].id
        invariant forall t :: t in ids && t !in rest ==> exists k :: 0 <= k < |rows| && rows[k].id == t
        decreases |rest|
      {
        var t :| t in rest;
        ghost var before := rows;
        rows := rows + [TxRow(t, txs[t])];
        assert rows[|before|].id == t;
        assert forall k :: 0 <= k < |before| ==> rows[k] == before[k];
        rest := rest - {t};
      }
    }

    method FindByIntentId(i: IntentId, m: MerchantId) returns (rows: seq<TxRow>)
      ensures Lists(rows, txs, OfIntent(i, m))
    {
      var ids := set t: TxId | t in txs && txs[t].intentId == i && txs[t].merchant == m;
      rows := Select(ids, |ids|);
      assert forall t :: t in txs && OfIntent(i, m)(t, txs[t]) ==> t in ids;
    }

    method FindStalePendingTransactions(now: Time, limit: nat) returns (rows: seq<TxRow>)
      ensures forall k :: 0 <= k < |rows| ==>
        && rows[k].id in txs && rows[k].tx == txs[rows[k].id] && StaleTx(rows[k].tx, now)
        && rows[k].tx.status in {TxStatus.Pending, RequiresAction}
        && rows[k].tx.expiresAt.Some? && rows[k].tx.expiresAt.value <= now
      ensures forall j, k :: 0 <= j < k < |rows| ==> rows[j].id != rows[k].id
      ensures |rows| <= limit
      ensures |rows| < limit ==>
        forall t :: t in txs && txs[t].status in {TxStatus.Pending, RequiresAction}
                    && txs[t].expiresAt.Some? && txs[t].expiresAt.value <= now ==>
          StaleTx(txs[t], now) && exists k :: 0 <= k < |rows| && rows[k].id == t
    {
      var ids := set t: TxId | t in txs && StaleTx(txs[t], now);
      rows := Select(ids, limit);
      assert forall t :: t in txs && StaleTx(txs[t], now) ==> t in ids;
    }

    method FindByProviderReference(p: Provider, reference: Reference) returns (r: Option<TxId>)
      ensures r.Some? ==> r.value in txs && txs[r.value].provider == p && txs[r.value].reference == Some(reference)
      ensures r.None? ==> forall t :: t in txs ==> !(txs[t].provider == p && txs[t].reference == Some(reference))
    {
      var ids := set t: TxId | t in txs && txs[t].provider == p && txs[t].reference == Some(reference);
      assert forall t :: t in txs && txs[t].provider == p && txs[t].reference == Some(reference) ==> t in ids;
      if ids == {} { return None; }
      var t :| t in ids;
      r := Some(t);
    }

    method FindByKey(m: MerchantId, key: IdempotencyKey) returns (r: Option<TxId>)
      ensures r.Some? ==> r.value in txs && txs[r.value].merchant == m && txs[r.value].key == Some(key)
      ensures r.None? ==> forall t :: t in txs ==> !(txs[t].merchant == m && txs[t].key == Some(key))
    {
      var ids := set t: TxId | t in txs && txs[t].merchant == m && txs[t].key == Some(key);
      assert forall t :: t in txs && txs[t].merchant == m && txs[t].key == Some(key) ==> t in ids;
      if ids == {} { return None; }
      var t :| t in ids;
      r := Some(t);
    }

    method CreateTx(t: TxId, row: Tx) returns (r: Result<Tx>)
      requires t !in txs
      modifies this`txs
      ensures (View(), r) == InsertTx(old(View()), t, row)
    {
      if !IndexesAdmit(View(), t, row) { return Err(UniqueViolation); }
      txs := txs[t := row];
      r := Ok(row);
    }

    method UpdateStatus(t: TxId, m: MerchantId, change: TxChange) returns (r: Result<Tx>)
      modifies this`txs
      ensures (View(), r) == UpdateTxStatus(old(View()), t, m, change)
    {
      if t !in txs || txs[t].merchant != m { return Err(TransactionNotFound); }
      if !ChangeAdmitted(View(), t, change) { return Err(UniqueViolation); }
      var row := change.Apply(txs[t]);
      txs := txs[t := row];
      r := Ok(row);
    }

    method SumSucceededRefundsByParent(p: TxId) returns (total: int)
      ensures total == RefundsOf(txs, p)
    {
      total := 0;
      var rest := txs;
      while rest.Keys != {}
        invariant rest.Keys <= txs.Keys
        invariant total + SumBy(rest, ParentWeight(p)) == RefundsOf(txs, p)
        decreases |rest|
      {
        var t :| t in rest.Keys;
        SumPick(rest, ParentWeight(p), t);
        if RefundOf(rest[t], p) { total := total + rest[t].amount; }
        rest := rest - {t};
      }
    }

    /** Succeeds at most once per row: only a confirmable row changes. */
    method MarkSucceededIfConfirmable(t: TxId, m: MerchantId) returns (changed: bool)
      modifies this`txs
      ensures changed <==> HasTx(old(View()), t, m) && old(txs)[t].status.Confirmable()
      ensures View() == if changed then MarkSucceeded(old(View()), t) else old(View())
    {
      changed := t in txs && txs[t].merchant == m && txs[t].status.Confirmable();
      if changed { txs := txs[t := txs[t].(status := TxStatus.Succeeded)]; }
    }

    /** One database transaction: the row update and the guarded intent update commit together or not at all. */
    method ApplySucceededPayment(t: TxId, m: MerchantId, i: IntentId, amount: int) returns (r: Result<Credit>)
      modifies this
      ensures (View(), r) == LedgerSpec.ApplySucceededPayment(old(View()), t, m, i, amount)
    {
      var savepoint := txs;
      var changed := MarkSucceededIfConfirmable(t, m);
      if !changed {
        if t in txs && txs[t].merchant == m && txs[t].status.Succeeded? {
          if i !in intents || intents[i].merchant != m { return Err(IntentNotFound); }
          return Ok(Credit(txs[t], intents[i], false));
        }
        return Err(InvalidTransactionStatus);
      }
      if i in intents && intents[i].merchant == m && intents[i].remaining >= amount {
        var it := intents[i];
        var status :=
          if it.paid + amount > it.due then Overpaid
          else if it.paid + amount >= it.due then Paid
          else if it.paid + amount > 0 then PartiallyPaid
          else RequiresPayment;
        intents := intents[i := it.(paid := it.paid + amount, remaining := it.remaining - amount, status := status)];
        r := Ok(Credit(txs[t], intents[i], true));
      } else {
        txs := savepoint;
        r := Err(OverpaymentRejected);
      }
    }

    method ApplySucceededRefund(t: TxId, m: MerchantId, i: IntentId, amount: int, reference: Option<Reference>)
      returns (r: Result<Credit>)
      modifies this
      ensures (View(), r) == LedgerSpec.ApplySucceededRefund(old(View()), t, m, i, amount, reference)
    {
      var savepoint := txs;
      var marked := UpdateStatus(t, m, TxChange(TxStatus.Succeeded, reference, None));
      if marked.Err? { return Err(marked.code); }
      if i in intents && intents[i].merchant == m && intents[i].refunded + amount <= intents[i].paid {
        var it := intents[i];
        var status := if it.paid > 0 && it.refunded + amount >= it.paid then IntentStatus.Refunded else it.status;
        intents := intents[i := it.(refunded := it.refunded + amount, status := status)];
        r := Ok(Credit(txs[t], intents[i], true));
      } else {
        txs := savepoint;
        r := Err(RefundExceedsRefundable);
      }
    }
  }
}
