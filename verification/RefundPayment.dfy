/** Refunding a succeeded payment, and computing what is left to refund. */
module RefundPayment {
  import opened Domain
  import opened LedgerSpec
  import opened LedgerInvariant
  import opened PaymentDb
  import opened Sequential
  import opened RefundAccounting
  import opened CreditPaths
  import opened Sums

  /** What the source's provider can do: nothing, refund, or refuse to. */
  datatype Adapter =
    | Absent
    | Refunds(reference: Option<Reference>)
    | Rejects(reference: Option<Reference>)

  datatype Request = Request(merchant: MerchantId, source: TxId, amount: int, key: Option<IdempotencyKey>)

  datatype Done = Done(refund: Tx, intent: Intent, replay: bool, providerRefunded: bool, left: int)

  /** Some transaction of the merchant already carries the request's key. */
  predicate KeyUsed(l: Ledger, q: Request)
  {
    q.key.Some? && exists u :: u in l.txs && l.txs[u].merchant == q.merchant && l.txs[u].key == q.key
  }

  /** A stored row is the refund the request asks for. */
  predicate SameRefund(l: Ledger, q: Request, existing: Tx)
    requires q.source in l.txs
  {
    && existing.direction.Outgoing? && existing.kind.Refund? && existing.parent == Some(q.source)
    && existing.amount == q.amount && existing.currency == l.txs[q.source].currency
  }

  predicate Found(l: Ledger, q: Request)
  {
    0 < q.amount && HasTx(l, q.source, q.merchant) && HasIntent(l, l.txs[q.source].intentId, q.merchant)
  }

  /** The checks a new refund must pass before any row is written, in order. */
  ghost function Refusal(l: Ledger, q: Request, adapter: Adapter): Option<ErrorCode>
    requires Found(l, q)
  {
    var source := l.txs[q.source];
    if !source.direction.Incoming? || !source.status.Succeeded? || !source.kind.Refundable() then Some(TransactionNotRefundable)
    else if q.amount > Max0(source.amount - RefundsOf(l.txs, q.source)) then Some(RefundExceedsRefundable)
    else if adapter.Absent? && !source.provider.Manual? then Some(ProviderUnavailable)
    else None
  }

  ghost predicate Admitted(l: Ledger, q: Request, adapter: Adapter)
    requires Found(l, q)
  {
    Refusal(l, q, adapter).None?
  }

  /**
   * A refund goes through exactly when its source is a payment that has
   * succeeded, whose refunds and this one stay within its amount, and whose provider can refund
   * or needs no call; each refusal has its own reason.
   */
  lemma RefusedExactly(l: Ledger, q: Request, adapter: Adapter)
    requires Found(l, q)
    ensures var source := l.txs[q.source];
      var paid := source.direction == Incoming && source.status == TxStatus.Succeeded && source.kind in {Payment, Deposit, Settlement};
      var fits := RefundsOf(l.txs, q.source) + q.amount <= source.amount;
      var reachable := adapter != Absent || source.provider == Manual;
      && (Refusal(l, q, adapter).None? <==> paid && fits && reachable)
      && (Refusal(l, q, adapter) == Some(TransactionNotRefundable) <==> !paid)
      && (Refusal(l, q, adapter) == Some(RefundExceedsRefundable) <==> paid && !fits)
      && (Refusal(l, q, adapter) == Some(ProviderUnavailable) <==> paid && fits && !reachable)
  {
  }

  function RefundRow(q: Request, source: Tx, status: TxStatus, reference: Option<Reference>): Tx
  {
    Tx(q.merchant, source.intentId, source.provider, Refund, Outgoing, status, q.amount, source.currency,
       Some(q.source), reference, q.key, None)
  }

  /** Providers name each refund afresh. */
  ghost predicate FreshReference(l: Ledger, q: Request, adapter: Adapter)
    requires q.source in l.txs
  {
    !adapter.Absent? && adapter.reference.Some? ==>
      forall u :: u in l.txs && l.txs[u].provider == l.txs[q.source].provider ==> l.txs[u].reference != adapter.reference
  }

  /** The ledger once the refund row is settled: failed, or succeeded with the intent's refund total moved. */
  function Settled(l: Ledger, id: TxId, q: Request, adapter: Adapter): Ledger
    requires Found(l, q)
  {
    var source := l.txs[q.source];
    var row := RefundRow(q, source, if adapter.Rejects? then TxStatus.Failed else TxStatus.Succeeded,
                         if adapter.Absent? then None else adapter.reference);
    var l1 := l.(txs := l.txs[id := row]);
    if adapter.Rejects? then l1 else Now(l1, source.intentId, RefundedBy(l.intents[source.intentId], q.amount))
  }

  /** The check on the source covers the guard on the intent, and the settled ledger is one effect away. */
  lemma AdmittedRefundSettles(l: Ledger, id: TxId, q: Request, adapter: Adapter)
    requires LedgerInv(l) && id !in l.txs && Found(l, q) && Admitted(l, q, adapter)
    ensures var source := l.txs[q.source];
      && l.intents[source.intentId].refunded + q.amount <= l.intents[source.intentId].paid
      && Next(l, RefundRecorded(id, Settled(l, id, q, adapter).txs[id]), Settled(l, id, q, adapter))
      && RefundsOf(Settled(l, id, q, adapter).txs, q.source) ==
           RefundsOf(l.txs, q.source) + (if adapter.Rejects? then 0 else q.amount)
  {
    SourceCheckImpliesIntentGuard(l, q.source, q.amount);
    RefundsAfter(l.txs, id, Settled(l, id, q, adapter).txs[id], q.source);
  }

  /**
   * A settled refund, column by column: one row is new, and of the intents only the source's own
   * has moved, by the amount refunded, to refunded once all that was paid has gone back.
   */
  lemma SettledColumns(l: Ledger, id: TxId, q: Request, adapter: Adapter)
    requires LedgerInv(l) && id !in l.txs && Found(l, q) && Admitted(l, q, adapter)
    ensures var source := l.txs[q.source];
      var i, l' := source.intentId, Settled(l, id, q, adapter);
      var was := l.intents[i];
      && id in l'.txs && l'.txs == l.txs[id := l'.txs[id]] && i in l'.intents && l'.intents == l.intents[i := l'.intents[i]]
      && l'.txs[id] == Tx(source.merchant, i, source.provider, Refund, Outgoing,
                          if adapter.Rejects? then TxStatus.Failed else TxStatus.Succeeded, q.amount, source.currency,
                          Some(q.source), if adapter.Absent? then None else adapter.reference, q.key, None)
      && (adapter.Rejects? ==> l'.intents[i] == was)
      && (!adapter.Rejects? ==>
            && was.refunded + q.amount <= was.paid
            && l'.intents[i] == was.(refunded := was.refunded + q.amount,
                                     status := if was.refunded + q.amount == was.paid then IntentStatus.Refunded else was.status))
  {
    SourceCheckImpliesIntentGuard(l, q.source, q.amount);
    assert IntentOk(l.intents[l.txs[q.source].intentId]);
  }

  /** A retry gets the refund stored under its key, with what its source has left by now, and only if it asks for the same. */
  ghost predicate Answers(l: Ledger, q: Request, stored: Tx, r: Result<Done>)
    requires Found(l, q)
  {
    var source := l.txs[q.source];
    if SameRefund(l, q, stored) then
      r == Ok(Done(stored, l.intents[source.intentId], true, false, Max0(source.amount - RefundsOf(l.txs, q.source))))
    else r == Err(IdempotencyConflict)
  }

  /** The answer to a key that is taken: that of some row stored under it. */
  ghost predicate AnsweredByKey(l: Ledger, q: Request, r: Result<Done>)
    requires Found(l, q)
  {
    exists u :: u in l.txs && l.txs[u].merchant == q.merchant && l.txs[u].key == q.key && Answers(l, q, l.txs[u], r)
  }

  /**
   * However much later, the key of a settled refund answers a request for the same amount of the
   * same payment by that refund, succeeded or failed, and any other request by a conflict.
   */
  lemma RetryGetsTheRefund(l: Ledger, id: TxId, q: Request, adapter: Adapter, later: Ledger, again: Request, r: Result<Done>)
    requires Found(l, q) && q.key.Some? && Grows(Settled(l, id, q, adapter), later) && IndexesHold(later)
    requires Found(later, again) && again.merchant == q.merchant && again.key == q.key
    ensures KeyUsed(later, again)
    ensures AnsweredByKey(later, again, r) ==>
      && (r.Ok? <==> again.source == q.source && again.amount == q.amount)
      && (r.Err? ==> r.code == IdempotencyConflict)
      && (r.Ok? ==>
            && r.value.refund == Settled(l, id, q, adapter).txs[id] && r.value.replay && !r.value.providerRefunded
            && r.value.intent == later.intents[r.value.refund.intentId]
            && r.value.left == Max0(later.txs[q.source].amount - RefundsOf(later.txs, q.source)))
  {
    var row := Settled(l, id, q, adapter).txs[id];
    assert SameRow(row, later.txs[id]) && later.txs[id] == row;
    if AnsweredByKey(later, again, r) {
      var u :| u in later.txs && later.txs[u].merchant == q.merchant && later.txs[u].key == q.key && Answers(later, again, later.txs[u], r);
      assert u == id by {
        assert IndexesAdmit(later, id, later.txs[id]);
      }
      if again.source == q.source && q.source != id {
        assert SameRow(Settled(l, id, q, adapter).txs[q.source], later.txs[q.source]);
      }
    }
  }

  /** The provider's answer and the write that follows it, on a ledger that already holds the pending row. */
  method Settle(db: Tables, id: TxId, q: Request, source: Tx, adapter: Adapter, ghost l: Ledger) returns (r: Result<Credit>)
    requires id !in l.txs && Found(l, q) && source == l.txs[q.source]
    requires db.View() == l.(txs := l.txs[id := RefundRow(q, source, TxStatus.Pending, None)])
    modifies db
    ensures FreshReference(l, q, adapter) && l.intents[source.intentId].refunded + q.amount <= l.intents[source.intentId].paid ==>
      && db.View() == Settled(l, id, q, adapter)
      && (if adapter.Rejects? then r == Err(ProviderRefundFailed)
          else r == Ok(Credit(db.txs[id], db.intents[source.intentId], true)))
  {
    var reference := if adapter.Absent? then None else adapter.reference;
    if adapter.Rejects? {
      var failed := db.UpdateStatus(id, q.merchant, TxChange(TxStatus.Failed, reference, None));
      if failed.Err? { return Err(failed.code); }
      r := Err(ProviderRefundFailed);
    } else {
      r := db.ApplySucceededRefund(id, q.merchant, source.intentId, q.amount, reference);
    }
  }

  /** The answer to a key that is taken. */
  method LookUpKey(db: Tables, q: Request, source: Tx, intent: Intent) returns (r: Option<Result<Done>>)
    requires Found(db.View(), q) && source == db.txs[q.source] && intent == db.intents[source.intentId]
    ensures r.Some? <==> KeyUsed(db.View(), q)
    ensures r.Some? ==> AnsweredByKey(db.View(), q, r.value)
  {
    if q.key.None? { return None; }
    var existing := db.FindByKey(q.merchant, q.key.value);
    if existing.None? { return None; }
    var row := db.txs[existing.value];
    if !SameRefund(db.View(), q, row) { return Some(Err(IdempotencyConflict)); }
    var already := db.SumSucceededRefundsByParent(q.source);
    r := Some(Ok(Done(row, intent, true, false, Max0(source.amount - already))));
  }

  method Execute(db: Tables, id: TxId, q: Request, adapter: Adapter) returns (r: Result<Done>)
    requires id !in db.txs
    modifies db
    // no amount, no payment of this merchant, no intent of this merchant: nothing happens
    ensures q.amount <= 0 ==> db.View() == old(db.View()) && r == Err(ValidationError)
    ensures 0 < q.amount && (q.source in old(db.txs) ==> old(db.txs)[q.source].merchant != q.merchant) ==>
      db.View() == old(db.View()) && r == Err(TransactionNotFound)
    ensures 0 < q.amount && q.source in old(db.txs) && old(db.txs)[q.source].merchant == q.merchant ==>
      var i := old(db.txs)[q.source].intentId;
      (i in old(db.intents) ==> old(db.intents)[i].merchant != q.merchant) ==> db.View() == old(db.View()) && r == Err(IntentNotFound)
    // a used key: the refund stored under it is returned, or the request conflicts with it; nothing happens
    ensures Found(old(db.View()), q) && KeyUsed(old(db.View()), q) ==>
      db.View() == old(db.View()) && AnsweredByKey(db.View(), q, r)
    // a new key, or none: refused without a trace, or recorded and answered by the provider
    ensures Found(old(db.View()), q) && !KeyUsed(old(db.View()), q) && !Admitted(old(db.View()), q, adapter) ==>
      db.View() == old(db.View()) && r == Err(Refusal(old(db.View()), q, adapter).value)
    ensures Found(old(db.View()), q) && !KeyUsed(old(db.View()), q) && Admitted(old(db.View()), q, adapter)
            && LedgerInv(old(db.View())) && FreshReference(old(db.View()), q, adapter) ==>
      && db.View() == Settled(old(db.View()), id, q, adapter)
      && (if adapter.Rejects? then r == Err(ProviderRefundFailed)
          else r.Ok? && !r.value.replay && r.value.left == db.txs[q.source].amount - RefundsOf(db.txs, q.source))
      // the answer is the row just stored and the intent as it is now
      && (r.Ok? ==>
            && id in db.txs && r.value.refund == db.txs[id]
            && r.value.refund.direction == Outgoing && r.value.refund.status == TxStatus.Succeeded
            && r.value.refund.amount == q.amount && r.value.refund.parent == Some(q.source)
            && r.value.refund.intentId in db.intents && r.value.intent == db.intents[r.value.refund.intentId]
            && r.value.intent.refunded == old(db.intents)[r.value.refund.intentId].refunded + q.amount
            && (r.value.providerRefunded <==> adapter != Absent))
  {
    if q.amount <= 0 { return Err(ValidationError); }
    var found := db.FindTx(q.source, q.merchant);
    if found.None? { return Err(TransactionNotFound); }
    var source := found.value;
    var loaded := db.FindIntent(source.intentId, q.merchant);
    if loaded.None? { return Err(IntentNotFound); }
    var intent := loaded.value;

    var answered := LookUpKey(db, q, source, intent);
    if answered.Some? { return answered.value; }
    if !source.direction.Incoming? || !source.status.Succeeded? || !source.kind.Refundable() {
      return Err(TransactionNotRefundable);
    }
    var already := db.SumSucceededRefundsByParent(q.source);
    var refundable := Max0(source.amount - already);
    if q.amount > refundable { return Err(RefundExceedsRefundable); }
    if adapter.Absent? && !source.provider.Manual? { return Err(ProviderUnavailable); }

    ghost var l := db.View();
    if LedgerInv(l) { AdmittedRefundSettles(l, id, q, adapter); }
    // The row is written before the provider is called, so that the key is taken first.
    var inserted := db.CreateTx(id, RefundRow(q, source, TxStatus.Pending, None));
    var applied := Settle(db, id, q, source, adapter, l);
    if applied.Err? { return Err(applied.code); }
    r := Ok(Done(applied.value.tx, applied.value.intent, false, !adapter.Absent?, Max0(refundable - q.amount)));
  }

  // ----- GetRefundability -----

  datatype Item = Item(id: TxId, amount: int, already: int, refundable: int)

  predicate IsSource(r: Tx, i: IntentId, m: MerchantId)
  {
    r.intentId == i && r.merchant == m && r.direction.Incoming? && r.kind.Refundable() && r.status.Succeeded?
  }

  ghost function ItemWeight(txs: map<TxId, Tx>, i: IntentId, m: MerchantId): (TxId, Tx) -> int
  {
    (t: TxId, r: Tx) => if IsSource(r, i, m) then Max0(r.amount - RefundsOf(txs, t)) else 0
  }

  ghost predicate ItemOf(txs: map<TxId, Tx>, it: Item, i: IntentId, m: MerchantId)
  {
    && it.id in txs && IsSource(txs[it.id], i, m)
    && it.amount == txs[it.id].amount && it.already == RefundsOf(txs, it.id) && it.refundable == Max0(it.amount - it.already)
  }

  /** What a source has left makes up its amount with its refunds. */
  ghost predicate WhatIsLeft(txs: map<TxId, Tx>, it: Item)
    requires it.id in txs
  {
    && it.amount == txs[it.id].amount && it.already == RefundsOf(txs, it.id)
    && 0 <= it.refundable && it.already + it.refundable == it.amount
  }

  /** A row of the intent and merchant that was paid in and can be given back. */
  predicate PaidIn(txs: map<TxId, Tx>, t: TxId, i: IntentId, m: MerchantId)
  {
    && t in txs && txs[t].intentId == i && txs[t].merchant == m && txs[t].direction == Incoming
    && txs[t].status == TxStatus.Succeeded && txs[t].kind in {Payment, Deposit, Settlement}
  }

  /** Summed over the intent, what each source has left is what was paid minus what was refunded. */
  lemma TotalRefundable(l: Ledger, i: IntentId)
    requires LedgerInv(l) && i in l.intents
    ensures SumBy(l.txs, ItemWeight(l.txs, i, l.intents[i].merchant)) == l.intents[i].paid - l.intents[i].refunded
  {
    var w, w' := LeftWeight(l.txs, i), ItemWeight(l.txs, i, l.intents[i].merchant);
    forall t | t in l.txs
      ensures w(t, l.txs[t]) == w'(t, l.txs[t])
    {
      assert RowOk(l, l.txs[t]);
    }
    SumSame(l.txs, w, l.txs, w');
    LeftIsPaidMinusRefunded(l, i);
  }

  function Sources(i: IntentId, m: MerchantId): (TxId, Tx) -> bool { (t: TxId, r: Tx) => IsSource(r, i, m) }

  /** The filter over an intent's rows. */
  method SelectSources(rows: seq<TxRow>, i: IntentId, m: MerchantId, ghost txs: map<TxId, Tx>) returns (sources: seq<TxRow>)
    requires Lists(rows, txs, OfIntent(i, m))
    ensures Lists(sources, txs, Sources(i, m))
  {
    sources := [];
    for k := 0 to |rows|
      invariant forall r :: r in sources <==> r in rows[..k] && IsSource(r.tx, i, m)
      invariant forall n, n' :: 0 <= n < n' < |sources| ==> sources[n].id != sources[n'].id
    {
      var row := rows[k];
      assert rows[..k + 1] == rows[..k] + [row];
      if row.tx.direction.Incoming? && row.tx.kind.Refundable() && row.tx.status.Succeeded? {
        assert forall n :: 0 <= n < |sources| ==> sources[n] in sources && sources[n].id != row.id;
        sources := sources + [row];
      }
    }
    assert rows[..|rows|] == rows;
    forall t | t in txs && Sources(i, m)(t, txs[t])
      ensures exists n :: 0 <= n < |sources| && sources[n].id == t
    {
      assert OfIntent(i, m)(t, txs[t]);
      var j :| 0 <= j < |rows| && rows[j].id == t;
      assert rows[j] in sources;
    }
  }

  method GetRefundability(db: Tables, i: IntentId, m: MerchantId) returns (r: Result<(int, seq<Item>)>)
    ensures !HasIntent(db.View(), i, m) ==> r == Err(IntentNotFound)
    ensures HasIntent(db.View(), i, m) ==>
      && r.Ok? && r.value.0 == SumBy(db.txs, ItemWeight(db.txs, i, m))
      && (LedgerInv(db.View()) ==> r.value.0 == db.intents[i].paid - db.intents[i].refunded)
      && (forall k :: 0 <= k < |r.value.1| ==> ItemOf(db.txs, r.value.1[k], i, m))
      && (forall k :: 0 <= k < |r.value.1| ==>
            PaidIn(db.txs, r.value.1[k].id, i, m) && (LedgerInv(db.View()) ==> WhatIsLeft(db.txs, r.value.1[k])))
      && (forall j, k :: 0 <= j < k < |r.value.1| ==> r.value.1[j].id != r.value.1[k].id)
      && (forall t :: PaidIn(db.txs, t, i, m) ==> exists k :: 0 <= k < |r.value.1| && r.value.1[k].id == t)
  {
    var found := db.FindIntent(i, m);
    if found.None? { return Err(IntentNotFound); }
    var rows := db.FindByIntentId(i, m);
    var sources := SelectSources(rows, i, m, db.txs);
    var total, items := ItemsOf(db, sources, i, m);
    forall t | PaidIn(db.txs, t, i, m)
      ensures exists k :: 0 <= k < |items| && items[k].id == t
    {
      assert Sources(i, m)(t, db.txs[t]);
      var k :| 0 <= k < |sources| && sources[k].id == t;
      assert items[k].id == t;
    }
    if LedgerInv(db.View()) { TotalRefundable(db.View(), i); }
    r := Ok((total, items));
  }

  lemma OneSource(txs: map<TxId, Tx>, rest: map<TxId, Tx>, t: TxId, i: IntentId, m: MerchantId)
    requires t in rest && IsSource(rest[t], i, m)
    ensures SumBy(rest, ItemWeight(txs, i, m)) ==
      Max0(rest[t].amount - RefundsOf(txs, t)) + SumBy(rest - {t}, ItemWeight(txs, i, m))
  {
    SumPick(rest, ItemWeight(txs, i, m), t);
  }

  lemma NoSourceLeft(txs: map<TxId, Tx>, rest: map<TxId, Tx>, sources: seq<TxRow>, i: IntentId, m: MerchantId)
    requires Lists(sources, txs, Sources(i, m))
    requires forall t :: t in rest ==> t in txs && rest[t] == txs[t] && forall j :: 0 <= j < |sources| ==> sources[j].id != t
    ensures SumBy(rest, ItemWeight(txs, i, m)) == 0
  {
    forall t | t in rest
      ensures ItemWeight(txs, i, m)(t, rest[t]) == 0
    {
      assert !Sources(i, m)(t, txs[t]);
    }
    SumZero(rest, ItemWeight(txs, i, m));
  }

  /** The rows not gone through yet, once the first `k` sources are done. */
  ghost predicate Remain(rest: map<TxId, Tx>, txs: map<TxId, Tx>, sources: seq<TxRow>, k: nat)
    requires k <= |sources|
  {
    && (forall t :: t in rest ==> t in txs && rest[t] == txs[t] && forall j :: 0 <= j < k ==> sources[j].id != t)
    && (forall j :: k <= j < |sources| ==> sources[j].id in rest)
  }

  lemma OneFewer(rest: map<TxId, Tx>, txs: map<TxId, Tx>, sources: seq<TxRow>, k: nat, i: IntentId, m: MerchantId)
    requires Lists(sources, txs, Sources(i, m)) && k < |sources| && Remain(rest, txs, sources, k)
    ensures var row := sources[k];
      && row.id in rest && row.id in txs && row.tx == txs[row.id] && IsSource(row.tx, i, m)
      && Remain(rest - {row.id}, txs, sources, k + 1)
      && SumBy(rest, ItemWeight(txs, i, m)) ==
           Max0(row.tx.amount - RefundsOf(txs, row.id)) + SumBy(rest - {row.id}, ItemWeight(txs, i, m))
  {
    assert Sources(i, m)(sources[k].id, sources[k].tx);
    OneSource(txs, rest, sources[k].id, i, m);
  }

  /** One item per source, and the running total. */
  method ItemsOf(db: Tables, sources: seq<TxRow>, i: IntentId, m: MerchantId) returns (total: int, items: seq<Item>)
    requires Lists(sources, db.txs, Sources(i, m))
    ensures total == SumBy(db.txs, ItemWeight(db.txs, i, m))
    ensures |items| == |sources| && forall k :: 0 <= k < |items| ==> items[k].id == sources[k].id && ItemOf(db.txs, items[k], i, m)
  {
    total, items := 0, [];
    ghost var txs, rest := db.txs, db.txs;
    for k := 0 to |sources|
      invariant |items| == k && Remain(rest, txs, sources, k)
      invariant total + SumBy(rest, ItemWeight(txs, i, m)) == SumBy(txs, ItemWeight(txs, i, m))
      invariant forall j :: 0 <= j < k ==> items[j].id == sources[j].id && ItemOf(txs, items[j], i, m)
    {
      var row := sources[k];
      OneFewer(rest, txs, sources, k, i, m);
      var already := db.SumSucceededRefundsByParent(row.id);
      var refundable := Max0(row.tx.amount - already);
      items := items + [Item(row.id, row.tx.amount, already, refundable)];
      total := total + refundable;
      rest := rest - {row.id};
    }
    NoSourceLeft(txs, rest, sources, i, m);
  }
}
