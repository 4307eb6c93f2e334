/** Recomputing an intent's totals from its transactions, and what that repairs. */
module Reconcile {
  import opened Domain
  import opened IntentStatusRules
  import opened LedgerSpec
  import opened LedgerInvariant
  import opened PaymentDb
  import opened Sequential
  import opened CreditPaths
  import opened Sums

  datatype Snapshot = Snapshot(paid: int, refunded: int, remaining: int, status: IntentStatus)

  function SnapshotOf(it: Intent): Snapshot { Snapshot(it.paid, it.refunded, it.remaining, it.status) }

  datatype Report = Report(intent: Intent, before: Snapshot, after: Snapshot, changed: bool)

  /** Every row of an intent belongs to the intent's merchant, as on every ledger that keeps the invariant. */
  predicate OneMerchant(l: Ledger, i: IntentId)
    requires i in l.intents
  {
    forall t :: t in l.txs && l.txs[t].intentId == i ==> l.txs[t].merchant == l.intents[i].merchant
  }

  lemma InvMakesOneMerchant(l: Ledger, i: IntentId)
    requires LedgerInv(l) && i in l.intents
    ensures OneMerchant(l, i)
  {
    forall t | t in l.txs && l.txs[t].intentId == i
      ensures l.txs[t].merchant == l.intents[i].merchant
    {
      assert RowOk(l, l.txs[t]);
    }
  }

  function FoldWeight(i: IntentId, incoming: bool): (TxId, Tx) -> int { if incoming then PaidWeight(i) else RefundedWeight(i) }

  /** Rows of other intents add nothing. */
  lemma NoRowLeft(rows: seq<TxRow>, i: IntentId, m: MerchantId, incoming: bool, txs: map<TxId, Tx>, rest: map<TxId, Tx>)
    requires Lists(rows, txs, OfIntent(i, m))
    requires forall t :: t in txs && txs[t].intentId == i ==> txs[t].merchant == m
    requires forall t :: t in rest ==> t in txs && rest[t] == txs[t] && forall j :: 0 <= j < |rows| ==> rows[j].id != t
    ensures SumBy(rest, FoldWeight(i, incoming)) == 0
  {
    forall t | t in rest
      ensures rest[t].intentId != i
    {
      assert !OfIntent(i, m)(t, txs[t]);
    }
    SumZero(rest, FoldWeight(i, incoming));
  }

  /** The rows still to come, once the first `k` of the list are folded. */
  ghost predicate Remain(rest: map<TxId, Tx>, txs: map<TxId, Tx>, rows: seq<TxRow>, k: nat)
    requires k <= |rows|
  {
    && (forall t :: t in rest ==> t in txs && rest[t] == txs[t] && forall j :: 0 <= j < k ==> rows[j].id != t)
    && (forall j :: k <= j < |rows| ==> rows[j].id in rest)
  }

  lemma OneFewer(rest: map<TxId, Tx>, txs: map<TxId, Tx>, rows: seq<TxRow>, k: nat, i: IntentId, m: MerchantId, incoming: bool)
    requires Lists(rows, txs, OfIntent(i, m)) && k < |rows| && Remain(rest, txs, rows, k)
    ensures var row := rows[k];
      && row.id in rest && Remain(rest - {row.id}, txs, rows, k + 1)
      && SumBy(rest, FoldWeight(i, incoming)) ==
           (if row.tx.status.Succeeded? && row.tx.direction.Incoming? == incoming then row.tx.amount else 0)
           + SumBy(rest - {row.id}, FoldWeight(i, incoming))
  {
    var row := rows[k];
    assert OfIntent(i, m)(row.id, row.tx);
    SumPick(rest, FoldWeight(i, incoming), row.id);
  }

  /** Folding a list of an intent's rows: one more row on the left, one fewer to come. */
  method Fold(rows: seq<TxRow>, i: IntentId, m: MerchantId, incoming: bool, ghost txs: map<TxId, Tx>) returns (total: int)
    requires Lists(rows, txs, OfIntent(i, m))
    ensures (forall t :: t in txs && txs[t].intentId == i ==> txs[t].merchant == m) ==>
      total == if incoming then PaidOf(txs, i) else RefundedOf(txs, i)
  {
    total := 0;
    ghost var rest := txs;
    for k := 0 to |rows|
      invariant Remain(rest, txs, rows, k)
      invariant total + SumBy(rest, FoldWeight(i, incoming)) == SumBy(txs, FoldWeight(i, incoming))
    {
      var tx := rows[k].tx;
      OneFewer(rest, txs, rows, k, i, m, incoming);
      if tx.status.Succeeded? && tx.direction.Incoming? == incoming {
        total := total + tx.amount;
      }
      rest := rest - {rows[k].id};
    }
    if forall t :: t in txs && txs[t].intentId == i ==> txs[t].merchant == m {
      NoRowLeft(rows, i, m, incoming, txs, rest);
    }
  }

  /** The two writes: the totals, then the status if it differs. */
  method Write(db: Tables, i: IntentId, m: MerchantId, before: Snapshot, after: Snapshot) returns (updated: Intent)
    requires HasIntent(db.View(), i, m) && before == SnapshotOf(db.intents[i])
    modifies db
    ensures i in db.intents && updated == db.intents[i] && SnapshotOf(updated) == after
    ensures db.View() == Now(old(db.View()), i,
      old(db.intents)[i].(paid := after.paid, refunded := after.refunded, remaining := after.remaining, status := after.status))
  {
    var written := db.UpdateTotals(i, m, after.paid, after.refunded, after.remaining);
    if before.status != after.status {
      written := db.UpdateIntentStatus(i, m, after.status);
    }
    updated := written.value;
  }

  /** The intent's rows read and folded. */
  method Recompute(db: Tables, i: IntentId, m: MerchantId, due: int) returns (after: Snapshot)
    requires HasIntent(db.View(), i, m) && db.intents[i].due == due
    ensures OneMerchant(db.View(), i) ==> after == SnapshotOf(Reconciled(db.View(), i))
  {
    var rows := db.FindByIntentId(i, m);
    var paid := Fold(rows, i, m, true, db.txs);
    var refunded := Fold(rows, i, m, false, db.txs);
    after := Snapshot(paid, refunded, Max0(due - paid), ComputeIntentStatus(due, paid));
  }

  /** From any ledger at all: the totals become the sums over the intent's rows, the status follows from them. */
  method Execute(db: Tables, i: IntentId, m: MerchantId) returns (r: Result<Report>)
    modifies db
    ensures r.Err? <==> !HasIntent(old(db.View()), i, m)
    ensures r.Err? ==> db.View() == old(db.View()) && r.code == IntentNotFound
    ensures r.Ok? && (OneMerchant(old(db.View()), i) || LedgerInv(old(db.View()))) ==>
      && Next(old(db.View()), IntentReconciled(i), db.View())
      && r.value.before == SnapshotOf(old(db.intents)[i]) && r.value.after == SnapshotOf(db.intents[i])
      && r.value.before.paid == old(db.intents)[i].paid && r.value.before.refunded == old(db.intents)[i].refunded
      && r.value.before.remaining == old(db.intents)[i].remaining && r.value.before.status == old(db.intents)[i].status
      && r.value.after.paid == db.intents[i].paid && r.value.after.refunded == db.intents[i].refunded
      && r.value.after.remaining == db.intents[i].remaining && r.value.after.status == db.intents[i].status
      && r.value.intent == db.intents[i]
      && (r.value.changed <==> db.View() != old(db.View()))
  {
    var found := db.FindIntent(i, m);
    if found.None? { return Err(IntentNotFound); }
    var intent := found.value;
    if LedgerInv(db.View()) { InvMakesOneMerchant(db.View(), i); }
    var after := Recompute(db, i, m, intent.due);
    var before := SnapshotOf(intent);
    if before == after { return Ok(Report(intent, before, after, false)); }
    var updated := Write(db, i, m, before, after);
    r := Ok(Report(updated, before, after, true));
  }

  /** What a reconcile makes of an intent, however its columns had drifted, and whether or not too much was collected. */
  lemma ReconciledColumns(l: Ledger, i: IntentId)
    requires i in l.intents
    ensures var was, it := l.intents[i], Reconciled(l, i);
      && it.paid == PaidOf(l.txs, i) && it.refunded == RefundedOf(l.txs, i)
      && 0 <= it.remaining && it.paid + it.remaining == (if it.due < it.paid then it.paid else it.due)
      && it.(paid := was.paid, refunded := was.refunded, remaining := was.remaining, status := was.status) == was
      && it.status == (if it.paid <= 0 then RequiresPayment else if it.paid < it.due then PartiallyPaid
                       else if it.paid == it.due then Paid else Overpaid)
  {
  }

  /** A second run finds nothing to change. */
  lemma ReconcileIdempotent(l: Ledger, i: IntentId, l': Ledger, l'': Ledger)
    requires Next(l, IntentReconciled(i), l') && Next(l', IntentReconciled(i), l'')
    ensures l'' == l'
  {
  }

  /** On every ledger that keeps the invariant, only a refunded or expired status is rewritten, and no total moves. */
  lemma ReconcileOnInvariant(l: Ledger, i: IntentId, l': Ledger)
    requires LedgerInv(l) && Next(l, IntentReconciled(i), l')
    ensures l'.txs == l.txs
    ensures SnapshotOf(l'.intents[i]).(status := l.intents[i].status) == SnapshotOf(l.intents[i])
    ensures l' != l <==> l.intents[i].status.Refunded? || l.intents[i].status.Expired?
  {
    ReconcileMovesNoTotal(l, i);
  }

  /**
   * A credit that stopped half way, then reconciled, ends in the very state the finished
   * credit would have left: nothing is lost and nothing is credited twice.
   */
  lemma ReconcileFinishesCrashedCredit(l: Ledger, t: TxId, stop: Stop, l': Ledger)
    requires LedgerInv(l) && t in l.txs && l.txs[t].direction.Incoming?
    requires Credits(l, t) && !stop.Never?
    requires Next(Crashed(l, t, stop), IntentReconciled(l.txs[t].intentId), l')
    ensures l' == CreditRow(l, t).0
    ensures LedgerInv(l')
  {
    InvMakesSound(l, t);
    var i, r := l.txs[t].intentId, MarkSucceeded(l, t).txs[t];
    PaidAfter(l.txs, t, r, i);
    RefundedAfter(l.txs, t, r, i);
    CreditInv(l, t);
    assert l'.intents[i] == CreditRow(l, t).0.intents[i];
    assert l'.intents == CreditRow(l, t).0.intents;
  }

  /** Until it is reconciled, the crashed ledger does break conservation: by exactly the marked row's amount. */
  lemma CrashLosesTheAmount(l: Ledger, t: TxId)
    requires LedgerInv(l) && t in l.txs && l.txs[t].direction.Incoming? && Credits(l, t)
    ensures var i := l.txs[t].intentId;
      PaidOf(Crashed(l, t, AfterMark).txs, i) == Crashed(l, t, AfterMark).intents[i].paid + l.txs[t].amount
  {
    InvMakesSound(l, t);
    PaidAfter(l.txs, t, MarkSucceeded(l, t).txs[t], l.txs[t].intentId);
  }
}
