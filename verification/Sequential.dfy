/**
 * Runs in which each use case finishes before the next one starts. `Effect` lists
 * everything a use case can do to the ledger; the use-case modules show that each
 * `execute` amounts to one effect, and the theorems here hold of every sequence of them.
 */
module Sequential {
  import opened Domain
  import opened IntentStatusRules
  import opened LedgerSpec
  import opened LedgerInvariant
  import opened RefundAccounting

  datatype Effect =
    | NoChange
    | IntentCreated(i: IntentId, m: MerchantId, due: int, allowPartial: bool, currency: Currency, expiresAt: Option<Time>)
    | PaymentRecorded(t: TxId, row: Tx)
    | PaymentCredited(t: TxId, row: Tx)
    | VerdictApplied(t: TxId, verdict: TxStatus, reference: Option<Reference>)
    | RefundRecorded(t: TxId, row: Tx)
    | PaymentClosed(t: TxId, change: TxChange)
    | ExpiryRun(rows: set<TxId>, intentIds: set<IntentId>)
    | IntentReconciled(i: IntentId)

  /** A new incoming row as the create use case writes it. */
  predicate NewPaymentRow(l: Ledger, t: TxId, row: Tx)
  {
    && t !in l.txs
    && row.direction.Incoming? && !row.status.Succeeded? && RowOk(l, row)
  }

  /**
   * What a provider's verdict on a row does, whichever path delivers it: a row that is no
   * longer confirmable stays as it is, success credits, a terminal verdict closes the row.
   */
  function VerdictEffect(l: Ledger, t: TxId, verdict: TxStatus, reference: Option<Reference>): Ledger
    requires t in l.txs
  {
    if !l.txs[t].status.Confirmable() then l
    else if verdict.Succeeded? then CreditRow(l, t).0
    else if verdict.Failed? || verdict.Cancelled? || verdict.Expired? then
      UpdateTxStatus(l, t, l.txs[t].merchant, TxChange(verdict, reference, None)).0
    else l
  }

  /** A refund row of an admitted refund: paid source, same intent, no more than the source has left. */
  ghost predicate AdmittedRefund(l: Ledger, t: TxId, row: Tx)
  {
    && t !in l.txs
    && row.direction.Outgoing? && row.kind.Refund? && 0 < row.amount
    && row.parent.Some? && row.parent.value in l.txs
    && CountsAsPaid(l.txs[row.parent.value])
    && row.intentId == l.txs[row.parent.value].intentId && row.merchant == l.txs[row.parent.value].merchant
    && row.amount <= l.txs[row.parent.value].amount - RefundsOf(l.txs, row.parent.value)
  }

  predicate Active(it: Intent) { it.status.RequiresPayment? || it.status.PartiallyPaid? }

  /** The state after an expiry run has closed `rows` and `intentIds`. */
  function Expire(l: Ledger, rows: set<TxId>, intentIds: set<IntentId>): Ledger
  {
    Ledger(map i | i in l.intents :: if i in intentIds then l.intents[i].(status := IntentStatus.Expired) else l.intents[i],
           map t | t in l.txs :: if t in rows then l.txs[t].(status := TxStatus.Expired) else l.txs[t])
  }

  /** Totals and status recomputed from the intent's rows. */
  ghost function Reconciled(l: Ledger, i: IntentId): Intent
    requires i in l.intents
  {
    var it := l.intents[i];
    var paid := PaidOf(l.txs, i);
    it.(paid := paid,
        refunded := RefundedOf(l.txs, i),
        remaining := if it.due - paid > 0 then it.due - paid else 0,
        status := ComputeIntentStatus(it.due, paid))
  }

  ghost predicate Next(l: Ledger, e: Effect, l': Ledger)
  {
    match e
    case NoChange => l' == l
    case IntentCreated(i, m, due, allowPartial, currency, expiresAt) =>
      i !in l.intents && 0 < due && l' == Now(l, i, NewIntent(m, due, allowPartial, currency, expiresAt))
    case PaymentRecorded(t, row) =>
      NewPaymentRow(l, t, row) && l' == l.(txs := l.txs[t := row])
    case PaymentCredited(t, row) =>
      && NewPaymentRow(l, t, row) && row.status.Confirmable()
      && l' == CreditRow(l.(txs := l.txs[t := row]), t).0
    case VerdictApplied(t, verdict, reference) =>
      t in l.txs && l' == VerdictEffect(l, t, verdict, reference)
    case RefundRecorded(t, row) =>
      && AdmittedRefund(l, t, row) && row.intentId in l.intents
      && (row.status.Failed? || row.status.Succeeded?)
      && l' == (var l1 := l.(txs := l.txs[t := row]);
                if row.status.Failed? then l1
                else Now(l1, row.intentId, RefundedBy(l.intents[row.intentId], row.amount)))
    case PaymentClosed(t, change) =>
      && t in l.txs && l.txs[t].direction.Incoming? && l.txs[t].status.Confirmable()
      && (change.status.Cancelled? || change.status.Failed?)
      && l' == UpdateTxStatus(l, t, l.txs[t].merchant, change).0
    case ExpiryRun(rows, intentIds) =>
      && (forall t :: t in rows ==> t in l.txs && l.txs[t].status.Confirmable())
      && (forall i :: i in intentIds ==> i in l.intents && Active(l.intents[i]) && 0 < l.intents[i].remaining)
      && l' == Expire(l, rows, intentIds)
    case IntentReconciled(i) =>
      i in l.intents && l' == Now(l, i, Reconciled(l, i))
  }

  // ----- every effect keeps the invariant -----

  lemma VerdictKeepsInv(l: Ledger, t: TxId, verdict: TxStatus, reference: Option<Reference>)
    requires LedgerInv(l) && t in l.txs
    ensures LedgerInv(VerdictEffect(l, t, verdict, reference))
  {
    assert RowOk(l, l.txs[t]);
    if l.txs[t].status.Confirmable() {
      if verdict.Succeeded? {
        CreditInv(l, t);
      } else if verdict.Failed? || verdict.Cancelled? || verdict.Expired? {
        var row := TxChange(verdict, reference, None).Apply(l.txs[t]);
        UncountedIncomingInv(l, t, row);
      }
    }
  }

  /** Closing many uncounted rows at once moves no sum. */
  lemma ExpireKeepsSums(txs: map<TxId, Tx>, txs': map<TxId, Tx>, x: nat)
    requires txs'.Keys == txs.Keys
    requires forall t :: t in txs ==>
      txs'[t] == txs[t] || (txs[t].status.Confirmable() && txs'[t] == txs[t].(status := TxStatus.Expired))
    ensures PaidOf(txs', x) == PaidOf(txs, x)
    ensures RefundedOf(txs', x) == RefundedOf(txs, x)
    ensures RefundsOf(txs', x) == RefundsOf(txs, x)
  {
    Sums.SumSame(txs, PaidWeight(x), txs', PaidWeight(x));
    Sums.SumSame(txs, RefundedWeight(x), txs', RefundedWeight(x));
    Sums.SumSame(txs, ParentWeight(x), txs', ParentWeight(x));
  }

  lemma ExpireKeepsInv(l: Ledger, rows: set<TxId>, intentIds: set<IntentId>)
    requires LedgerInv(l)
    requires forall t :: t in rows ==> t in l.txs && l.txs[t].status.Confirmable()
    requires forall i :: i in intentIds ==> i in l.intents && Active(l.intents[i]) && 0 < l.intents[i].remaining
    ensures LedgerInv(Expire(l, rows, intentIds))
  {
    var l' := Expire(l, rows, intentIds);
    assert RowsOk(l') by {
      forall t | t in l'.txs
        ensures RowOk(l', l'.txs[t])
      {
        assert RowOk(l, l.txs[t]);
      }
    }
    assert TotalsOk(l') by {
      forall i | i in l'.intents
        ensures l'.intents[i].paid == PaidOf(l'.txs, i) && l'.intents[i].refunded == RefundedOf(l'.txs, i)
      {
        ExpireKeepsSums(l.txs, l'.txs, i);
      }
    }
    assert SourcesOk(l') by {
      forall p | p in l'.txs && l'.txs[p].direction.Incoming?
        ensures RefundsOf(l'.txs, p) <= l'.txs[p].amount
      {
        ExpireKeepsSums(l.txs, l'.txs, p);
      }
    }
  }

  /** On a ledger that keeps the invariant, reconciling moves no total. */
  lemma ReconcileMovesNoTotal(l: Ledger, i: IntentId)
    requires LedgerInv(l) && i in l.intents
    ensures var it := Reconciled(l, i);
      && it.paid == l.intents[i].paid && it.refunded == l.intents[i].refunded && it.remaining == l.intents[i].remaining
      && IntentOk(it) && it.(status := l.intents[i].status) == l.intents[i]
    ensures Reconciled(l, i) != l.intents[i] <==> l.intents[i].status.Refunded? || l.intents[i].status.Expired?
  {
    assert IntentOk(l.intents[i]);
  }

  lemma NextKeepsInv(l: Ledger, e: Effect, l': Ledger)
    requires LedgerInv(l) && Next(l, e, l')
    ensures LedgerInv(l')
  {
    match e
    case NoChange =>
    case IntentCreated(i, m, due, allowPartial, currency, expiresAt) =>
      NewIntentInv(l, i, m, due, allowPartial, currency, expiresAt);
    case PaymentRecorded(t, row) =>
      UncountedIncomingInv(l, t, row);
    case PaymentCredited(t, row) =>
      UncountedIncomingInv(l, t, row);
      CreditInv(l.(txs := l.txs[t := row]), t);
    case VerdictApplied(t, verdict, reference) =>
      VerdictKeepsInv(l, t, verdict, reference);
    case RefundRecorded(t, row) =>
      SourceCheckImpliesIntentGuard(l, row.parent.value, row.amount);
      assert RowOk(l, l.txs[row.parent.value]);
      if row.status.Failed? {
        FailedRefundInv(l, t, row);
      } else {
        RefundInv(l, t, row);
      }
    case PaymentClosed(t, change) =>
      assert RowOk(l, l.txs[t]);
      UncountedIncomingInv(l, t, change.Apply(l.txs[t]));
    case ExpiryRun(rows, intentIds) =>
      ExpireKeepsInv(l, rows, intentIds);
    case IntentReconciled(i) =>
      ReconcileMovesNoTotal(l, i);
      IntentChangeInv(l, i, Reconciled(l, i));
  }

  // ----- what no effect ever undoes -----

  /** Rows and intents stay; what identifies them never changes; a closed row stays closed. */
  ghost predicate Grows(l: Ledger, l': Ledger)
  {
    && (forall t :: t in l.txs ==> t in l'.txs && SameRow(l.txs[t], l'.txs[t]))
    && (forall i :: i in l.intents ==> i in l'.intents && SameIntent(l.intents[i], l'.intents[i]))
  }

  predicate SameRow(r: Tx, r': Tx)
  {
    && r'.merchant == r.merchant && r'.intentId == r.intentId && r'.direction == r.direction && r'.kind == r.kind
    && r'.amount == r.amount && r'.parent == r.parent && r'.currency == r.currency && r'.provider == r.provider
    && (!r.status.Confirmable() ==> r' == r)
  }

  /** An intent's terms are fixed, and what was paid or refunded is never taken back. */
  predicate SameIntent(it: Intent, it': Intent)
  {
    && it'.merchant == it.merchant && it'.due == it.due && it'.allowPartial == it.allowPartial
    && it'.currency == it.currency && it'.expiresAt == it.expiresAt
    && it.paid <= it'.paid && it.refunded <= it'.refunded
  }

  lemma OneRowGrows(l: Ledger, l': Ledger, t: TxId, i: IntentId)
    requires i in l'.intents ==> l'.intents == l.intents[i := l'.intents[i]]
    requires i !in l'.intents ==> l'.intents == l.intents
    requires t in l'.txs ==> l'.txs == l.txs[t := l'.txs[t]]
    requires t !in l'.txs ==> l'.txs == l.txs
    requires t in l.txs ==> t in l'.txs && SameRow(l.txs[t], l'.txs[t])
    requires i in l.intents ==> i in l'.intents && SameIntent(l.intents[i], l'.intents[i])
    ensures Grows(l, l')
  {
  }

  lemma VerdictGrows(l: Ledger, t: TxId, verdict: TxStatus, reference: Option<Reference>)
    requires LedgerInv(l) && t in l.txs
    ensures Grows(l, VerdictEffect(l, t, verdict, reference))
  {
    assert RowOk(l, l.txs[t]);
    OneRowGrows(l, VerdictEffect(l, t, verdict, reference), t, l.txs[t].intentId);
  }

  lemma NewRowGrows(l: Ledger, e: Effect, l': Ledger)
    requires LedgerInv(l) && Next(l, e, l')
    requires e.PaymentRecorded? || e.PaymentCredited? || e.RefundRecorded?
    ensures Grows(l, l')
  {
    OneRowGrows(l, l', e.t, e.row.intentId);
  }

  lemma ClosingGrows(l: Ledger, e: Effect, l': Ledger)
    requires LedgerInv(l) && Next(l, e, l') && e.PaymentClosed?
    ensures Grows(l, l')
  {
    OneRowGrows(l, l', e.t, l.txs[e.t].intentId);
  }

  lemma ExpiryGrows(l: Ledger, e: Effect, l': Ledger)
    requires LedgerInv(l) && Next(l, e, l') && e.ExpiryRun?
    ensures Grows(l, l')
  {
  }

  lemma IntentGrows(l: Ledger, e: Effect, l': Ledger)
    requires LedgerInv(l) && Next(l, e, l') && (e.NoChange? || e.IntentCreated? || e.IntentReconciled?)
    ensures Grows(l, l')
  {
    if e.IntentReconciled? { ReconcileMovesNoTotal(l, e.i); }
  }

  lemma NextGrows(l: Ledger, e: Effect, l': Ledger)
    requires LedgerInv(l) && Next(l, e, l')
    ensures Grows(l, l')
  {
    match e
    case VerdictApplied(t, verdict, reference) => VerdictGrows(l, t, verdict, reference);
    case PaymentClosed(_, _) => ClosingGrows(l, e, l');
    case ExpiryRun(_, _) => ExpiryGrows(l, e, l');
    case PaymentRecorded(_, _) => NewRowGrows(l, e, l');
    case PaymentCredited(_, _) => NewRowGrows(l, e, l');
    case RefundRecorded(_, _) => NewRowGrows(l, e, l');
    case _ => IntentGrows(l, e, l');
  }

  // ----- theorems over whole runs -----

  ghost predicate IsRun(states: seq<Ledger>, effects: seq<Effect>)
  {
    && |states| == |effects| + 1
    && states[0] == Ledger(map[], map[])
    && forall k :: 0 <= k < |effects| ==> Next(states[k], effects[k], states[k + 1])
  }

  /**
   * Every ledger of every sequential run satisfies the invariant: what is paid and what remains
   * make up what is due, totals are the sums over the rows, no source is refunded beyond its
   * amount, and the status of an intent tells how its totals compare.
   */
  lemma {:induction false} RunKeepsInv(states: seq<Ledger>, effects: seq<Effect>, k: nat)
    requires IsRun(states, effects) && k < |states|
    ensures LedgerInv(states[k])
    ensures forall i :: i in states[k].intents ==>
      var it := states[k].intents[i];
      && it.paid + it.remaining == it.due && 0 <= it.refunded <= it.paid <= it.due
      && it.paid == PaidOf(states[k].txs, i) && it.refunded == RefundedOf(states[k].txs, i)
      && it.status in {RequiresPayment, PartiallyPaid, Paid, IntentStatus.Refunded, IntentStatus.Expired}
      && (it.status == RequiresPayment ==> it.paid == 0) && (it.status == PartiallyPaid ==> 0 < it.paid < it.due)
      && (it.status == Paid ==> it.paid == it.due) && (it.status == IntentStatus.Refunded ==> 0 < it.refunded == it.paid)
      && (it.status == IntentStatus.Expired ==> it.paid < it.due)
    ensures forall p :: p in states[k].txs && states[k].txs[p].direction == Incoming ==>
      RefundsOf(states[k].txs, p) <= states[k].txs[p].amount
  {
    if k == 0 {
      EmptyInv();
    } else {
      RunKeepsInv(states, effects, k - 1);
      NextKeepsInv(states[k - 1], effects[k - 1], states[k]);
    }
  }

  /** Anything closed, paid or refunded at one point of a run is so at every later point. */
  lemma {:induction false} RunOnlyGrows(states: seq<Ledger>, effects: seq<Effect>, j: nat, k: nat)
    requires IsRun(states, effects) && j <= k < |states|
    ensures Grows(states[j], states[k])
    decreases k
  {
    if j < k {
      RunOnlyGrows(states, effects, j, k - 1);
      RunKeepsInv(states, effects, k - 1);
      NextGrows(states[k - 1], effects[k - 1], states[k]);
      GrowsTransitive(states[j], states[k - 1], states[k]);
    }
  }

  lemma GrowsTransitive(a: Ledger, b: Ledger, c: Ledger)
    requires Grows(a, b) && Grows(b, c)
    ensures Grows(a, c)
  {
  }
}
