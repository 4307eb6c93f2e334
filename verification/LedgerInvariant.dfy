/**
 * The invariant of the ledger when each use case runs to its end before the next starts:
 * conservation of totals, the status rules, the shape of rows, and the refund bound.
 */
module LedgerInvariant {
  import opened Domain
  import opened IntentStatusRules
  import opened LedgerSpec
  import opened Sums

  // ----- totals as sums over the transaction table -----

  predicate CountsAsPaid(r: Tx) { r.status.Succeeded? && r.direction.Incoming? }

  predicate CountsAsRefunded(r: Tx) { r.status.Succeeded? && r.direction.Outgoing? }

  predicate RefundOf(r: Tx, p: TxId)
  {
    r.parent == Some(p) && r.kind.Refund? && r.direction.Outgoing? && r.status.Succeeded?
  }

  function PaidShare(r: Tx, i: IntentId): int { if r.intentId == i && CountsAsPaid(r) then r.amount else 0 }

  function RefundedShare(r: Tx, i: IntentId): int { if r.intentId == i && CountsAsRefunded(r) then r.amount else 0 }

  function ParentShare(r: Tx, p: TxId): int { if RefundOf(r, p) then r.amount else 0 }

  function PaidWeight(i: IntentId): (TxId, Tx) -> int { (t: TxId, r: Tx) => PaidShare(r, i) }

  function RefundedWeight(i: IntentId): (TxId, Tx) -> int { (t: TxId, r: Tx) => RefundedShare(r, i) }

  function ParentWeight(p: TxId): (TxId, Tx) -> int { (t: TxId, r: Tx) => ParentShare(r, p) }

  ghost function PaidOf(txs: map<TxId, Tx>, i: IntentId): int { SumBy(txs, PaidWeight(i)) }

  ghost function RefundedOf(txs: map<TxId, Tx>, i: IntentId): int { SumBy(txs, RefundedWeight(i)) }

  /** The SQL sum over succeeded refunds of one source transaction. */
  ghost function RefundsOf(txs: map<TxId, Tx>, p: TxId): int { SumBy(txs, ParentWeight(p)) }

  // ----- the invariant -----

  predicate StatusOk(it: Intent)
  {
    match it.status
    case RequiresPayment => it.paid == 0
    case PartiallyPaid => 0 < it.paid < it.due
    case Paid => it.paid == it.due
    case Refunded => it.refunded == it.paid && 0 < it.paid
    case Expired => 0 < it.remaining
    case _ => false
  }

  predicate IntentOk(it: Intent)
  {
    && 0 < it.due
    && it.paid + it.remaining == it.due
    && 0 <= it.refunded <= it.paid <= it.due
    && StatusOk(it)
  }

  predicate IncomingOk(r: Tx)
  {
    && r.kind.Payment? && r.parent.None?
    && (r.status.Confirmable() || r.status.Succeeded? || r.status.Failed? || r.status.Cancelled? || r.status.Expired?)
  }

  predicate OutgoingOk(l: Ledger, r: Tx)
  {
    && r.kind.Refund? && r.parent.Some?
    && (r.status.Succeeded? || r.status.Failed?)
    && r.parent.value in l.txs
    && l.txs[r.parent.value].direction.Incoming? && l.txs[r.parent.value].status.Succeeded?
    && l.txs[r.parent.value].intentId == r.intentId
  }

  predicate RowOk(l: Ledger, r: Tx)
  {
    && 0 < r.amount
    && HasIntent(l, r.intentId, r.merchant)
    && (if r.direction.Incoming? then IncomingOk(r) else OutgoingOk(l, r))
  }

  ghost predicate RowsOk(l: Ledger)
  {
    forall t {:trigger RowOk(l, l.txs[t])} :: t in l.txs ==> RowOk(l, l.txs[t])
  }

  ghost predicate TotalsOk(l: Ledger)
  {
    forall i :: i in l.intents ==>
      l.intents[i].paid == PaidOf(l.txs, i) && l.intents[i].refunded == RefundedOf(l.txs, i)
  }

  ghost predicate SourcesOk(l: Ledger)
  {
    forall p :: p in l.txs && l.txs[p].direction.Incoming? ==> RefundsOf(l.txs, p) <= l.txs[p].amount
  }

  ghost predicate LedgerInv(l: Ledger)
  {
    && (forall i :: i in l.intents ==> IntentOk(l.intents[i]))
    && RowsOk(l)
    && TotalsOk(l)
    && SourcesOk(l)
  }

  // ----- how one changed row moves the sums -----

  lemma PaidAfter(txs: map<TxId, Tx>, t: TxId, r: Tx, i: IntentId)
    ensures PaidOf(txs[t := r], i) == PaidOf(txs, i) - (if t in txs then PaidShare(txs[t], i) else 0) + PaidShare(r, i)
  {
    SumUpdate(txs, PaidWeight(i), txs[t := r], PaidWeight(i), t);
  }

  lemma RefundedAfter(txs: map<TxId, Tx>, t: TxId, r: Tx, i: IntentId)
    ensures RefundedOf(txs[t := r], i) ==
      RefundedOf(txs, i) - (if t in txs then RefundedShare(txs[t], i) else 0) + RefundedShare(r, i)
  {
    SumUpdate(txs, RefundedWeight(i), txs[t := r], RefundedWeight(i), t);
  }

  lemma RefundsAfter(txs: map<TxId, Tx>, t: TxId, r: Tx, p: TxId)
    ensures RefundsOf(txs[t := r], p) ==
      RefundsOf(txs, p) - (if t in txs then ParentShare(txs[t], p) else 0) + ParentShare(r, p)
  {
    SumUpdate(txs, ParentWeight(p), txs[t := r], ParentWeight(p), t);
  }

  /** Rows keep their shape when one is added, or changed without leaving a refund behind. */
  lemma RowsFollow(l: Ledger, l': Ledger, t: TxId, r: Tx)
    requires RowsOk(l) && l'.txs == l.txs[t := r] && RowOk(l, r)
    requires t in l.txs ==> l.txs[t].direction == r.direction && l.txs[t].intentId == r.intentId
                            && (l.txs[t].status.Succeeded? ==> r.status.Succeeded?)
    requires r.parent != Some(t)
    requires forall i, m :: HasIntent(l, i, m) ==> HasIntent(l', i, m)
    ensures RowsOk(l')
  {
    forall u | u in l'.txs
      ensures RowOk(l', l'.txs[u])
    {
      if u != t {
        assert RowOk(l, l.txs[u]);
      }
    }
  }

  lemma RowsKept(l: Ledger, l': Ledger)
    requires RowsOk(l) && l'.txs == l.txs
    requires forall i, m :: HasIntent(l, i, m) ==> HasIntent(l', i, m)
    ensures RowsOk(l')
  {
    forall u | u in l'.txs
      ensures RowOk(l', l'.txs[u])
    {
      assert RowOk(l, l.txs[u]);
    }
  }

  /** The totals follow a changed row when only its intent moves, and by the row's shares. */
  lemma TotalsFollow(l: Ledger, t: TxId, r: Tx, i: IntentId, it: Intent)
    requires TotalsOk(l) && i in l.intents
    requires r.intentId == i && (t in l.txs ==> l.txs[t].intentId == i)
    requires it.paid == l.intents[i].paid - (if t in l.txs then PaidShare(l.txs[t], i) else 0) + PaidShare(r, i)
    requires it.refunded == l.intents[i].refunded - (if t in l.txs then RefundedShare(l.txs[t], i) else 0) + RefundedShare(r, i)
    ensures TotalsOk(Now(l.(txs := l.txs[t := r]), i, it))
  {
    var l' := Now(l.(txs := l.txs[t := r]), i, it);
    forall j | j in l'.intents
      ensures l'.intents[j].paid == PaidOf(l'.txs, j) && l'.intents[j].refunded == RefundedOf(l'.txs, j)
    {
      PaidAfter(l.txs, t, r, j);
      RefundedAfter(l.txs, t, r, j);
    }
  }

  /** The refund bound of every source survives a row change that adds no more than the source has left. */
  lemma SourcesFollow(l: Ledger, l': Ledger, t: TxId, r: Tx)
    requires SourcesOk(l) && l'.txs == l.txs[t := r]
    requires t in l.txs ==> l.txs[t].direction == r.direction && l.txs[t].amount == r.amount && !CountsAsRefunded(l.txs[t])
    requires t !in l.txs && r.direction.Incoming? ==> RefundsOf(l.txs, t) <= r.amount
    requires CountsAsRefunded(r) ==> r.parent.Some? && r.parent.value in l.txs && r.parent.value != t
                                     && RefundsOf(l.txs, r.parent.value) + r.amount <= l.txs[r.parent.value].amount
    ensures SourcesOk(l')
  {
    forall p | p in l'.txs && l'.txs[p].direction.Incoming?
      ensures RefundsOf(l'.txs, p) <= l'.txs[p].amount
    {
      RefundsAfter(l.txs, t, r, p);
    }
  }

  // ----- preservation, one lemma for each kind of step -----

  lemma EmptyInv()
    ensures LedgerInv(Ledger(map[], map[]))
  {
  }

  /** No row refers to an intent that is not there, so a new intent starts with empty sums. */
  lemma NewIntentInv(l: Ledger, i: IntentId, m: MerchantId, due: int, allowPartial: bool, currency: Currency, expiresAt: Option<Time>)
    requires LedgerInv(l) && i !in l.intents && 0 < due
    ensures LedgerInv(Now(l, i, NewIntent(m, due, allowPartial, currency, expiresAt)))
  {
    forall t | t in l.txs
      ensures l.txs[t].intentId != i
    {
      assert RowOk(l, l.txs[t]);
    }
    SumZero(l.txs, PaidWeight(i));
    SumZero(l.txs, RefundedWeight(i));
    RowsKept(l, Now(l, i, NewIntent(m, due, allowPartial, currency, expiresAt)));
  }

  lemma UncountedIncomingInv(l: Ledger, t: TxId, r: Tx)
    requires LedgerInv(l)
    requires t in l.txs ==> l.txs[t].direction.Incoming? && !l.txs[t].status.Succeeded?
                            && l.txs[t].amount == r.amount && l.txs[t].intentId == r.intentId
    requires r.direction.Incoming? && !r.status.Succeeded? && RowOk(l, r)
    ensures LedgerInv(l.(txs := l.txs[t := r]))
  {
    var l' := l.(txs := l.txs[t := r]);
    TotalsFollow(l, t, r, r.intentId, l.intents[r.intentId]);
    assert l' == Now(l', r.intentId, l.intents[r.intentId]);
    if t !in l.txs { NoRefundsOfAbsent(l, t); }
    RowsFollow(l, l', t, r);
    SourcesFollow(l, l', t, r);
  }

  /** A transaction that is not in the table has no refunds. */
  lemma NoRefundsOfAbsent(l: Ledger, t: TxId)
    requires LedgerInv(l) && t !in l.txs
    ensures RefundsOf(l.txs, t) == 0
  {
    forall u | u in l.txs
      ensures l.txs[u].parent != Some(t)
    {
      assert RowOk(l, l.txs[u]);
    }
    SumZero(l.txs, ParentWeight(t));
  }

  lemma IntentChangeInv(l: Ledger, i: IntentId, it: Intent)
    requires LedgerInv(l) && i in l.intents
    requires IntentOk(it) && it.merchant == l.intents[i].merchant
    requires it.paid == l.intents[i].paid && it.refunded == l.intents[i].refunded
    ensures LedgerInv(Now(l, i, it))
  {
    RowsKept(l, Now(l, i, it));
  }

  lemma CreditInv(l: Ledger, t: TxId)
    requires LedgerInv(l) && t in l.txs && l.txs[t].direction.Incoming?
    ensures LedgerInv(CreditRow(l, t).0)
  {
    var l' := CreditRow(l, t).0;
    if l' != l {
      var r, i := l'.txs[t], l.txs[t].intentId;
      assert RowOk(l, l.txs[t]);
      TotalsFollow(l, t, r, i, l'.intents[i]);
      RowsFollow(l, l', t, r);
      SourcesFollow(l, l', t, r);
    }
  }

  lemma FailedRefundInv(l: Ledger, t: TxId, r: Tx)
    requires LedgerInv(l) && t !in l.txs
    requires r.direction.Outgoing? && r.status.Failed? && RowOk(l, r)
    ensures LedgerInv(l.(txs := l.txs[t := r]))
  {
    var l' := l.(txs := l.txs[t := r]);
    TotalsFollow(l, t, r, r.intentId, l.intents[r.intentId]);
    assert l' == Now(l', r.intentId, l.intents[r.intentId]);
    RowsFollow(l, l', t, r);
    SourcesFollow(l, l', t, r);
  }

  lemma RefundInv(l: Ledger, t: TxId, r: Tx)
    requires LedgerInv(l) && t !in l.txs
    requires r.direction.Outgoing? && r.status.Succeeded? && RowOk(l, r)
    requires RefundsOf(l.txs, r.parent.value) + r.amount <= l.txs[r.parent.value].amount
    requires l.intents[r.intentId].refunded + r.amount <= l.intents[r.intentId].paid
    ensures LedgerInv(Now(l.(txs := l.txs[t := r]), r.intentId, RefundedBy(l.intents[r.intentId], r.amount)))
  {
    var it := RefundedBy(l.intents[r.intentId], r.amount);
    var l' := Now(l.(txs := l.txs[t := r]), r.intentId, it);
    TotalsFollow(l, t, r, r.intentId, it);
    RowsFollow(l, l', t, r);
    SourcesFollow(l, l', t, r);
  }
}
