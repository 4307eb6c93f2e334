/**
 * Refund accounting: the outgoing rows of an intent, partitioned by the payment they refund.
 * It is why a refund admitted by the per-source check never meets the SQL guard on the
 * intent, and why the refundable total is what was paid minus what was refunded.
 */
module RefundAccounting {
  import opened Domain
  import opened LedgerSpec
  import opened LedgerInvariant
  import opened Sums

  /** The refunds of source `s` among the rows `some`, if `s` is a paid row of intent `i`. */
  ghost function SourceWeight(some: map<TxId, Tx>, i: IntentId): (TxId, Tx) -> int
  {
    (s: TxId, r: Tx) => if r.intentId == i && CountsAsPaid(r) then SumBy(some, ParentWeight(s)) else 0
  }

  /** What is left to refund of source `s`, if `s` is a paid row of intent `i`. */
  ghost function LeftWeight(txs: map<TxId, Tx>, i: IntentId): (TxId, Tx) -> int
  {
    (s: TxId, r: Tx) => if r.intentId == i && CountsAsPaid(r) then r.amount - RefundsOf(txs, s) else 0
  }

  /** One more refund row moves the sum of exactly one source: its parent's. */
  lemma OneRefundMovesOneSource(l: Ledger, some: map<TxId, Tx>, k: TxId, i: IntentId)
    requires RowsOk(l) && k in some && k in l.txs && some[k] == l.txs[k]
    ensures SumBy(l.txs, SourceWeight(some, i)) ==
      SumBy(l.txs, SourceWeight(some - {k}, i)) + RefundedShare(some[k], i)
  {
    var fewer := some - {k};
    assert RowOk(l, l.txs[k]);
    forall s
      ensures SumBy(some, ParentWeight(s)) == ParentShare(some[k], s) + SumBy(fewer, ParentWeight(s))
    {
      SumPick(some, ParentWeight(s), k);
    }
    if RefundedShare(some[k], i) != 0 {
      var p := some[k].parent.value;
      var w, w' := SourceWeight(fewer, i), SourceWeight(some, i);
      assert forall s :: s in l.txs && s != p ==> w(s, l.txs[s]) == w'(s, l.txs[s]);
      assert w'(p, l.txs[p]) == w(p, l.txs[p]) + ParentShare(some[k], p);
      SumUpdate(l.txs, w, l.txs, w', p);
    } else {
      SumSame(l.txs, SourceWeight(fewer, i), l.txs, SourceWeight(some, i));
    }
  }

  /** The refund rows `some` of an intent, summed directly and summed source by source. */
  lemma {:induction false} PartitionByParent(l: Ledger, some: map<TxId, Tx>, i: IntentId)
    requires RowsOk(l)
    requires forall t :: t in some ==> t in l.txs && some[t] == l.txs[t]
    ensures SumBy(some, RefundedWeight(i)) == SumBy(l.txs, SourceWeight(some, i))
    decreases |some|
  {
    if some.Keys == {} {
      assert forall s :: SumBy(some, ParentWeight(s)) == 0;
      SumZero(l.txs, SourceWeight(some, i));
    } else {
      var k := Pick(some);
      PartitionByParent(l, some - {k}, i);
      OneRefundMovesOneSource(l, some, k, i);
    }
  }

  /** Everything left to refund on an intent, source by source, is paid minus refunded. */
  lemma LeftIsPaidMinusRefunded(l: Ledger, i: IntentId)
    requires LedgerInv(l) && i in l.intents
    ensures SumBy(l.txs, LeftWeight(l.txs, i)) == l.intents[i].paid - l.intents[i].refunded
  {
    PartitionByParent(l, l.txs, i);
    SumMinus(l.txs, PaidWeight(i), SourceWeight(l.txs, i), LeftWeight(l.txs, i));
  }

  /** A refund within what its source has left is within what its intent has left. */
  lemma SourceCheckImpliesIntentGuard(l: Ledger, s: TxId, amount: int)
    requires LedgerInv(l) && s in l.txs && CountsAsPaid(l.txs[s])
    requires amount <= l.txs[s].amount - RefundsOf(l.txs, s)
    ensures l.txs[s].intentId in l.intents
    ensures l.intents[l.txs[s].intentId].refunded + amount <= l.intents[l.txs[s].intentId].paid
  {
    assert RowOk(l, l.txs[s]);
    var i := l.txs[s].intentId;
    LeftIsPaidMinusRefunded(l, i);
    SumAtLeastTwo(l.txs, LeftWeight(l.txs, i), s, s);
  }
}
