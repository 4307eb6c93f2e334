/**
 * What the programs of the interleaved layer come to when nothing runs between their steps:
 * just what the use cases they stand for do to the ledger.
 */
module Solo {
  import opened Domain
  import opened LedgerSpec
  import opened LedgerInvariant
  import opened CreditPaths
  import opened Sequential
  import opened Interleaving
  import opened StaleWrites
  import CreateGatewayPayment
  import RefundPayment
  import VoidPayment

  /** A payment that the provider has taken is recorded, and credited if it has succeeded. */
  lemma CreateAlone(s: Sys, a: ActorId, t: TxId, q: CreateGatewayPayment.Request, now: Time, outcome: CreateGatewayPayment.Outcome)
    requires a !in s.actors && t !in s.l.txs && outcome.Answered?
    requires CreateGatewayPayment.Refusal(s.l, q, now, None).None? && LedgerInv(s.l)
    requires IndexesAdmit(s.l, t, CreateGatewayPayment.Row(q, s.l.intents[q.intentId], outcome))
    ensures var row := CreateGatewayPayment.Row(q, s.l.intents[q.intentId], outcome);
      && Enabled(s, BeginCreate(a, q, now, outcome))
      && var s1 := Do(s, BeginCreate(a, q, now, outcome));
      && Enabled(s1, InsertPayment(a, t))
      && var s2 := Do(s1, InsertPayment(a, t));
      if outcome.status.Succeeded? then
        && Enabled(s2, DoCredit(a)) && Do(s2, DoCredit(a)).actors == s.actors
        && Next(s.l, PaymentCredited(t, row), Do(s2, DoCredit(a)).l)
      else s2.actors == s.actors && Next(s.l, PaymentRecorded(t, row), s2.l)
  {
  }

  /** A refund in flight: its row is stored, and the provider is being asked. */
  function InFlight(s: Sys, t: TxId, q: RefundPayment.Request, adapter: RefundPayment.Adapter): Sys
    requires RefundPayment.Found(s.l, q)
  {
    var row := RefundPayment.RefundRow(q, s.l.txs[q.source], TxStatus.Pending, None);
    s.(l := s.l.(txs := s.l.txs[t := row]), calls := s.calls[t := Call(row.merchant, row.intentId, row.amount, adapter)])
  }

  lemma RefundStarts(s: Sys, a: ActorId, t: TxId, q: RefundPayment.Request, adapter: RefundPayment.Adapter)
    requires a !in s.actors && t !in s.l.txs && RefundPayment.Found(s.l, q) && RefundPayment.Admitted(s.l, q, adapter)
    requires IndexesAdmit(s.l, t, RefundPayment.RefundRow(q, s.l.txs[q.source], TxStatus.Pending, None))
    ensures Enabled(s, BeginRefund(a, q, adapter)) && Enabled(Do(s, BeginRefund(a, q, adapter)), InsertRefund(a, t))
    ensures Do(Do(s, BeginRefund(a, q, adapter)), InsertRefund(a, t)) == InFlight(s, t, q, adapter)
  {
  }

  /** The write that follows the provider's answer, on the ledger with the row in it. */
  lemma PendingSettles(l: Ledger, t: TxId, q: RefundPayment.Request, adapter: RefundPayment.Adapter)
    requires t !in l.txs && RefundPayment.Found(l, q) && RefundPayment.FreshReference(l, q, adapter)
    requires l.intents[l.txs[q.source].intentId].refunded + q.amount <= l.intents[l.txs[q.source].intentId].paid
    ensures var asked := l.(txs := l.txs[t := RefundPayment.RefundRow(q, l.txs[q.source], TxStatus.Pending, None)]);
      var reference := if adapter.Absent? then None else adapter.reference;
      RefundPayment.Settled(l, t, q, adapter) ==
        if adapter.Rejects? then UpdateTxStatus(asked, t, q.merchant, TxChange(TxStatus.Failed, reference, None)).0
        else ApplySucceededRefund(asked, t, q.merchant, l.txs[q.source].intentId, q.amount, reference).0
  {
  }

  /** A refund that was admitted ends settled, accepted or rejected by the provider. */
  lemma RefundAlone(s: Sys, t: TxId, q: RefundPayment.Request, adapter: RefundPayment.Adapter)
    requires t !in s.l.txs && t !in s.calls && LedgerInv(s.l) && RefundPayment.Found(s.l, q)
    requires RefundPayment.Admitted(s.l, q, adapter) && RefundPayment.FreshReference(s.l, q, adapter)
    ensures var asked := InFlight(s, t, q, adapter);
      && Enabled(asked, SettleRefund(t))
      && Do(asked, SettleRefund(t)).l == RefundPayment.Settled(s.l, t, q, adapter) && Do(asked, SettleRefund(t)).calls == s.calls
  {
    RefundPayment.AdmittedRefundSettles(s.l, t, q, adapter);
    PendingSettles(s.l, t, q, adapter);
  }

  /** A verdict read and applied is the verdict's effect. */
  lemma VerdictAlone(s: Sys, a: ActorId, t: TxId, verdict: TxStatus)
    requires a !in s.actors && Sound(s.l, t) && s.l.txs[t].status.Confirmable()
    requires verdict.Succeeded? || Closes(verdict)
    ensures var begin := if verdict.Succeeded? then BeginCredit(a, t) else BeginWrite(a, t, TxChange(verdict, None, None));
      var apply := if verdict.Succeeded? then DoCredit(a) else DoWrite(a);
      && Enabled(s, begin) && Enabled(Do(s, begin), apply)
      && Do(Do(s, begin), apply).l == VerdictEffect(s.l, t, verdict, None) && Do(Do(s, begin), apply).actors == s.actors
  {
  }

  /** A void that is not refused writes what the use case writes. */
  lemma VoidAlone(s: Sys, a: ActorId, t: TxId, m: MerchantId, key: Option<IdempotencyKey>, adapter: VoidPayment.Adapter,
                  r: Result<VoidPayment.Outcome>, l': Ledger)
    requires a !in s.actors && HasTx(s.l, t, m) && VoidPayment.Decides(s.l, t, m, key, adapter, r, l')
    requires s.l.txs[t].status.Confirmable() && VoidPayment.Refusal(s.l, t, adapter).None?
    ensures var begin := BeginWrite(a, t, VoidPayment.Change(adapter, key));
      && Enabled(s, begin) && Enabled(Do(s, begin), DoWrite(a))
      && Do(Do(s, begin), DoWrite(a)).l == l' && Do(Do(s, begin), DoWrite(a)).actors == s.actors
  {
  }

  /** Closing a row and then its intent is an expiry run on the two. */
  lemma ExpireAlone(s: Sys, a: ActorId, t: TxId)
    requires a !in s.actors && Sound(s.l, t) && s.l.txs[t].status.Confirmable()
    requires var it := s.l.intents[s.l.txs[t].intentId]; Active(it) && 0 < it.remaining
    ensures var i := s.l.txs[t].intentId;
      var write := BeginWrite(a, t, TxChange(TxStatus.Expired, None, None));
      && Enabled(s, write) && Enabled(Do(s, write), DoWrite(a))
      && var s2 := Do(Do(s, write), DoWrite(a));
      && Enabled(s2, BeginExpire(a, i)) && Enabled(Do(s2, BeginExpire(a, i)), DoExpire(a))
      && Do(Do(s2, BeginExpire(a, i)), DoExpire(a)).l == Expire(s.l, {t}, {i})
  {
    var i := s.l.txs[t].intentId;
    var write := BeginWrite(a, t, TxChange(TxStatus.Expired, None, None));
    var s2 := Do(Do(s, write), DoWrite(a));
    assert s2.l.txs == Expire(s.l, {t}, {i}).txs;
    assert Do(Do(s2, BeginExpire(a, i)), DoExpire(a)).l.intents == Expire(s.l, {t}, {i}).intents;
  }

  /** The credit in four statements passes through both crashed states and ends as the guarded credit does. */
  lemma StaleCreditAlone(w: World, a: ActorId, t: TxId)
    requires a !in w.stale && Sound(w.s.l, t) && Credits(w.s.l, t)
    ensures Possible(w, Read(a, t))
    ensures var w1 := After(w, Read(a, t));
      && Possible(w1, Mark(a))
      && var w2 := After(w1, Mark(a));
      && w2.s.l == Crashed(w.s.l, t, AfterMark) && Possible(w2, WriteTotals(a))
      && var w3 := After(w2, WriteTotals(a));
      && w3.s.l == Crashed(w.s.l, t, AfterTotals) && Possible(w3, WriteStatus(a))
      && var w4 := After(w3, WriteStatus(a));
      && w4.s.l == CreditRow(w.s.l, t).0 && w4.stale == w.stale
  {
    var w1 := After(w, Read(a, t));
    var w2 := After(w1, Mark(a));
    var w3 := After(w2, WriteTotals(a));
    var w4 := After(w3, WriteStatus(a));
    var i := w.s.l.txs[t].intentId;
    assert w4.s.l.intents[i] == CreditRow(w.s.l, t).0.intents[i];
    assert w4.s.l.intents == CreditRow(w.s.l, t).0.intents;
  }
}
