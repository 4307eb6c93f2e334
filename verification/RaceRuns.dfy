/** States that runs of the interleaved layer reach from the empty ledger, and where a promise fails. */
module RaceRuns {
  import opened Domain
  import opened LedgerSpec
  import opened LedgerInvariant
  import opened Interleaving
  import opened Races
  import opened Sums
  import CreateGatewayPayment
  import RefundPayment

  ghost predicate Reached(s: Sys)
  {
    exists states, actions :: IsRun(states, actions) && states[|actions|] == s
  }

  lemma InitialIsReached()
    ensures Reached(Initial)
  {
    assert IsRun([Initial], []);
  }

  /** One more step. */
  lemma Then(s: Sys, x: Action, s': Sys)
    requires Reached(s) && Enabled(s, x) && s' == Do(s, x)
    ensures Reached(s')
  {
    var states, actions :| IsRun(states, actions) && states[|actions|] == s;
    var more, xs := states + [s'], actions + [x];
    forall k | 0 <= k < |xs|
      ensures Enabled(more[k], xs[k]) && more[k + 1] == Do(more[k], xs[k])
    {
      if k < |actions| {
        assert more[k] == states[k] && more[k + 1] == states[k + 1] && xs[k] == actions[k];
      }
    }
    assert IsRun(more, xs) && more[|xs|] == s';
  }

  // ----- one intent, payments of 1 and refunds of the first -----

  function Due(due: int, paid: int, refunded: int, status: IntentStatus): map<IntentId, Intent>
  {
    map[0 := Intent(0, due, paid, refunded, due - paid, status, true, 0, None)]
  }

  function PaymentRow(reference: Reference, status: TxStatus): Tx
  {
    Tx(0, 0, FakeGateway, TxKind.Payment, Incoming, status, 1, 0, None, Some(reference), None, None)
  }

  function RefundRow(status: TxStatus): Tx
  {
    Tx(0, 0, FakeGateway, TxKind.Refund, Outgoing, status, 1, 0, Some(0), None, None, None)
  }

  const Asks := CreateGatewayPayment.Request(0, 0, FakeGateway, 1, None)

  function Answers(reference: Reference, status: CreateGatewayPayment.PaymentStatus): CreateGatewayPayment.Outcome
  {
    CreateGatewayPayment.Answered(status, reference, None)
  }

  function Quiet(l: Ledger, credited: set<TxId>): Sys { Sys(l, credited, {}, map[], map[]) }

  lemma IntentReached(due: int)
    requires 0 < due
    ensures Reached(Quiet(Ledger(Due(due, 0, 0, RequiresPayment), map[]), {}))
  {
    InitialIsReached();
    Then(Initial, CreateIntent(0, 0, due, true, 0, None), Quiet(Ledger(Due(due, 0, 0, RequiresPayment), map[]), {}));
  }

  // ----- a blind write lands on a credited row -----

  const Void := TxChange(TxStatus.Cancelled, None, None)

  const VoidHasRead := Quiet(Ledger(Due(1, 0, 0, RequiresPayment), map[0 := PaymentRow("a", TxStatus.Pending)]), {})
    .(actors := map[1 := Writing(0, 0, Void)])

  lemma VoidHasReadIsReached()
    ensures Reached(VoidHasRead)
  {
    IntentReached(1);
    var s1 := Quiet(Ledger(Due(1, 0, 0, RequiresPayment), map[]), {});
    var s2 := s1.(actors := map[0 := Inserting(PaymentRow("a", TxStatus.Pending), false)]);
    Then(s1, BeginCreate(0, Asks, 0, Answers("a", TxStatus.Pending)), s2);
    var s3 := Quiet(VoidHasRead.l, {});
    assert Do(s2, InsertPayment(0, 0)) == s3;
    Then(s2, InsertPayment(0, 0), s3);
    Then(s3, BeginWrite(1, 0, Void), VoidHasRead);
  }

  const VoidWaits := Quiet(Ledger(Due(1, 1, 0, Paid), map[0 := PaymentRow("a", TxStatus.Succeeded)]), {0}).(actors := VoidHasRead.actors)

  lemma VoidWaitsIsReached()
    ensures Reached(VoidWaits)
  {
    VoidHasReadIsReached();
    var s5 := VoidHasRead.(actors := map[1 := Writing(0, 0, Void), 2 := Crediting(0, 0, 0, 1)]);
    Then(VoidHasRead, BeginCredit(2, 0), s5);
    assert Do(s5, DoCredit(2)) == VoidWaits;
    Then(s5, DoCredit(2), VoidWaits);
  }

  /** A void reads the payment while it is pending, a webhook credits it, and the void's write follows. */
  lemma VoidOverwritesACredit()
    ensures var l := Ledger(Due(1, 1, 0, Paid), map[0 := PaymentRow("a", TxStatus.Cancelled)]);
      Reached(Quiet(l, {0})) && l.intents[0].paid == 1 && PaidOf(l.txs, 0) == 0 && !TotalsOk(l)
  {
    VoidWaitsIsReached();
    var s7 := Quiet(Ledger(Due(1, 1, 0, Paid), map[0 := PaymentRow("a", TxStatus.Cancelled)]), {0});
    assert Do(VoidWaits, DoWrite(1)) == s7;
    Then(VoidWaits, DoWrite(1), s7);
    SumZero(s7.l.txs, PaidWeight(0));
  }

  // ----- two payments, and refunds of the first -----

  /** A payment the provider reports as succeeded is inserted as pending and credited. */
  lemma PaymentReached(l: Ledger, credited: set<TxId>, t: TxId, reference: Reference, l': Ledger)
    requires Reached(Quiet(l, credited)) && t !in l.txs
    requires CreateGatewayPayment.Refusal(l, Asks, 0, None).None? && l.intents[0].currency == 0
    requires IndexesAdmit(l, t, PaymentRow(reference, TxStatus.Pending))
    requires l' == CreditRow(l.(txs := l.txs[t := PaymentRow(reference, TxStatus.Pending)]), t).0
    ensures Reached(Quiet(l', credited + {t}))
  {
    var row := PaymentRow(reference, TxStatus.Pending);
    var s1 := Quiet(l, credited);
    var s2 := s1.(actors := map[0 := Inserting(row, true)]);
    Then(s1, BeginCreate(0, Asks, 0, Answers(reference, TxStatus.Succeeded)), s2);
    var s3 := Quiet(l.(txs := l.txs[t := row]), credited).(actors := map[0 := Crediting(t, 0, 0, 1)]);
    assert Do(s2, InsertPayment(0, t)) == s3;
    Then(s2, InsertPayment(0, t), s3);
    assert Do(s3, DoCredit(0)) == Quiet(l', credited + {t});
    Then(s3, DoCredit(0), Quiet(l', credited + {t}));
  }

  const OnePaid := Ledger(Due(2, 1, 0, PartiallyPaid), map[0 := PaymentRow("a", TxStatus.Succeeded)])

  const TwoPaid := Ledger(Due(2, 2, 0, Paid), map[0 := PaymentRow("a", TxStatus.Succeeded), 1 := PaymentRow("b", TxStatus.Succeeded)])

  lemma OnePaidIsReached()
    ensures Reached(Quiet(OnePaid, {0}))
  {
    IntentReached(2);
    PaymentReached(Ledger(Due(2, 0, 0, RequiresPayment), map[]), {}, 0, "a", OnePaid);
    assert {} + {0} == {0};
  }

  lemma TwoPaidIsReached()
    ensures Reached(Quiet(TwoPaid, {0, 1}))
  {
    OnePaidIsReached();
    assert "a" != "b";
    PaymentReached(OnePaid, {0}, 1, "b", TwoPaid);
    assert {0} + {1} == {0, 1};
  }

  const AsksBack := RefundPayment.Request(0, 0, 1, None)
  const Provider := RefundPayment.Refunds(None)
  const RefundCall := Call(0, 0, 1, Provider)

  /** A refund of the first payment passes its checks, as long as none has succeeded, and its row goes in. */
  lemma RefundOpened(s: Sys, t: TxId, s': Sys)
    requires Reached(s) && s.actors == map[] && t !in s.l.txs
    requires 0 in s.l.txs && s.l.txs[0] == PaymentRow("a", TxStatus.Succeeded) && HasIntent(s.l, 0, 0)
    requires RefundsOf(s.l.txs, 0) == 0
    requires s' == s.(l := s.l.(txs := s.l.txs[t := RefundRow(TxStatus.Pending)]), calls := s.calls[t := RefundCall])
    ensures Reached(s')
  {
    var row := RefundRow(TxStatus.Pending);
    var s1 := s.(actors := map[0 := InsertingRefund(row, Provider)]);
    assert RefundPayment.Found(s.l, AsksBack) && RefundPayment.Admitted(s.l, AsksBack, Provider);
    Then(s, BeginRefund(0, AsksBack, Provider), s1);
    assert Do(s1, InsertRefund(0, t)) == s';
    Then(s1, InsertRefund(0, t), s');
  }

  /** Confirming a pending refund row by its id credits the customer's refund as a payment. */
  lemma ConfirmingARefundRow()
    ensures var l := Ledger(Due(2, 2, 0, Paid), OnePaid.txs[1 := RefundRow(TxStatus.Succeeded)]);
      && Reached(Quiet(l, {0, 1}).(calls := map[1 := RefundCall]))
      && l.intents[0].paid == 2 && PaidOf(l.txs, 0) == 1 && !TotalsOk(l)
  {
    OnePaidIsReached();
    SumZero(OnePaid.txs, ParentWeight(0));
    var s1 := Quiet(OnePaid.(txs := OnePaid.txs[1 := RefundRow(TxStatus.Pending)]), {0}).(calls := map[1 := RefundCall]);
    RefundOpened(Quiet(OnePaid, {0}), 1, s1);
    var s2 := s1.(actors := map[0 := Crediting(1, 0, 0, 1)]);
    Then(s1, BeginCredit(0, 1), s2);
    var l := Ledger(Due(2, 2, 0, Paid), OnePaid.txs[1 := RefundRow(TxStatus.Succeeded)]);
    var s3 := Quiet(l, {0, 1}).(calls := map[1 := RefundCall]);
    assert Do(s2, DoCredit(0)) == s3;
    Then(s2, DoCredit(0), s3);
    PaidOfOne();
    PaidAfter(OnePaid.txs, 1, RefundRow(TxStatus.Succeeded), 0);
  }

  lemma PaidOfOne()
    ensures PaidOf(OnePaid.txs, 0) == 1
  {
    var none: map<TxId, Tx> := map[];
    assert OnePaid.txs == none[0 := PaymentRow("a", TxStatus.Succeeded)];
    PaidAfter(none, 0, PaymentRow("a", TxStatus.Succeeded), 0);
  }

  const OneOpen := TwoPaid.txs[2 := RefundRow(TxStatus.Pending)]
  const BothOpen := OneOpen[3 := RefundRow(TxStatus.Pending)]
  const OneSettled := BothOpen[2 := RefundRow(TxStatus.Succeeded)]
  const BothSettled := OneSettled[3 := RefundRow(TxStatus.Succeeded)]

  lemma BothRefundsAdmitted()
    ensures Reached(Quiet(TwoPaid.(txs := BothOpen), {0, 1}).(calls := map[2 := RefundCall, 3 := RefundCall]))
    ensures RefundsOf(BothOpen, 0) == 0
  {
    TwoPaidIsReached();
    SumZero(TwoPaid.txs, ParentWeight(0));
    var s1 := Quiet(TwoPaid.(txs := OneOpen), {0, 1}).(calls := map[2 := RefundCall]);
    RefundOpened(Quiet(TwoPaid, {0, 1}), 2, s1);
    SumZero(OneOpen, ParentWeight(0));
    var s2 := Quiet(TwoPaid.(txs := BothOpen), {0, 1}).(calls := map[2 := RefundCall, 3 := RefundCall]);
    RefundOpened(s1, 3, s2);
    SumZero(BothOpen, ParentWeight(0));
  }

  lemma OneSettledIsReached()
    ensures Reached(Sys(Ledger(Due(2, 2, 1, Paid), OneSettled), {0, 1}, {2}, map[], map[3 := RefundCall]))
  {
    BothRefundsAdmitted();
    var s2 := Quiet(TwoPaid.(txs := BothOpen), {0, 1}).(calls := map[2 := RefundCall, 3 := RefundCall]);
    var s3 := Sys(Ledger(Due(2, 2, 1, Paid), OneSettled), {0, 1}, {2}, map[], map[3 := RefundCall]);
    assert Do(s2, SettleRefund(2)) == s3;
    Then(s2, SettleRefund(2), s3);
  }

  /**
   * Two refunds of one payment of 1, on an intent paid 2 in two payments: the second is checked
   * when the row of the first is already there but not settled, so both pass and both settle.
   */
  lemma BothRefundsSettle()
    ensures Reached(Sys(Ledger(Due(2, 2, 2, IntentStatus.Refunded), BothSettled), {0, 1}, {2, 3}, map[], map[]))
    ensures RefundsOf(BothSettled, 0) == 2 && BothSettled[0].amount == 1
  {
    OneSettledIsReached();
    var s3 := Sys(Ledger(Due(2, 2, 1, Paid), OneSettled), {0, 1}, {2}, map[], map[3 := RefundCall]);
    var s4 := Sys(Ledger(Due(2, 2, 2, IntentStatus.Refunded), BothSettled), {0, 1}, {2, 3}, map[], map[]);
    assert Do(s3, SettleRefund(3)) == s4;
    Then(s3, SettleRefund(3), s4);
    BothCounted();
  }

  lemma BothCounted()
    ensures RefundsOf(BothSettled, 0) == 2
  {
    SumZero(BothOpen, ParentWeight(0));
    RefundsAfter(BothOpen, 2, RefundRow(TxStatus.Succeeded), 0);
    RefundsAfter(OneSettled, 3, RefundRow(TxStatus.Succeeded), 0);
  }

  // ----- two payments waiting -----

  lemma PendingReached(l: Ledger, t: TxId, reference: Reference)
    requires Reached(Quiet(l, {})) && t !in l.txs
    requires CreateGatewayPayment.Refusal(l, Asks, 0, None).None? && l.intents[0].currency == 0
    requires IndexesAdmit(l, t, PaymentRow(reference, TxStatus.Pending))
    ensures Reached(Quiet(l.(txs := l.txs[t := PaymentRow(reference, TxStatus.Pending)]), {}))
  {
    var row := PaymentRow(reference, TxStatus.Pending);
    var s1 := Quiet(l, {});
    var s2 := s1.(actors := map[0 := Inserting(row, false)]);
    Then(s1, BeginCreate(0, Asks, 0, Answers(reference, TxStatus.Pending)), s2);
    var s3 := Quiet(l.(txs := l.txs[t := row]), {});
    assert Do(s2, InsertPayment(0, t)) == s3;
    Then(s2, InsertPayment(0, t), s3);
  }

  /** Two payments of 1 recorded on one intent: each was checked against what remained then, which is all of it. */
  function BothPending(due: int): Ledger
  {
    Ledger(Due(due, 0, 0, RequiresPayment), map[0 := PaymentRow("a", TxStatus.Pending), 1 := PaymentRow("b", TxStatus.Pending)])
  }

  lemma BothPendingIsReached(due: int)
    requires 0 < due
    ensures Reached(Quiet(BothPending(due), {}))
  {
    var l := Ledger(Due(due, 0, 0, RequiresPayment), map[]);
    IntentReached(due);
    PendingReached(l, 0, "a");
    var l1 := l.(txs := l.txs[0 := PaymentRow("a", TxStatus.Pending)]);
    assert "a" != "b";
    PendingReached(l1, 1, "b");
    assert l1.(txs := l1.txs[1 := PaymentRow("b", TxStatus.Pending)]) == BothPending(due);
  }
}
