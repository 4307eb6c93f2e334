/**
 * Use cases running at the same time. Each is a small program whose steps, single database
 * statements or transactions, interleave with everyone else's; between two steps it holds
 * only what it has read, which may be stale.
 *
 * The programs here write totals through guarded updates only. Those that write totals
 * computed from a read are added in module StaleWrites.
 */
module Interleaving {
  import opened Domain
  import opened LedgerSpec
  import opened LedgerInvariant
  import opened CreditPaths
  import opened Sequential
  import opened Sums
  import CreateGatewayPayment
  import RefundPayment

  type ActorId = nat

  /** Where a running use case is, and what it remembers. */
  datatype Pc =
    | Inserting(row: Tx, succeeded: bool)                                     // create: the provider answered
    | Crediting(t: TxId, m: MerchantId, i: IntentId, amount: int)             // create, webhook, confirm
    | Writing(t: TxId, m: MerchantId, change: TxChange)                       // webhook, refresh, void, expire
    | Expiring(i: IntentId, m: MerchantId)                                    // expire: the intent's status
    | InsertingRefund(row: Tx, adapter: RefundPayment.Adapter)                // refund: all checks passed

  /** A refund between the insert of its row and the write of its outcome. */
  datatype Call = Call(m: MerchantId, i: IntentId, amount: int, adapter: RefundPayment.Adapter)

  /**
   * `credited` and `applied` remember the rows whose amount was added to an intent's paid and
   * refunded totals; no program reads them. A refund in flight is named by its row.
   */
  datatype Sys = Sys(l: Ledger, credited: set<TxId>, applied: set<TxId>, actors: map<ActorId, Pc>, calls: map<TxId, Call>)

  const Initial := Sys(Ledger(map[], map[]), {}, {}, map[], map[])

  datatype Action =
    | CreateIntent(i: IntentId, m: MerchantId, due: int, allowPartial: bool, currency: Currency, expiresAt: Option<Time>)
    | BeginCreate(a: ActorId, q: CreateGatewayPayment.Request, now: Time, outcome: CreateGatewayPayment.Outcome)
    | InsertPayment(a: ActorId, t: TxId)
    | BeginCredit(a: ActorId, t: TxId)
    | DoCredit(a: ActorId)
    | BeginWrite(a: ActorId, t: TxId, change: TxChange)
    | DoWrite(a: ActorId)
    | BeginExpire(a: ActorId, i: IntentId)
    | DoExpire(a: ActorId)
    | BeginRefund(a: ActorId, request: RefundPayment.Request, adapter: RefundPayment.Adapter)
    | InsertRefund(a: ActorId, t: TxId)
    | SettleRefund(t: TxId)
    | Die(a: ActorId)
    | DieInRefund(t: TxId)

  /** A status a blind write may set: it only ever closes a row. */
  predicate Closes(v: TxStatus) { v.Failed? || v.Cancelled? || v.Expired? }

  /** What a program checked when it read, and whether a step is its next one. */
  ghost predicate Enabled(s: Sys, x: Action)
  {
    match x
    case CreateIntent(i, m, due, allowPartial, currency, expiresAt) => i !in s.l.intents && 0 < due
    case BeginCreate(a, q, now, outcome) =>
      a !in s.actors && outcome.Answered? && CreateGatewayPayment.Refusal(s.l, q, now, None).None?
    case InsertPayment(a, t) => a in s.actors && s.actors[a].Inserting? && t !in s.l.txs
    case BeginCredit(a, t) => a !in s.actors && t in s.l.txs && !ReplayTerminal(s.l.txs[t].status)
    case DoCredit(a) => a in s.actors && s.actors[a].Crediting?
    case BeginWrite(a, t, change) =>
      && a !in s.actors && t in s.l.txs && !ReplayTerminal(s.l.txs[t].status) && Closes(change.status)
      && (change.key.Some? ==> s.l.txs[t].direction.Incoming?)                // only a void sets a key, and it checks this
    case DoWrite(a) => a in s.actors && s.actors[a].Writing?
    case BeginExpire(a, i) => a !in s.actors && i in s.l.intents && Active(s.l.intents[i]) && 0 < s.l.intents[i].remaining
    case DoExpire(a) => a in s.actors && s.actors[a].Expiring?
    case BeginRefund(a, q, adapter) =>
      a !in s.actors && RefundPayment.Found(s.l, q) && RefundPayment.Admitted(s.l, q, adapter)
    case InsertRefund(a, t) => a in s.actors && s.actors[a].InsertingRefund? && t !in s.l.txs
    case SettleRefund(t) => t in s.calls
    case Die(a) => a in s.actors
    case DieInRefund(t) => t in s.calls
  }

  /** The one statement a step runs, on the ledger as it is by then. */
  ghost function Do(s: Sys, x: Action): Sys
    requires Enabled(s, x)
  {
    match x
    case CreateIntent(i, m, due, allowPartial, currency, expiresAt) =>
      s.(l := Now(s.l, i, NewIntent(m, due, allowPartial, currency, expiresAt)))
    case BeginCreate(a, q, now, outcome) =>
      var row := CreateGatewayPayment.Row(q, s.l.intents[q.intentId], outcome);
      s.(actors := s.actors[a := Inserting(row, outcome.status.Succeeded?)])
    case InsertPayment(a, t) =>
      var Inserting(row, succeeded) := s.actors[a];
      var (l, r) := InsertTx(s.l, t, row);
      s.(l := l,
         actors := if r.Ok? && succeeded then s.actors[a := Crediting(t, row.merchant, row.intentId, row.amount)]
                   else s.actors - {a})
    case BeginCredit(a, t) =>
      var row := s.l.txs[t];
      s.(actors := s.actors[a := Crediting(t, row.merchant, row.intentId, row.amount)])
    case DoCredit(a) =>
      var Crediting(t, m, i, amount) := s.actors[a];
      var (l, r) := ApplySucceededPayment(s.l, t, m, i, amount);
      s.(l := l,
         credited := if r.Ok? && r.value.changed then s.credited + {t} else s.credited,
         actors := s.actors - {a})
    case BeginWrite(a, t, change) =>
      s.(actors := s.actors[a := Writing(t, s.l.txs[t].merchant, change)])
    case DoWrite(a) =>
      var Writing(t, m, change) := s.actors[a];
      s.(l := UpdateTxStatus(s.l, t, m, change).0, actors := s.actors - {a})
    case BeginExpire(a, i) =>
      s.(actors := s.actors[a := Expiring(i, s.l.intents[i].merchant)])
    case DoExpire(a) =>
      var Expiring(i, m) := s.actors[a];
      s.(l := if HasIntent(s.l, i, m) then UpdateIntentStatus(s.l, i, IntentStatus.Expired) else s.l, actors := s.actors - {a})
    case BeginRefund(a, q, adapter) =>
      var row := RefundPayment.RefundRow(q, s.l.txs[q.source], TxStatus.Pending, None);
      s.(actors := s.actors[a := InsertingRefund(row, adapter)])
    case InsertRefund(a, t) =>
      var InsertingRefund(row, adapter) := s.actors[a];
      var (l, r) := InsertTx(s.l, t, row);
      s.(l := l,
         actors := s.actors - {a},
         calls := if r.Ok? then s.calls[t := Call(row.merchant, row.intentId, row.amount, adapter)] else s.calls)
    case SettleRefund(t) =>
      var Call(m, i, amount, adapter) := s.calls[t];
      var reference := if adapter.Absent? then None else adapter.reference;
      if adapter.Rejects? then
        s.(l := UpdateTxStatus(s.l, t, m, TxChange(TxStatus.Failed, reference, None)).0, calls := s.calls - {t})
      else
        var (l, r) := ApplySucceededRefund(s.l, t, m, i, amount, reference);
        s.(l := l, applied := if r.Ok? then s.applied + {t} else s.applied, calls := s.calls - {t})
    case Die(a) => s.(actors := s.actors - {a})
    case DieInRefund(t) => s.(calls := s.calls - {t})
  }

  // ----- the invariant -----

  function CreditedShare(s: Sys, t: TxId, r: Tx, i: IntentId): int { if t in s.credited && r.intentId == i then r.amount else 0 }

  function AppliedShare(s: Sys, t: TxId, r: Tx, i: IntentId): int { if t in s.applied && r.intentId == i then r.amount else 0 }

  ghost function CreditedWeight(s: Sys, i: IntentId): (TxId, Tx) -> int { (t: TxId, r: Tx) => CreditedShare(s, t, r, i) }

  ghost function AppliedWeight(s: Sys, i: IntentId): (TxId, Tx) -> int { (t: TxId, r: Tx) => AppliedShare(s, t, r, i) }

  /** The amounts ever credited to an intent, and ever refunded from it. */
  ghost function CreditedTo(s: Sys, i: IntentId): int { SumBy(s.l.txs, CreditedWeight(s, i)) }

  ghost function AppliedTo(s: Sys, i: IntentId): int { SumBy(s.l.txs, AppliedWeight(s, i)) }

  predicate Conserved(it: Intent)
  {
    && 0 < it.due && it.paid + it.remaining == it.due && 0 <= it.refunded <= it.paid <= it.due
    && (it.status.RequiresPayment? || it.status.PartiallyPaid? || it.status.Paid? || it.status.Refunded? || it.status.Expired?)
  }

  /** The columns no write ever changes. */
  predicate SameTerms(r: Tx, r': Tx)
  {
    r'.(status := r.status, reference := r.reference, key := r.key) == r
  }

  predicate OutgoingShape(l: Ledger, r: Tx)
  {
    && r.kind.Refund? && r.parent.Some? && r.parent.value in l.txs
    && l.txs[r.parent.value].direction.Incoming? && l.txs[r.parent.value].intentId == r.intentId
  }

  predicate RowShape(l: Ledger, r: Tx)
  {
    0 < r.amount && HasIntent(l, r.intentId, r.merchant) && (r.direction.Outgoing? ==> OutgoingShape(l, r))
  }

  /** A counted row can never be confirmed again, and only counted rows are succeeded. */
  predicate RowCounted(s: Sys, t: TxId, r: Tx)
  {
    && (t in s.credited || t in s.applied ==> !r.status.Confirmable())
    && (r.status.Succeeded? ==> t in s.credited || t in s.applied)
    && (t in s.applied ==> r.direction.Outgoing? && t !in s.calls)
  }

  ghost predicate RowsInv(s: Sys)
  {
    forall t {:trigger RowShape(s.l, s.l.txs[t])} :: t in s.l.txs ==> RowShape(s.l, s.l.txs[t]) && RowCounted(s, t, s.l.txs[t])
  }

  ghost predicate TotalsInv(s: Sys)
  {
    forall i :: i in s.l.intents ==>
      Conserved(s.l.intents[i]) && s.l.intents[i].paid == CreditedTo(s, i) && s.l.intents[i].refunded == AppliedTo(s, i)
  }

  predicate Owns(l: Ledger, t: TxId, m: MerchantId, i: IntentId, amount: int)
  {
    t in l.txs && l.txs[t].merchant == m && l.txs[t].intentId == i && l.txs[t].amount == amount
  }

  predicate PcInv(l: Ledger, pc: Pc)
  {
    match pc
    case Inserting(row, succeeded) => RowShape(l, row) && row.direction.Incoming? && !row.status.Succeeded?
    case Crediting(t, m, i, amount) => Owns(l, t, m, i, amount)
    case Writing(t, m, change) => Closes(change.status) && t in l.txs
    case Expiring(i, m) => i in l.intents
    case InsertingRefund(row, adapter) => RowShape(l, row) && row.direction.Outgoing? && row.status.Pending?
  }

  ghost predicate ProgramsInv(s: Sys)
  {
    && (forall a :: a in s.actors ==> PcInv(s.l, s.actors[a]))
    && (forall t :: t in s.calls ==> Owns(s.l, t, s.calls[t].m, s.calls[t].i, s.calls[t].amount) && s.l.txs[t].direction.Outgoing?)
    && s.credited <= s.l.txs.Keys && s.applied <= s.l.txs.Keys
  }

  ghost predicate Inv(s: Sys) { RowsInv(s) && TotalsInv(s) && ProgramsInv(s) }

  // ----- preservation -----

  /** Rows and intents never go away, and their terms never change. */
  ghost predicate Keeps(l: Ledger, l': Ledger)
  {
    && (forall t :: t in l.txs ==> t in l'.txs && SameTerms(l.txs[t], l'.txs[t]))
    && (forall i :: i in l.intents ==> i in l'.intents && l'.intents[i].merchant == l.intents[i].merchant)
  }

  lemma ProgramsKept(s: Sys, s': Sys)
    requires ProgramsInv(s) && Keeps(s.l, s'.l)
    requires forall a :: a in s'.actors ==> (a in s.actors && s'.actors[a] == s.actors[a]) || PcInv(s'.l, s'.actors[a])
    requires forall t :: t in s'.calls ==>
      || (t in s.calls && s'.calls[t] == s.calls[t])
      || (Owns(s'.l, t, s'.calls[t].m, s'.calls[t].i, s'.calls[t].amount) && s'.l.txs[t].direction.Outgoing?)
    requires s'.credited <= s'.l.txs.Keys && s'.applied <= s'.l.txs.Keys
    ensures ProgramsInv(s')
  {
  }

  /** A step that adds or changes one row, and the totals of its intent by what the row now counts for. */
  lemma RowStep(s: Sys, s': Sys, t: TxId, r: Tx, it: Intent)
    requires RowsInv(s) && TotalsInv(s)
    requires r.intentId in s.l.intents
    requires s'.l == Now(s.l.(txs := s.l.txs[t := r]), r.intentId, it)
    requires t in s.l.txs ==> SameTerms(s.l.txs[t], r)
    requires forall u :: u != t ==> (u in s'.credited <==> u in s.credited) && (u in s'.applied <==> u in s.applied)
    requires forall u :: u != t && u in s'.calls ==> u in s.calls
    requires RowShape(s.l, r) && RowCounted(s', t, r)
    requires Conserved(it) && it.merchant == s.l.intents[r.intentId].merchant
    requires it.paid == s.l.intents[r.intentId].paid + CreditedShare(s', t, r, r.intentId)
                        - (if t in s.l.txs then CreditedShare(s, t, s.l.txs[t], r.intentId) else 0)
    requires it.refunded == s.l.intents[r.intentId].refunded + AppliedShare(s', t, r, r.intentId)
                        - (if t in s.l.txs then AppliedShare(s, t, s.l.txs[t], r.intentId) else 0)
    ensures RowsInv(s') && TotalsInv(s') && Keeps(s.l, s'.l)
  {
    forall u | u in s'.l.txs
      ensures RowShape(s'.l, s'.l.txs[u]) && RowCounted(s', u, s'.l.txs[u])
    {
      if u != t { assert RowShape(s.l, s.l.txs[u]); }
    }
    forall i | i in s'.l.intents
      ensures Conserved(s'.l.intents[i]) && s'.l.intents[i].paid == CreditedTo(s', i) && s'.l.intents[i].refunded == AppliedTo(s', i)
    {
      SumsAfter(s, s', t, r, i);
    }
  }

  lemma SumsAfter(s: Sys, s': Sys, t: TxId, r: Tx, i: IntentId)
    requires s'.l.txs == s.l.txs[t := r]
    requires forall u :: u != t ==> (u in s'.credited <==> u in s.credited) && (u in s'.applied <==> u in s.applied)
    ensures CreditedTo(s', i) ==
      CreditedTo(s, i) + CreditedShare(s', t, r, i) - (if t in s.l.txs then CreditedShare(s, t, s.l.txs[t], i) else 0)
    ensures AppliedTo(s', i) ==
      AppliedTo(s, i) + AppliedShare(s', t, r, i) - (if t in s.l.txs then AppliedShare(s, t, s.l.txs[t], i) else 0)
  {
    SumUpdate(s.l.txs, CreditedWeight(s, i), s'.l.txs, CreditedWeight(s', i), t);
    SumUpdate(s.l.txs, AppliedWeight(s, i), s'.l.txs, AppliedWeight(s', i), t);
  }

  /** A step that moves programs only. */
  lemma IdleStep(s: Sys, s': Sys)
    requires Inv(s) && s'.l == s.l && s'.credited == s.credited && s'.applied == s.applied
    requires forall a :: a in s'.actors ==> (a in s.actors && s'.actors[a] == s.actors[a]) || PcInv(s.l, s'.actors[a])
    requires forall t :: t in s'.calls ==> t in s.calls && s'.calls[t] == s.calls[t]
    ensures Inv(s')
  {
    ProgramsKept(s, s');
    forall t | t in s'.l.txs
      ensures RowShape(s'.l, s'.l.txs[t]) && RowCounted(s', t, s'.l.txs[t])
    {
      assert RowShape(s.l, s.l.txs[t]);
    }
    SameSums(s, s');
  }

  /** The sums depend on the rows and the two sets alone. */
  lemma SameSums(s: Sys, s': Sys)
    requires s'.l.txs == s.l.txs && s'.credited == s.credited && s'.applied == s.applied
    ensures forall i :: CreditedTo(s', i) == CreditedTo(s, i) && AppliedTo(s', i) == AppliedTo(s, i)
  {
    forall i
      ensures CreditedTo(s', i) == CreditedTo(s, i) && AppliedTo(s', i) == AppliedTo(s, i)
    {
      SumSame(s.l.txs, CreditedWeight(s, i), s.l.txs, CreditedWeight(s', i));
      SumSame(s.l.txs, AppliedWeight(s, i), s.l.txs, AppliedWeight(s', i));
    }
  }

  /** A step that changes no row and no total: a new intent, or an intent's status. */
  lemma IntentStep(s: Sys, s': Sys, i: IntentId, it: Intent)
    requires Inv(s) && s'.l == Now(s.l, i, it) && s'.credited == s.credited && s'.applied == s.applied && s'.calls == s.calls
    requires forall a :: a in s'.actors ==> a in s.actors && s'.actors[a] == s.actors[a]
    requires Conserved(it)
    requires i in s.l.intents ==> it == s.l.intents[i].(status := it.status)
    requires i !in s.l.intents ==> it.paid == 0 && it.refunded == 0
    ensures Inv(s')
  {
    ProgramsKept(s, s');
    SameSums(s, s');
    IntentStepRows(s, s', i, it);
    if i !in s.l.intents {
      NothingCounted(s, i);
    }
  }

  lemma IntentStepRows(s: Sys, s': Sys, i: IntentId, it: Intent)
    requires RowsInv(s) && s'.l == Now(s.l, i, it) && s'.credited == s.credited && s'.applied == s.applied && s'.calls == s.calls
    requires i in s.l.intents ==> it.merchant == s.l.intents[i].merchant
    ensures RowsInv(s')
  {
    forall t | t in s'.l.txs
      ensures RowShape(s'.l, s'.l.txs[t]) && RowCounted(s', t, s'.l.txs[t])
    {
      assert RowShape(s.l, s.l.txs[t]);
    }
  }

  lemma NothingCounted(s: Sys, i: IntentId)
    requires RowsInv(s) && i !in s.l.intents
    ensures CreditedTo(s, i) == 0 && AppliedTo(s, i) == 0
  {
    forall t | t in s.l.txs
      ensures s.l.txs[t].intentId != i
    {
      assert RowShape(s.l, s.l.txs[t]);
    }
    SumZero(s.l.txs, CreditedWeight(s, i));
    SumZero(s.l.txs, AppliedWeight(s, i));
  }

  lemma NewRowKeepsInv(s: Sys, s': Sys, t: TxId, row: Tx)
    requires Inv(s) && t !in s.l.txs && RowShape(s.l, row) && !row.status.Succeeded?
    requires s'.l == s.l.(txs := s.l.txs[t := row]) && s'.credited == s.credited && s'.applied == s.applied
    requires forall a :: a in s'.actors ==> (a in s.actors && s'.actors[a] == s.actors[a]) || PcInv(s'.l, s'.actors[a])
    requires forall u :: u in s'.calls ==>
      || (u in s.calls && s'.calls[u] == s.calls[u])
      || (u == t && Owns(s'.l, t, s'.calls[t].m, s'.calls[t].i, s'.calls[t].amount) && row.direction.Outgoing?)
    ensures Inv(s') && Keeps(s.l, s'.l)
  {
    var it := s.l.intents[row.intentId];
    assert s'.l == Now(s.l.(txs := s.l.txs[t := row]), row.intentId, it);
    RowStep(s, s', t, row, it);
    ProgramsKept(s, s');
  }

  lemma InsertKeepsInv(s: Sys, x: Action)
    requires Inv(s) && Enabled(s, x) && (x.InsertPayment? || x.InsertRefund?)
    ensures Inv(Do(s, x)) && Keeps(s.l, Do(s, x).l)
  {
    assert PcInv(s.l, s.actors[x.a]);
    if IndexesAdmit(s.l, x.t, s.actors[x.a].row) {
      NewRowKeepsInv(s, Do(s, x), x.t, s.actors[x.a].row);
    } else {
      IdleStep(s, Do(s, x));
    }
  }

  lemma CreditKeepsInv(s: Sys, x: Action)
    requires Inv(s) && Enabled(s, x) && x.DoCredit?
    ensures Inv(Do(s, x)) && Keeps(s.l, Do(s, x).l)
  {
    var s' := Do(s, x);
    var Crediting(t, m, i, amount) := s.actors[x.a];
    assert PcInv(s.l, s.actors[x.a]);
    assert RowShape(s.l, s.l.txs[t]);
    if s'.credited == s.credited {
      IdleStep(s, s');
    } else {
      RowStep(s, s', t, s'.l.txs[t], s'.l.intents[i]);
      ProgramsKept(s, s');
    }
  }

  lemma WriteKeepsInv(s: Sys, x: Action)
    requires Inv(s) && Enabled(s, x) && x.DoWrite?
    ensures Inv(Do(s, x)) && Keeps(s.l, Do(s, x).l)
  {
    var s' := Do(s, x);
    var Writing(t, m, change) := s.actors[x.a];
    assert PcInv(s.l, s.actors[x.a]);
    assert RowShape(s.l, s.l.txs[t]);
    if s'.l == s.l {
      IdleStep(s, s');
    } else {
      var it := s.l.intents[s.l.txs[t].intentId];
      assert s'.l == Now(s'.l, s.l.txs[t].intentId, it);
      RowStep(s, s', t, s'.l.txs[t], it);
      ProgramsKept(s, s');
    }
  }

  lemma RejectionKeepsInv(s: Sys, x: Action)
    requires Inv(s) && Enabled(s, x) && x.SettleRefund? && s.calls[x.t].adapter.Rejects?
    ensures Inv(Do(s, x)) && Keeps(s.l, Do(s, x).l)
  {
    var s', t, i := Do(s, x), x.t, s.calls[x.t].i;
    assert RowShape(s.l, s.l.txs[t]);
    assert s'.l == Now(s'.l, i, s.l.intents[i]);
    RowStep(s, s', t, s'.l.txs[t], s.l.intents[i]);
    ProgramsKept(s, s');
  }

  lemma SettleKeepsInv(s: Sys, x: Action)
    requires Inv(s) && Enabled(s, x) && x.SettleRefund?
    ensures Inv(Do(s, x)) && Keeps(s.l, Do(s, x).l)
  {
    var s', t, i := Do(s, x), x.t, s.calls[x.t].i;
    assert RowShape(s.l, s.l.txs[t]);
    if s.calls[t].adapter.Rejects? {
      RejectionKeepsInv(s, x);
    } else if s'.applied == s.applied {
      IdleStep(s, s');
    } else {
      RowStep(s, s', t, s'.l.txs[t], s'.l.intents[i]);
      ProgramsKept(s, s');
    }
  }

  lemma BeginKeepsInv(s: Sys, x: Action)
    requires Inv(s) && Enabled(s, x)
    requires x.BeginCreate? || x.BeginCredit? || x.BeginWrite? || x.BeginExpire? || x.BeginRefund?
    ensures Inv(Do(s, x)) && Do(s, x).l == s.l
  {
    if x.BeginRefund? { assert RowShape(s.l, s.l.txs[x.request.source]); }
    IdleStep(s, Do(s, x));
  }

  lemma StepKeepsInv(s: Sys, x: Action)
    requires Inv(s) && Enabled(s, x)
    ensures Inv(Do(s, x)) && Keeps(s.l, Do(s, x).l)
  {
    match x
    case CreateIntent(i, m, due, allowPartial, currency, expiresAt) =>
      IntentStep(s, Do(s, x), i, NewIntent(m, due, allowPartial, currency, expiresAt));
    case DoExpire(a) =>
      assert PcInv(s.l, s.actors[a]);
      var i := s.actors[a].i;
      if HasIntent(s.l, i, s.actors[a].m) {
        IntentStep(s, Do(s, x), i, Do(s, x).l.intents[i]);
      } else {
        IdleStep(s, Do(s, x));
      }
    case InsertPayment(_, _) => InsertKeepsInv(s, x);
    case InsertRefund(_, _) => InsertKeepsInv(s, x);
    case DoCredit(_) => CreditKeepsInv(s, x);
    case DoWrite(_) => WriteKeepsInv(s, x);
    case SettleRefund(_) => SettleKeepsInv(s, x);
    case Die(_) => IdleStep(s, Do(s, x));
    case DieInRefund(_) => IdleStep(s, Do(s, x));
    case _ => BeginKeepsInv(s, x);
  }
}
