/**
 * Intents that do not allow partial payments are safe under every interleaving, even though
 * the checks on the amount and on the source of a refund are made on stale reads. For the
 * other intents the bound on each source can be broken by a race; here is exactly when.
 */
module WholePayments {
  import opened Domain
  import opened LedgerSpec
  import opened LedgerInvariant
  import opened Interleaving
  import opened Races
  import opened Sums
  import CreateGatewayPayment
  import RefundPayment

  /** A row of an intent that must be paid whole: a payment is for all of it, a refund exists only once it is paid. */
  predicate WholeRow(l: Ledger, r: Tx)
    requires r.intentId in l.intents
  {
    var it := l.intents[r.intentId];
    !it.allowPartial ==> if r.direction.Incoming? then r.amount == it.due else it.remaining == 0
  }

  predicate WholePc(l: Ledger, pc: Pc)
  {
    pc.Inserting? || pc.InsertingRefund? ==> pc.row.intentId in l.intents && WholeRow(l, pc.row)
  }

  predicate AllOrNothing(it: Intent) { !it.allowPartial ==> it.remaining == it.due || it.remaining == 0 }

  /** Only payments are credited to such an intent. */
  predicate WholeCredit(l: Ledger, r: Tx)
    requires r.intentId in l.intents
  {
    !l.intents[r.intentId].allowPartial ==> r.direction.Incoming?
  }

  predicate WholeStored(s: Sys, t: TxId, r: Tx)
  {
    r.intentId in s.l.intents && WholeRow(s.l, r) && (t in s.credited ==> WholeCredit(s.l, r))
  }

  ghost predicate WholeInv(s: Sys)
  {
    && (forall i :: i in s.l.intents ==> AllOrNothing(s.l.intents[i]))
    && (forall t :: t in s.l.txs ==> WholeStored(s, t, s.l.txs[t]))
    && (forall a :: a in s.actors ==> WholePc(s.l, s.actors[a]))
  }

  /** Terms stay, and once nothing remains nothing ever will. */
  ghost predicate IntentsKeep(l: Ledger, l': Ledger)
  {
    forall i :: i in l.intents ==>
      && i in l'.intents && l'.intents[i].due == l.intents[i].due && l'.intents[i].allowPartial == l.intents[i].allowPartial
      && (l.intents[i].remaining == 0 ==> l'.intents[i].remaining == 0)
  }

  lemma IntentsAreKept(s: Sys, x: Action)
    requires Inv(s) && Enabled(s, x)
    ensures IntentsKeep(s.l, Do(s, x).l)
  {
    if x.DoCredit? {
      CreditStep(s, x);
      assert PcInv(s.l, s.actors[x.a]);
      assert RowShape(s.l, s.l.txs[s.actors[x.a].t]);
    } else if x.SettleRefund? {
      RefundStep(s, x);
    } else {
      OtherStepsKeep(s, x);
    }
  }

  /** A credited payment of a whole intent has paid all of it. */
  lemma CreditedPaysAll(s: Sys, t: TxId)
    requires Inv(s) && WholeInv(s) && t in s.credited && t in s.l.txs
    requires s.l.txs[t].direction.Incoming? && s.l.txs[t].intentId in s.l.intents && !s.l.intents[s.l.txs[t].intentId].allowPartial
    ensures s.l.intents[s.l.txs[t].intentId].remaining == 0
  {
    CreditedTerms(s, s.l.txs[t].intentId, t, t);
  }

  lemma CreditedTerms(s: Sys, i: IntentId, t: TxId, u: TxId)
    requires Inv(s) && i in s.l.intents && t in s.l.txs && u in s.l.txs
    ensures CreditedShare(s, t, s.l.txs[t], i) <= s.l.intents[i].paid
    ensures t != u ==> CreditedShare(s, t, s.l.txs[t], i) + CreditedShare(s, u, s.l.txs[u], i) <= s.l.intents[i].paid
  {
    forall v | v in s.l.txs
      ensures 0 <= CreditedShare(s, v, s.l.txs[v], i)
    {
      assert RowShape(s.l, s.l.txs[v]);
    }
    SumAtLeastTwo(s.l.txs, CreditedWeight(s, i), t, u);
  }

  /** A request that passed its checks is for all that is due; a refund that passed finds its intent paid. */
  lemma BeginIsWhole(s: Sys, x: Action)
    requires Inv(s) && WholeInv(s) && Enabled(s, x) && (x.BeginCreate? || x.BeginRefund?)
    ensures WholePc(s.l, Do(s, x).actors[x.a])
  {
    if x.BeginRefund? {
      assert RowShape(s.l, s.l.txs[x.request.source]);
      if !s.l.intents[s.l.txs[x.request.source].intentId].allowPartial { CreditedPaysAll(s, x.request.source); }
    }
  }

  lemma ProgramsStayWhole(s: Sys, x: Action)
    requires Inv(s) && WholeInv(s) && Enabled(s, x)
    ensures forall a :: a in Do(s, x).actors ==> WholePc(Do(s, x).l, Do(s, x).actors[a])
  {
    var s' := Do(s, x);
    IntentsAreKept(s, x);
    if x.BeginCreate? || x.BeginRefund? { BeginIsWhole(s, x); }
    forall a | a in s'.actors
      ensures WholePc(s'.l, s'.actors[a])
    {
      if a in s.actors { assert WholePc(s.l, s.actors[a]); }
    }
  }

  lemma IntentsStayWhole(s: Sys, x: Action)
    requires Inv(s) && WholeInv(s) && Enabled(s, x)
    ensures forall i :: i in Do(s, x).l.intents ==> AllOrNothing(Do(s, x).l.intents[i])
  {
    if x.DoCredit? {
      CreditStaysWhole(s, x);
    } else if x.SettleRefund? {
      RefundStep(s, x);
    } else {
      OtherStepsKeep(s, x);
    }
  }

  lemma CreditStaysWhole(s: Sys, x: Action)
    requires Inv(s) && WholeInv(s) && Enabled(s, x) && x.DoCredit?
    ensures forall i :: i in Do(s, x).l.intents ==> AllOrNothing(Do(s, x).l.intents[i])
  {
    CreditStep(s, x);
    assert RowShape(s.l, s.l.txs[s.actors[x.a].t]);
  }

  /** A row that becomes credited had the whole amount remaining, which no refund row's intent has. */
  lemma NewCreditIsWhole(s: Sys, x: Action, t: TxId)
    requires Inv(s) && WholeInv(s) && Enabled(s, x) && t in Do(s, x).credited && t !in s.credited
    ensures t in s.l.txs && s.l.txs[t].intentId in s.l.intents && WholeCredit(s.l, s.l.txs[t])
  {
    if x.DoCredit? {
      CreditStep(s, x);
      assert RowShape(s.l, s.l.txs[t]);
    } else if x.SettleRefund? {
      RefundStep(s, x);
    } else {
      OtherStepsKeep(s, x);
    }
  }

  lemma NewRowIsWhole(s: Sys, x: Action, t: TxId)
    requires Inv(s) && WholeInv(s) && Enabled(s, x) && t in Do(s, x).l.txs && t !in s.l.txs
    ensures Do(s, x).l.intents == s.l.intents && t !in Do(s, x).credited
    ensures Do(s, x).l.txs[t].intentId in s.l.intents && WholeRow(s.l, Do(s, x).l.txs[t])
  {
    if x.InsertPayment? || x.InsertRefund? {
      assert WholePc(s.l, s.actors[x.a]);
    } else if x.DoCredit? {
      CreditStep(s, x);
    } else if x.SettleRefund? {
      RefundStep(s, x);
    }
  }

  lemma WholeRowKept(l: Ledger, l': Ledger, r: Tx, r': Tx)
    requires IntentsKeep(l, l') && SameTerms(r, r') && r.intentId in l.intents && WholeRow(l, r)
    ensures r'.intentId in l'.intents && WholeRow(l', r')
    ensures WholeCredit(l, r) ==> WholeCredit(l', r')
  {
  }

  lemma RowStaysWhole(s: Sys, x: Action, t: TxId)
    requires Inv(s) && WholeInv(s) && Enabled(s, x) && t in Do(s, x).l.txs
    ensures WholeStored(Do(s, x), t, Do(s, x).l.txs[t])
  {
    var s' := Do(s, x);
    if t in s.l.txs {
      StepKeepsInv(s, x);
      IntentsAreKept(s, x);
      assert WholeStored(s, t, s.l.txs[t]);
      WholeRowKept(s.l, s'.l, s.l.txs[t], s'.l.txs[t]);
      if t in s'.credited && t !in s.credited { NewCreditIsWhole(s, x, t); }
    } else {
      NewRowIsWhole(s, x, t);
    }
  }

  lemma StepStaysWhole(s: Sys, x: Action)
    requires Inv(s) && WholeInv(s) && Enabled(s, x)
    ensures WholeInv(Do(s, x))
  {
    ProgramsStayWhole(s, x);
    IntentsStayWhole(s, x);
    forall t | t in Do(s, x).l.txs
      ensures WholeStored(Do(s, x), t, Do(s, x).l.txs[t])
    {
      RowStaysWhole(s, x, t);
    }
  }

  lemma {:induction false} RunStaysWhole(states: seq<Sys>, actions: seq<Action>, k: nat)
    requires IsRun(states, actions) && k < |states|
    ensures Inv(states[k]) && WholeInv(states[k])
  {
    if 0 < k {
      RunStaysWhole(states, actions, k - 1);
      StepKeepsInv(states[k - 1], actions[k - 1]);
      StepStaysWhole(states[k - 1], actions[k - 1]);
    }
  }

  /**
   * In every interleaving at most one row of such an intent is ever credited, and it is a
   * payment of all that is due: a refund row confirmed by its id is turned away.
   */
  lemma OneCreditedRow(states: seq<Sys>, actions: seq<Action>, k: nat, i: IntentId, t: TxId, u: TxId)
    requires IsRun(states, actions) && k < |states|
    requires i in states[k].l.intents && !states[k].l.intents[i].allowPartial
    requires t in states[k].credited && t in states[k].l.txs && states[k].l.txs[t].intentId == i
    requires u in states[k].credited && u in states[k].l.txs && states[k].l.txs[u].intentId == i
    ensures t == u
    ensures states[k].l.txs[t].direction.Incoming? && states[k].l.txs[t].amount == states[k].l.intents[i].due
  {
    RunStaysWhole(states, actions, k);
    CreditedTerms(states[k], i, t, u);
    assert WholeStored(states[k], t, states[k].l.txs[t]) && WholeStored(states[k], u, states[k].l.txs[u]);
  }

  /** The guard on the intent alone keeps the refunds of its one payment within that payment. */
  lemma RefundsStayWithinTheSource(states: seq<Sys>, actions: seq<Action>, k: nat, p: TxId)
    requires IsRun(states, actions) && k < |states|
    requires p in states[k].l.txs && states[k].l.txs[p].direction.Incoming? && states[k].l.txs[p].intentId in states[k].l.intents
    requires !states[k].l.intents[states[k].l.txs[p].intentId].allowPartial
    ensures RefundsOf(states[k].l.txs, p) <= states[k].l.txs[p].amount
  {
    var s := states[k];
    RunStaysWhole(states, actions, k);
    var i := s.l.txs[p].intentId;
    assert WholeStored(s, p, s.l.txs[p]);
    forall t | t in s.l.txs
      ensures ParentWeight(p)(t, s.l.txs[t]) <= AppliedWeight(s, i)(t, s.l.txs[t])
    {
      assert RowShape(s.l, s.l.txs[t]) && WholeStored(s, t, s.l.txs[t]);
    }
    SumLe(s.l.txs, ParentWeight(p), AppliedWeight(s, i));
  }

  // ----- intents that allow partial payments -----

  /** Settling a refund keeps the bound on every source exactly when its own source still has that much left by then. */
  lemma SettlingKeepsSourcesExactly(l: Ledger, t: TxId, m: MerchantId, i: IntentId, amount: int, reference: Option<Reference>)
    requires SourcesOk(l) && t in l.txs && l.txs[t].status.Pending? && l.txs[t].amount == amount
    requires OutgoingShape(l, l.txs[t]) && l.txs[t].direction.Outgoing?
    requires ApplySucceededRefund(l, t, m, i, amount, reference).1.Ok?
    ensures SourcesOk(ApplySucceededRefund(l, t, m, i, amount, reference).0) <==>
      RefundsOf(l.txs, l.txs[t].parent.value) + amount <= l.txs[l.txs[t].parent.value].amount
  {
    var l' := ApplySucceededRefund(l, t, m, i, amount, reference).0;
    var p := l.txs[t].parent.value;
    RefundsAfter(l.txs, t, l'.txs[t], p);
    if RefundsOf(l.txs, p) + amount <= l.txs[p].amount { SourcesFollow(l, l', t, l'.txs[t]); }
  }
}
