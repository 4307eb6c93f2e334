/** Refund keys: the row goes in before the provider is called, so its key is asked for once. */
module RefundKeys {
  import opened Domain
  import opened LedgerSpec
  import opened Interleaving
  import opened Races

  ghost predicate KeyInv(s: Sys)
  {
    && IndexesHold(s.l)
    && (forall a :: a in s.actors ==> KeyedWriteIsIncoming(s.l, s.actors[a]))
    && (forall t :: t in s.calls ==> t in s.l.txs)
  }

  predicate KeyedWriteIsIncoming(l: Ledger, pc: Pc)
  {
    pc.Writing? && pc.change.key.Some? ==> pc.t in l.txs && l.txs[pc.t].direction.Incoming?
  }

  /** A change of status alone is invisible to the unique indexes. */
  lemma StatusKeepsIndexes(l: Ledger, l': Ledger)
    requires IndexesHold(l) && l'.txs.Keys == l.txs.Keys
    requires forall t :: t in l.txs ==> l'.txs[t].(status := l.txs[t].status) == l.txs[t]
    ensures IndexesHold(l')
  {
    forall t | t in l'.txs
      ensures IndexesAdmit(l', t, l'.txs[t])
    {
      assert IndexesAdmit(l, t, l.txs[t]);
    }
  }

  lemma IntentsKeepIndexes(l: Ledger, l': Ledger)
    requires IndexesHold(l) && l'.txs == l.txs
    ensures IndexesHold(l')
  {
    StatusKeepsIndexes(l, l');
  }

  lemma SettleKeepsIndexes(s: Sys, x: Action)
    requires Inv(s) && KeyInv(s) && Enabled(s, x) && x.SettleRefund?
    ensures IndexesHold(Do(s, x).l)
  {
    var Call(m, i, amount, adapter) := s.calls[x.t];
    var reference := if adapter.Absent? then None else adapter.reference;
    var change := TxChange(if adapter.Rejects? then TxStatus.Failed else TxStatus.Succeeded, reference, None);
    WritesKeepIndexes(s.l, x.t, s.l.txs[x.t], m, change);
    IntentsKeepIndexes(UpdateTxStatus(s.l, x.t, m, change).0,
                       Do(s, x).l.(txs := UpdateTxStatus(s.l, x.t, m, change).0.txs));
    IntentsKeepIndexes(s.l, Do(s, x).l.(txs := s.l.txs));
  }

  lemma StepKeepsIndexes(s: Sys, x: Action)
    requires Inv(s) && KeyInv(s) && Enabled(s, x)
    ensures IndexesHold(Do(s, x).l)
  {
    if x.DoCredit? {
      CreditStep(s, x);
      StatusKeepsIndexes(s.l, Do(s, x).l);
    } else if x.SettleRefund? {
      SettleKeepsIndexes(s, x);
    } else if x.DoWrite? {
      assert PcInv(s.l, s.actors[x.a]);
      WritesKeepIndexes(s.l, s.actors[x.a].t, s.l.txs[s.actors[x.a].t], s.actors[x.a].m, s.actors[x.a].change);
    } else if x.InsertPayment? || x.InsertRefund? {
      WritesKeepIndexes(s.l, x.t, s.actors[x.a].row, 0, TxChange(TxStatus.Failed, None, None));
    } else {
      assert Do(s, x).l.txs == s.l.txs;
      IntentsKeepIndexes(s.l, Do(s, x).l);
    }
  }

  /** A refund's key, merchant and direction are there for good; once its call is over it never comes back. */
  ghost predicate RefundKept(s: Sys, s': Sys, t: TxId)
  {
    t in s.l.txs && s.l.txs[t].direction.Outgoing? ==>
      && t in s'.l.txs && s'.l.txs[t].direction.Outgoing?
      && s'.l.txs[t].key == s.l.txs[t].key && s'.l.txs[t].merchant == s.l.txs[t].merchant
      && (t !in s.calls ==> t !in s'.calls)
  }

  lemma CallStaysClosed(s: Sys, x: Action, t: TxId)
    requires Enabled(s, x) && t in s.l.txs && t !in s.calls
    ensures t !in Do(s, x).calls
  {
  }

  lemma SettleKeepsKey(s: Sys, x: Action, t: TxId)
    requires Enabled(s, x) && x.SettleRefund? && t in s.l.txs
    ensures t in Do(s, x).l.txs
    ensures var r, r' := s.l.txs[t], Do(s, x).l.txs[t];
      r'.direction == r.direction && r'.key == r.key && r'.merchant == r.merchant
  {
  }

  lemma StepKeepsRefund(s: Sys, x: Action, t: TxId)
    requires Inv(s) && KeyInv(s) && Enabled(s, x)
    ensures RefundKept(s, Do(s, x), t)
  {
    if t in s.l.txs && t !in s.calls { CallStaysClosed(s, x, t); }
    if x.DoWrite? {
      assert KeyedWriteIsIncoming(s.l, s.actors[x.a]);
    } else if x.DoCredit? {
      CreditStep(s, x);
    } else if x.SettleRefund? {
      if t in s.l.txs { SettleKeepsKey(s, x, t); }
    } else {
      OtherStepsKeepRows(s, x);
    }
  }

  lemma KeyedWritesStayIncoming(s: Sys, x: Action, a: ActorId)
    requires Inv(s) && KeyInv(s) && Enabled(s, x) && a in Do(s, x).actors && Keeps(s.l, Do(s, x).l)
    ensures KeyedWriteIsIncoming(Do(s, x).l, Do(s, x).actors[a])
  {
    if a in s.actors && Do(s, x).actors[a] == s.actors[a] {
      assert KeyedWriteIsIncoming(s.l, s.actors[a]);
    } else {
      assert Do(s, x).actors[a].Writing? ==> x.BeginWrite? && Do(s, x).l == s.l;
    }
  }

  lemma StepKeepsKeyInv(s: Sys, x: Action)
    requires Inv(s) && KeyInv(s) && Enabled(s, x)
    ensures KeyInv(Do(s, x))
  {
    StepKeepsIndexes(s, x);
    StepKeepsInv(s, x);
    assert ProgramsInv(Do(s, x));
    forall a | a in Do(s, x).actors
      ensures KeyedWriteIsIncoming(Do(s, x).l, Do(s, x).actors[a])
    {
      KeyedWritesStayIncoming(s, x, a);
    }
  }

  lemma {:induction false} RunKeepsKeys(states: seq<Sys>, actions: seq<Action>, k: nat)
    requires IsRun(states, actions) && k < |states|
    ensures Inv(states[k]) && KeyInv(states[k])
  {
    if 0 < k {
      RunKeepsKeys(states, actions, k - 1);
      StepKeepsInv(states[k - 1], actions[k - 1]);
      StepKeepsKeyInv(states[k - 1], actions[k - 1]);
    }
  }

  lemma {:induction false} RunKeepsRefund(states: seq<Sys>, actions: seq<Action>, j: nat, k: nat, t: TxId)
    requires IsRun(states, actions) && j <= k < |states|
    ensures RefundKept(states[j], states[k], t)
    decreases k
  {
    if j < k {
      RunKeepsRefund(states, actions, j, k - 1, t);
      RunKeepsKeys(states, actions, k - 1);
      StepKeepsRefund(states[k - 1], actions[k - 1], t);
    }
  }

  /**
   * The provider is only ever asked for a refund whose row is stored and whose call is open.
   * In every interleaving, at whatever two moments, calls under one merchant and key are for
   * one and the same row: each key reaches the provider through a single refund.
   */
  lemma OneProviderRefundPerKey(states: seq<Sys>, actions: seq<Action>, j: nat, k: nat, t: TxId, u: TxId)
    requires IsRun(states, actions) && j <= k < |states|
    requires t in states[j].calls && u in states[k].calls && t in states[j].l.txs && u in states[k].l.txs
    requires states[j].l.txs[t].key.Some? && states[j].l.txs[t].key == states[k].l.txs[u].key
    requires states[j].l.txs[t].merchant == states[k].l.txs[u].merchant
    ensures t == u
  {
    RunKeepsKeys(states, actions, j);
    RunKeepsKeys(states, actions, k);
    RunKeepsRefund(states, actions, j, k, t);
    assert IndexesAdmit(states[k].l, u, states[k].l.txs[u]);
  }

  /** And that row's call is settled at most once. */
  lemma SettledAtMostOnce(states: seq<Sys>, actions: seq<Action>, j: nat, k: nat, t: TxId)
    requires IsRun(states, actions) && j <= k < |actions|
    requires actions[j] == SettleRefund(t) && actions[k] == SettleRefund(t)
    ensures j == k
  {
    if j < k {
      RunKeepsKeys(states, actions, j);
      StepKeepsRefund(states[j], actions[j], t);
      RunKeepsRefund(states, actions, j + 1, k, t);
    }
  }
}
