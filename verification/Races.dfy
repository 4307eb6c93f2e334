/** What holds over every interleaving of the use cases, and what a race can still spoil. */
module Races {
  import opened Domain
  import opened LedgerSpec
  import opened LedgerInvariant
  import opened CreditPaths
  import opened IntentStatusRules
  import opened Interleaving
  import opened Sums

  ghost predicate IsRun(states: seq<Sys>, actions: seq<Action>)
  {
    && |states| == |actions| + 1 && states[0] == Initial
    && forall k :: 0 <= k < |actions| ==> Enabled(states[k], actions[k]) && states[k + 1] == Do(states[k], actions[k])
  }

  lemma {:induction false} RunKeepsInv(states: seq<Sys>, actions: seq<Action>, k: nat)
    requires IsRun(states, actions) && k < |states|
    ensures Inv(states[k])
  {
    if 0 < k {
      RunKeepsInv(states, actions, k - 1);
      StepKeepsInv(states[k - 1], actions[k - 1]);
    }
  }

  /**
   * Conservation, over every interleaving: paid and remaining make up what is due, refunds
   * stay within what was paid, nothing is ever overpaid, and every stored column lies between
   * zero and the amount due, so a due amount that fits its column keeps all of them in range.
   */
  lemma Conservation(states: seq<Sys>, actions: seq<Action>, k: nat, i: IntentId)
    requires IsRun(states, actions) && k < |states| && i in states[k].l.intents
    ensures var it := states[k].l.intents[i];
      && it.paid + it.remaining == it.due && 0 <= it.refunded <= it.paid <= it.due && 0 <= it.remaining <= it.due
      && !it.status.Overpaid?
      && it.paid == CreditedTo(states[k], i) && it.refunded == AppliedTo(states[k], i)
  {
    RunKeepsInv(states, actions, k);
  }

  // ----- each row counts at most once -----

  /** The step adds row `t` to its intent's paid total. */
  ghost predicate CreditsRow(s: Sys, x: Action, t: TxId)
    requires Enabled(s, x)
  {
    && x.DoCredit? && s.actors[x.a].t == t
    && (var Crediting(_, m, i, amount) := s.actors[x.a];
        var r := ApplySucceededPayment(s.l, t, m, i, amount).1;
        r.Ok? && r.value.changed)
  }

  /** The step adds row `t` to its intent's refunded total. */
  ghost predicate RefundsRow(s: Sys, x: Action, t: TxId)
    requires Enabled(s, x)
  {
    && x == SettleRefund(t) && !s.calls[t].adapter.Rejects?
    && (var Call(m, i, amount, adapter) := s.calls[t];
        ApplySucceededRefund(s.l, t, m, i, amount, if adapter.Absent? then None else adapter.reference).1.Ok?)
  }

  /** Only a credit and a refund touch totals, and only these and a blind write touch a stored row. */
  lemma OtherStepsKeep(s: Sys, x: Action)
    requires Inv(s) && Enabled(s, x) && !x.DoCredit? && !x.SettleRefund?
    ensures Do(s, x).credited == s.credited && Do(s, x).applied == s.applied
    ensures forall i :: i in s.l.intents ==>
      i in Do(s, x).l.intents && Do(s, x).l.intents[i].(status := s.l.intents[i].status) == s.l.intents[i]
  {
    if x.DoWrite? || x.InsertPayment? || x.InsertRefund? {
      assert Do(s, x).l.intents == s.l.intents;
    }
  }

  lemma OtherStepsKeepRows(s: Sys, x: Action)
    requires Inv(s) && Enabled(s, x) && !x.DoCredit? && !x.SettleRefund? && !x.DoWrite?
    ensures forall t :: t in s.l.txs ==> t in Do(s, x).l.txs && Do(s, x).l.txs[t] == s.l.txs[t]
  {
  }

  lemma CreditStep(s: Sys, x: Action)
    requires Inv(s) && Enabled(s, x) && x.DoCredit?
    ensures var t, s' := s.actors[x.a].t, Do(s, x);
      && t in s.l.txs && s'.applied == s.applied
      && (if CreditsRow(s, x, t) then
            var r, i := s.l.txs[t], s.l.txs[t].intentId;
            && r.status.Confirmable() && i in s.l.intents && s'.credited == s.credited + {t}
            && s'.l == Now(s.l.(txs := s.l.txs[t := r.(status := TxStatus.Succeeded)]), i, Credited(s.l.intents[i], r.amount))
          else s'.credited == s.credited && s'.l == s.l)
  {
    assert PcInv(s.l, s.actors[x.a]);
    assert RowShape(s.l, s.l.txs[s.actors[x.a].t]);
  }

  lemma RefundStep(s: Sys, x: Action)
    requires Inv(s) && Enabled(s, x) && x.SettleRefund?
    ensures var t, s' := x.t, Do(s, x);
      && t in s.l.txs && t !in s.applied && t in s'.l.txs && s'.credited == s.credited && SameTerms(s.l.txs[t], s'.l.txs[t])
      && s'.l.txs == s.l.txs[t := s'.l.txs[t]] && (s'.l.txs[t] == s.l.txs[t] || !s'.l.txs[t].status.Confirmable())
      && (if RefundsRow(s, x, t) then
            var r, i := s.l.txs[t], s.l.txs[t].intentId;
            && i in s.l.intents && s'.applied == s.applied + {t} && s'.l.txs[t].status.Succeeded?
            && s'.l.intents == s.l.intents[i := RefundedBy(s.l.intents[i], r.amount)]
          else s'.applied == s.applied && s'.l.intents == s.l.intents)
  {
    assert RowShape(s.l, s.l.txs[x.t]);
  }

  /** No other step moves a total, and these move it by their row's amount. */
  lemma TotalsMoveOnlyByRows(s: Sys, x: Action, i: IntentId)
    requires Inv(s) && Enabled(s, x) && i in s.l.intents
    ensures i in Do(s, x).l.intents
    ensures var it, it' := s.l.intents[i], Do(s, x).l.intents[i];
      && (it'.paid != it.paid ==> exists t :: t in s.l.txs && CreditsRow(s, x, t) && s.l.txs[t].intentId == i
                                             && it'.paid == it.paid + s.l.txs[t].amount)
      && (it'.refunded != it.refunded ==> exists t :: t in s.l.txs && RefundsRow(s, x, t) && s.l.txs[t].intentId == i
                                             && it'.refunded == it.refunded + s.l.txs[t].amount)
  {
    if x.DoCredit? {
      CreditStep(s, x);
    } else if x.SettleRefund? {
      RefundStep(s, x);
    } else {
      OtherStepsKeep(s, x);
    }
  }

  /** What is never undone: closed rows stay closed, counted rows stay counted. */
  ghost predicate Forward(s: Sys, s': Sys, t: TxId)
  {
    && (t in s.l.txs && !s.l.txs[t].status.Confirmable() ==> t in s'.l.txs && !s'.l.txs[t].status.Confirmable())
    && s.credited <= s'.credited && s.applied <= s'.applied
  }

  lemma StepIsForward(s: Sys, x: Action, t: TxId)
    requires Inv(s) && Enabled(s, x)
    ensures Forward(s, Do(s, x), t)
  {
    if x.DoCredit? {
      CreditStep(s, x);
    } else if x.SettleRefund? {
      RefundStep(s, x);
    } else {
      OtherStepsKeep(s, x);
      if x.DoWrite? {
        assert PcInv(s.l, s.actors[x.a]);
      } else {
        OtherStepsKeepRows(s, x);
      }
    }
  }

  /** A row that is counted now was not before. */
  lemma CountedAnew(s: Sys, x: Action, t: TxId)
    requires Inv(s) && Enabled(s, x)
    ensures CreditsRow(s, x, t) ==> t in s.l.txs && t !in s.credited && t in Do(s, x).credited
    ensures RefundsRow(s, x, t) ==> t in s.l.txs && t !in s.applied && t in Do(s, x).applied
  {
    if t in s.l.txs { assert RowShape(s.l, s.l.txs[t]); }
    if x.DoCredit? {
      CreditStep(s, x);
    } else if x.SettleRefund? {
      RefundStep(s, x);
    }
  }

  lemma {:induction false} RunIsForward(states: seq<Sys>, actions: seq<Action>, j: nat, k: nat, t: TxId)
    requires IsRun(states, actions) && j <= k < |states|
    ensures Forward(states[j], states[k], t)
    decreases k
  {
    if j < k {
      RunIsForward(states, actions, j, k - 1, t);
      RunKeepsInv(states, actions, k - 1);
      StepIsForward(states[k - 1], actions[k - 1], t);
      ForwardTransitive(states[j], states[k - 1], states[k], t);
    }
  }

  lemma ForwardTransitive(a: Sys, b: Sys, c: Sys, t: TxId)
    requires Forward(a, b, t) && Forward(b, c, t)
    ensures Forward(a, c, t)
  {
  }

  /** However stale the blind writes in between, no row is credited twice. */
  lemma CreditedAtMostOnce(states: seq<Sys>, actions: seq<Action>, j: nat, k: nat, t: TxId)
    requires IsRun(states, actions) && j < |actions| && k < |actions|
    requires CreditsRow(states[j], actions[j], t) && CreditsRow(states[k], actions[k], t)
    ensures j == k
  {
    var first, second := if j < k then j else k, if j < k then k else j;
    if first < second {
      RunKeepsInv(states, actions, first);
      RunKeepsInv(states, actions, second);
      CountedAnew(states[first], actions[first], t);
      CountedAnew(states[second], actions[second], t);
      RunIsForward(states, actions, first + 1, second, t);
    }
  }

  lemma RefundedAtMostOnce(states: seq<Sys>, actions: seq<Action>, j: nat, k: nat, t: TxId)
    requires IsRun(states, actions) && j < |actions| && k < |actions|
    requires RefundsRow(states[j], actions[j], t) && RefundsRow(states[k], actions[k], t)
    ensures j == k
  {
    var first, second := if j < k then j else k, if j < k then k else j;
    if first < second {
      RunKeepsInv(states, actions, first);
      RunKeepsInv(states, actions, second);
      CountedAnew(states[first], actions[first], t);
      CountedAnew(states[second], actions[second], t);
      RunIsForward(states, actions, first + 1, second, t);
    }
  }

  // ----- totals against the rows as stored -----

  /**
   * The paid total is never below the sum of the succeeded incoming rows, and equals it exactly
   * when no credited row was an outgoing one or has been overwritten since.
   */
  lemma PaidAgainstRows(s: Sys, i: IntentId)
    requires Inv(s) && i in s.l.intents
    ensures PaidOf(s.l.txs, i) <= s.l.intents[i].paid
    ensures PaidOf(s.l.txs, i) == s.l.intents[i].paid <==>
      forall t :: t in s.credited && s.l.txs[t].intentId == i ==> CountsAsPaid(s.l.txs[t])
  {
    var w, w' := PaidWeight(i), CreditedWeight(s, i);
    forall t | t in s.l.txs
      ensures w(t, s.l.txs[t]) <= w'(t, s.l.txs[t])
      ensures w(t, s.l.txs[t]) == w'(t, s.l.txs[t]) <==> (t in s.credited && s.l.txs[t].intentId == i ==> CountsAsPaid(s.l.txs[t]))
    {
      assert RowShape(s.l, s.l.txs[t]);
    }
    SumLe(s.l.txs, w, w');
    SumEqualTerms(s.l.txs, w, w');
  }

  lemma RefundedAgainstRows(s: Sys, i: IntentId)
    requires Inv(s) && i in s.l.intents
    requires forall t :: t in s.credited && s.l.txs[t].intentId == i ==> s.l.txs[t].direction.Incoming?
    ensures RefundedOf(s.l.txs, i) <= s.l.intents[i].refunded
    ensures RefundedOf(s.l.txs, i) == s.l.intents[i].refunded <==>
      forall t :: t in s.applied && s.l.txs[t].intentId == i ==> s.l.txs[t].status.Succeeded?
  {
    var w, w' := RefundedWeight(i), AppliedWeight(s, i);
    forall t | t in s.l.txs
      ensures w(t, s.l.txs[t]) <= w'(t, s.l.txs[t])
      ensures w(t, s.l.txs[t]) == w'(t, s.l.txs[t]) <==> (t in s.applied && s.l.txs[t].intentId == i ==> s.l.txs[t].status.Succeeded?)
    {
      assert RowShape(s.l, s.l.txs[t]);
    }
    SumLe(s.l.txs, w, w');
    SumEqualTerms(s.l.txs, w, w');
  }

  /** Every counted row still stands for what it was counted as. */
  ghost predicate CountedStand(s: Sys)
  {
    && (forall t :: t in s.credited && t in s.l.txs ==> CountsAsPaid(s.l.txs[t]))
    && (forall t :: t in s.applied && t in s.l.txs ==> CountsAsRefunded(s.l.txs[t]))
  }

  lemma RowSumsMeanCountedStand(s: Sys)
    requires Inv(s)
    ensures TotalsOk(s.l) <==> CountedStand(s)
  {
    forall t | t in s.l.txs
      ensures RowShape(s.l, s.l.txs[t]) && RowCounted(s, t, s.l.txs[t])
    {
      assert RowShape(s.l, s.l.txs[t]);
    }
    forall i | i in s.l.intents
      ensures PaidOf(s.l.txs, i) == s.l.intents[i].paid <==>
        forall t :: t in s.credited && s.l.txs[t].intentId == i ==> CountsAsPaid(s.l.txs[t])
      ensures (forall t :: t in s.credited && s.l.txs[t].intentId == i ==> CountsAsPaid(s.l.txs[t])) ==>
        (RefundedOf(s.l.txs, i) == s.l.intents[i].refunded <==>
          forall t :: t in s.applied && s.l.txs[t].intentId == i ==> s.l.txs[t].status.Succeeded?)
    {
      PaidAgainstRows(s, i);
      if forall t :: t in s.credited && s.l.txs[t].intentId == i ==> CountsAsPaid(s.l.txs[t]) {
        RefundedAgainstRows(s, i);
      }
    }
  }

  /**
   * The two steps that part a total from its rows, each told by what its statement finds: a
   * credit that goes through on an outgoing row, and a blind write on a row that has succeeded.
   */
  predicate Spoils(s: Sys, x: Action)
  {
    match x
    case DoCredit(a) =>
      && a in s.actors && s.actors[a].Crediting? && s.actors[a].t in s.l.txs
      && s.l.txs[s.actors[a].t].direction.Outgoing? && Credits(s.l, s.actors[a].t)
    case DoWrite(a) =>
      && a in s.actors && s.actors[a].Writing? && HasTx(s.l, s.actors[a].t, s.actors[a].m)
      && s.l.txs[s.actors[a].t].status.Succeeded? && ChangeAdmitted(s.l, s.actors[a].t, s.actors[a].change)
    case _ => false
  }

  lemma CreditStands(s: Sys, x: Action)
    requires Inv(s) && Enabled(s, x) && x.DoCredit?
    ensures CountedStand(Do(s, x)) <==> CountedStand(s) && !Spoils(s, x)
  {
    var t := s.actors[x.a].t;
    CreditStep(s, x);
    assert PcInv(s.l, s.actors[x.a]) && RowShape(s.l, s.l.txs[t]);
    assert CreditsRow(s, x, t) <==> Credits(s.l, t);
  }

  lemma WriteStands(s: Sys, x: Action)
    requires Inv(s) && Enabled(s, x) && x.DoWrite?
    ensures CountedStand(Do(s, x)) <==> CountedStand(s) && !Spoils(s, x)
  {
    var t := s.actors[x.a].t;
    assert PcInv(s.l, s.actors[x.a]) && RowShape(s.l, s.l.txs[t]);
  }

  lemma SettleStands(s: Sys, x: Action)
    requires Inv(s) && Enabled(s, x) && x.SettleRefund?
    ensures CountedStand(Do(s, x)) <==> CountedStand(s)
  {
    RefundStep(s, x);
    assert RowShape(s.l, s.l.txs[x.t]);
  }

  lemma StepStands(s: Sys, x: Action)
    requires Inv(s) && Enabled(s, x)
    ensures CountedStand(Do(s, x)) <==> CountedStand(s) && !Spoils(s, x)
  {
    if x.DoCredit? {
      CreditStands(s, x);
    } else if x.DoWrite? {
      WriteStands(s, x);
    } else if x.SettleRefund? {
      SettleStands(s, x);
    } else {
      OtherStepsKeep(s, x);
      OtherStepsKeepRows(s, x);
      assert forall t :: t in s.credited || t in s.applied ==> t in s.l.txs;
    }
  }

  lemma {:induction false} RunStands(states: seq<Sys>, actions: seq<Action>, k: nat)
    requires IsRun(states, actions) && k < |states|
    ensures CountedStand(states[k]) <==> forall n :: 0 <= n < k ==> !Spoils(states[n], actions[n])
  {
    if 0 < k {
      RunStands(states, actions, k - 1);
      RunKeepsInv(states, actions, k - 1);
      StepStands(states[k - 1], actions[k - 1]);
    }
  }

  /**
   * Over every run, both totals of every intent equal the sums of its succeeded rows exactly
   * as long as no step has spoiled them; and once one has, no later step makes up for it.
   */
  lemma RowSumsHoldExactly(states: seq<Sys>, actions: seq<Action>, k: nat)
    requires IsRun(states, actions) && k < |states|
    ensures TotalsOk(states[k].l) <==> forall n :: 0 <= n < k ==> !Spoils(states[n], actions[n])
  {
    RunKeepsInv(states, actions, k);
    RowSumsMeanCountedStand(states[k]);
    RunStands(states, actions, k);
  }

  /** How one changed row moves both sums of every intent. */
  lemma SumsFollowRow(l: Ledger, t: TxId, r: Tx)
    requires t in l.txs
    ensures forall j {:trigger PaidOf(l.txs[t := r], j)} {:trigger RefundedOf(l.txs[t := r], j)} ::
      && PaidOf(l.txs[t := r], j) == PaidOf(l.txs, j) - PaidShare(l.txs[t], j) + PaidShare(r, j)
      && RefundedOf(l.txs[t := r], j) == RefundedOf(l.txs, j) - RefundedShare(l.txs[t], j) + RefundedShare(r, j)
  {
    forall j
      ensures PaidOf(l.txs[t := r], j) == PaidOf(l.txs, j) - PaidShare(l.txs[t], j) + PaidShare(r, j)
      ensures RefundedOf(l.txs[t := r], j) == RefundedOf(l.txs, j) - RefundedShare(l.txs[t], j) + RefundedShare(r, j)
    {
      PaidAfter(l.txs, t, r, j);
      RefundedAfter(l.txs, t, r, j);
    }
  }

  /** The blind write keeps the totals equal to the sums of the rows exactly when the row it closes has not succeeded. */
  lemma WriteKeepsRowSumsExactly(l: Ledger, t: TxId, m: MerchantId, change: TxChange)
    requires TotalsOk(l) && HasTx(l, t, m) && l.txs[t].intentId in l.intents && 0 < l.txs[t].amount
    requires ChangeAdmitted(l, t, change) && Closes(change.status)
    ensures TotalsOk(UpdateTxStatus(l, t, m, change).0) <==> !l.txs[t].status.Succeeded?
  {
    SumsFollowRow(l, t, change.Apply(l.txs[t]));
    assert l.txs[t].intentId in UpdateTxStatus(l, t, m, change).0.intents;
  }

  /**
   * The guarded refund checks nothing of its row. It keeps the totals equal to the sums exactly
   * when the row is an outgoing one that has not succeeded, passed with its own intent and amount.
   */
  lemma RefundKeepsRowSumsExactly(l: Ledger, t: TxId, m: MerchantId, i: IntentId, amount: int, reference: Option<Reference>)
    requires TotalsOk(l) && t in l.txs && l.txs[t].intentId in l.intents && 0 < l.txs[t].amount && 0 < amount
    requires ApplySucceededRefund(l, t, m, i, amount, reference).1.Ok?
    ensures TotalsOk(ApplySucceededRefund(l, t, m, i, amount, reference).0) <==>
      l.txs[t].direction.Outgoing? && !l.txs[t].status.Succeeded? && i == l.txs[t].intentId && amount == l.txs[t].amount
  {
    var l' := ApplySucceededRefund(l, t, m, i, amount, reference).0;
    SumsFollowRow(l, t, l'.txs[t]);
    assert l.txs[t].intentId in l'.intents && i in l'.intents;
  }

  /**
   * The guarded credit itself checks neither the row's direction nor its amount or intent.
   * It keeps the totals equal to the sums of the rows exactly when its caller passes an
   * incoming row together with that row's own intent and amount.
   */
  lemma CreditKeepsRowSumsExactly(l: Ledger, t: TxId, m: MerchantId, i: IntentId, amount: int)
    requires TotalsOk(l) && t in l.txs && l.txs[t].intentId in l.intents && 0 < l.txs[t].amount && 0 < amount
    requires var r := ApplySucceededPayment(l, t, m, i, amount).1; r.Ok? && r.value.changed
    ensures TotalsOk(ApplySucceededPayment(l, t, m, i, amount).0) <==>
      l.txs[t].direction.Incoming? && i == l.txs[t].intentId && amount == l.txs[t].amount
  {
    var l' := ApplySucceededPayment(l, t, m, i, amount).0;
    SumsFollowRow(l, t, l'.txs[t]);
    assert l.txs[t].intentId in l'.intents && i in l'.intents;
  }

  // ----- totals written from a stale read -----

  /** What refresh and reprocess write when the row is marked now but the intent was read as `read`. */
  function StaleTotals(l: Ledger, t: TxId, read: Intent): Ledger
    requires t in l.txs && l.txs[t].intentId in l.intents
  {
    var i, paid := l.txs[t].intentId, read.paid + l.txs[t].amount;
    UpdateIntentStatus(
      UpdateTotals(MarkSucceeded(l, t), i, paid, read.refunded, Max0(read.due - paid)), i, ComputeIntentStatus(read.due, paid))
  }

  /**
   * The write is made when the row is still open and the amount fitted what was read, whatever
   * the intent has left by then. It agrees with the guarded credit exactly when neither total
   * has moved since the read. Otherwise what was paid or refunded in between is lost; and where
   * the guarded credit would have been rejected, more has been collected than is due.
   */
  lemma StaleTotalsAgreeExactly(l: Ledger, t: TxId, read: Intent)
    requires t in l.txs && l.txs[t].status.Confirmable() && HasIntent(l, l.txs[t].intentId, l.txs[t].merchant)
    requires var it := l.intents[l.txs[t].intentId]; Conserved(it) && Conserved(read) && read.due == it.due
    requires 0 < l.txs[t].amount <= read.remaining
    ensures var i := l.txs[t].intentId;
      var it, stale, guarded := l.intents[i], StaleTotals(l, t, read), CreditRow(l, t).0;
      && (stale == guarded <==> read.paid == it.paid && read.refunded == it.refunded)
      && stale.intents[i].paid == read.paid + l.txs[t].amount && stale.intents[i].refunded == read.refunded
      && (Credits(l, t) ==>
            && stale.intents[i].paid == guarded.intents[i].paid - (it.paid - read.paid)
            && stale.intents[i].refunded == guarded.intents[i].refunded - (it.refunded - read.refunded))
      && (!Credits(l, t) ==>
            && CreditRow(l, t) == (l, Err(OverpaymentRejected))
            && (l.txs[t].direction.Incoming? && PaidOf(l.txs, i) == it.paid ==> it.due < PaidOf(stale.txs, i)))
  {
    var i := l.txs[t].intentId;
    var a, b := StaleTotals(l, t, read), CreditRow(l, t).0;
    PaidAfter(l.txs, t, a.txs[t], i);
    if read.paid == l.intents[i].paid && read.refunded == l.intents[i].refunded {
      assert a.intents[i] == b.intents[i];
      assert a.intents == b.intents;
    } else {
      assert a.intents[i] != b.intents[i] || a.txs[t] != b.txs[t];
    }
  }
}
