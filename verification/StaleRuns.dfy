/** Runs with a stale write, from the empty ledger on: what it loses, and what it collects too much. */
module StaleRuns {
  import opened Domain
  import opened IntentStatusRules
  import opened LedgerSpec
  import opened LedgerInvariant
  import Sequential
  import opened Interleaving
  import opened Races
  import opened RaceRuns
  import opened StaleWrites
  import opened Sums

  /** Some run passes `via` and ends in `w`. */
  ghost predicate ArrivesBy(via: World, w: World)
  {
    exists worlds, moves :: Runs(worlds, moves) && via in worlds && worlds[|moves|] == w
  }

  ghost predicate Arrives(w: World) { ArrivesBy(w, w) }

  lemma Follows(via: World, w: World, x: Move, w': World)
    requires ArrivesBy(via, w) && Possible(w, x) && w' == After(w, x)
    ensures ArrivesBy(via, w') && Arrives(w')
  {
    var worlds, moves :| Runs(worlds, moves) && via in worlds && worlds[|moves|] == w;
    var more, xs := worlds + [w'], moves + [x];
    forall k | 0 <= k < |xs|
      ensures Possible(more[k], xs[k]) && more[k + 1] == After(more[k], xs[k])
    {
      if k < |moves| {
        assert more[k] == worlds[k] && more[k + 1] == worlds[k + 1] && xs[k] == moves[k];
      }
    }
    assert Runs(more, xs) && via in more && more[|xs|] == w' && w' in more;
  }

  /** What guarded programs reach alone is reached. */
  lemma {:induction false} RunArrives(states: seq<Sys>, actions: seq<Action>, k: nat)
    requires IsRun(states, actions) && k < |states|
    ensures Arrives(World(states[k], map[], {}))
  {
    if k == 0 {
      assert Runs([Start], []) && Start in [Start] && Start == World(states[k], map[], {});
    } else {
      RunArrives(states, actions, k - 1);
      var w := World(states[k - 1], map[], {});
      Follows(w, w, Guarded(actions[k - 1]), World(states[k], map[], {}));
    }
  }

  lemma ReachedArrives(s: Sys)
    requires Reached(s)
    ensures Arrives(World(s, map[], {}))
  {
    var states, actions :| IsRun(states, actions) && states[|actions|] == s;
    RunArrives(states, actions, |actions|);
  }

  // ----- a refresh reads the intent, and another payment is credited -----

  function StatusAfterOne(due: int): IntentStatus { if due == 1 then Paid else PartiallyPaid }

  /** A refresh of the second of two payments, holding the intent as it was before the first was credited. */
  function Holds(due: int): map<ActorId, StalePc> { map[0 := Checked(1, 0, 0, 1, BothPending(due).intents[0])] }

  function FirstCredited(due: int): Ledger
  {
    Ledger(Due(due, 1, 0, StatusAfterOne(due)), BothPending(due).txs[0 := PaymentRow("a", TxStatus.Succeeded)])
  }

  lemma RefreshReads(due: int)
    requires 0 < due
    ensures Arrives(World(Quiet(BothPending(due), {}), Holds(due), {}))
  {
    BothPendingIsReached(due);
    ReachedArrives(Quiet(BothPending(due), {}));
    var w := World(Quiet(BothPending(due), {}), map[], {});
    Follows(w, w, Read(0, 1), w.(stale := Holds(due)));
  }

  lemma RefreshHasRead(due: int)
    requires 0 < due
    ensures Arrives(World(Quiet(FirstCredited(due), {0}), Holds(due), {}))
  {
    RefreshReads(due);
    var s0 := Quiet(BothPending(due), {});
    var s1 := s0.(actors := map[0 := Crediting(0, 0, 0, 1)]);
    var w0, w1 := World(s0, Holds(due), {}), World(s1, Holds(due), {});
    Follows(w0, w0, Guarded(BeginCredit(0, 0)), w1);
    var s2 := Quiet(FirstCredited(due), {0});
    assert Do(s1, DoCredit(0)) == s2;
    Follows(w1, w1, Guarded(DoCredit(0)), World(s2, Holds(due), {}));
  }

  /** Both payments have succeeded; the columns are those the refresh computed. */
  function BothSucceeded(due: int): Ledger
  {
    Ledger(Due(due, 1, 0, StatusAfterOne(due)), map[0 := PaymentRow("a", TxStatus.Succeeded), 1 := PaymentRow("b", TxStatus.Succeeded)])
  }

  lemma RefreshHasWritten(due: int)
    requires 0 < due
    ensures ArrivesBy(World(Quiet(FirstCredited(due), {0}), Holds(due), {}), World(Quiet(BothSucceeded(due), {0}), map[], {1}))
  {
    RefreshHasRead(due);
    var read := BothPending(due).intents[0];
    var s := Quiet(BothSucceeded(due), {0});
    var w0 := World(Quiet(FirstCredited(due), {0}), Holds(due), {});
    var w1 := World(s, map[0 := Marked(0, 0, 1, read)], {1});
    assert After(w0, Mark(0)).s.l.txs == s.l.txs;
    assert After(w0, Mark(0)) == w1;
    Follows(w0, w0, Mark(0), w1);
    var w2 := World(s, map[0 := Written(0, 0, 1, read)], {1});
    assert After(w1, WriteTotals(0)).s.l.intents == s.l.intents;
    assert After(w1, WriteTotals(0)) == w2;
    Follows(w0, w1, WriteTotals(0), w2);
    assert After(w2, WriteStatus(0)).s.l.intents == s.l.intents;
    assert After(w2, WriteStatus(0)) == World(s, map[], {1});
    Follows(w0, w2, WriteStatus(0), World(s, map[], {1}));
  }

  lemma TwoHaveSucceeded(due: int)
    ensures PaidOf(BothSucceeded(due).txs, 0) == 2
  {
    var none: map<TxId, Tx> := map[];
    var a, b := PaymentRow("a", TxStatus.Succeeded), PaymentRow("b", TxStatus.Succeeded);
    assert BothSucceeded(due).txs == none[0 := a][1 := b];
    PaidAfter(none, 0, a, 0);
    PaidAfter(none[0 := a], 1, b, 0);
  }

  /**
   * A credit is lost: one run passes the ledger on which the first payment of 1 is credited while
   * a refresh still holds the intent with nothing paid, and ends with 1 paid of 2 due, although
   * two payments of 1 have succeeded.
   */
  lemma AStaleWriteLosesACredit()
    ensures ArrivesBy(World(Quiet(FirstCredited(2), {0}), Holds(2), {}), World(Quiet(BothSucceeded(2), {0}), map[], {1}))
    ensures FirstCredited(2).intents[0].paid == 1 && Holds(2)[0].read.paid == 0
    ensures BothSucceeded(2).intents[0].paid == 1 && BothSucceeded(2).intents[0].remaining == 1 && PaidOf(BothSucceeded(2).txs, 0) == 2
  {
    RefreshHasWritten(2);
    TwoHaveSucceeded(2);
  }

  /**
   * Too much is collected: the same run with 1 due ends with two payments of 1 succeeded. On the
   * ledger it passes the guarded credit would have turned the second away; and a reconcile that
   * recomputes the totals in the end overpays.
   */
  lemma AStaleWriteCollectsTooMuch()
    ensures ArrivesBy(World(Quiet(FirstCredited(1), {0}), Holds(1), {}), World(Quiet(BothSucceeded(1), {0}), map[], {1}))
    ensures CreditRow(FirstCredited(1), 1) == (FirstCredited(1), Err(OverpaymentRejected))
    ensures BothSucceeded(1).intents[0].paid == BothSucceeded(1).intents[0].due == 1 && PaidOf(BothSucceeded(1).txs, 0) == 2
    ensures Sequential.Reconciled(BothSucceeded(1), 0).paid == 2 && Sequential.Reconciled(BothSucceeded(1), 0).status.Overpaid?
  {
    RefreshHasWritten(1);
    TwoHaveSucceeded(1);
  }
}
