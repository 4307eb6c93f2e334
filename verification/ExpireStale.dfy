/** The expiry worker: stale transactions first, then overdue intents, then the intents' statuses. */
module ExpireStale {
  import opened Domain
  import opened LedgerSpec
  import opened LedgerInvariant
  import opened PaymentDb
  import opened Sequential

  datatype Key = Key(m: MerchantId, i: IntentId)

  function KeyOf(r: Tx): Key { Key(r.merchant, r.intentId) }

  datatype Summary = Summary(expired: seq<TxId>, skipped: seq<TxId>, status: IntentStatus)

  datatype Report = Report(expiredIntents: nat, expiredTransactions: nat, skippedTransactions: nat,
                           summaries: map<Key, Summary>)

  /** The rows of a set that belong to one intent. */
  ghost function RowsAt(l: Ledger, rows: set<TxId>, k: Key): set<TxId>
  {
    set t: TxId | t in rows && t in l.txs && KeyOf(l.txs[t]) == k
  }

  /** A summary lists the closed rows of its intent, each exactly once, and likewise the passed-over ones; without a summary there are none. */
  ghost predicate Listed(l: Ledger, closed: set<TxId>, passed: set<TxId>, summaries: map<Key, Summary>, k: Key)
  {
    && multiset(RowsAt(l, closed, k)) == (if k in summaries then multiset(summaries[k].expired) else multiset{})
    && multiset(RowsAt(l, passed, k)) == (if k in summaries then multiset(summaries[k].skipped) else multiset{})
  }

  ghost predicate SummariesOk(l: Ledger, closed: set<TxId>, passed: set<TxId>, summaries: map<Key, Summary>)
  {
    forall k {:trigger Listed(l, closed, passed, summaries, k)} :: Listed(l, closed, passed, summaries, k)
  }

  lemma OneMore(l: Ledger, rows: set<TxId>, k: Key, t: TxId)
    requires t in l.txs && t !in rows
    ensures multiset(RowsAt(l, rows + {t}, k)) ==
      multiset(RowsAt(l, rows, k)) + (if KeyOf(l.txs[t]) == k then multiset{t} else multiset{})
  {
    assert RowsAt(l, rows + {t}, k) == RowsAt(l, rows, k) + (if KeyOf(l.txs[t]) == k then {t} else {});
  }

  lemma AppendExpired(l: Ledger, closed: set<TxId>, passed: set<TxId>, summaries: map<Key, Summary>, t: TxId)
    requires SummariesOk(l, closed, passed, summaries) && t in l.txs && t !in closed && KeyOf(l.txs[t]) in summaries
    ensures var k := KeyOf(l.txs[t]);
      SummariesOk(l, closed + {t}, passed, summaries[k := summaries[k].(expired := summaries[k].expired + [t])])
  {
    var k := KeyOf(l.txs[t]);
    var summaries' := summaries[k := summaries[k].(expired := summaries[k].expired + [t])];
    forall j
      ensures Listed(l, closed + {t}, passed, summaries', j)
    {
      assert Listed(l, closed, passed, summaries, j);
      OneMore(l, closed, j, t);
    }
  }

  lemma AppendSkipped(l: Ledger, closed: set<TxId>, passed: set<TxId>, summaries: map<Key, Summary>, t: TxId)
    requires SummariesOk(l, closed, passed, summaries) && t in l.txs && t !in passed && KeyOf(l.txs[t]) in summaries
    ensures var k := KeyOf(l.txs[t]);
      SummariesOk(l, closed, passed + {t}, summaries[k := summaries[k].(skipped := summaries[k].skipped + [t])])
  {
    var k := KeyOf(l.txs[t]);
    var summaries' := summaries[k := summaries[k].(skipped := summaries[k].skipped + [t])];
    forall j
      ensures Listed(l, closed, passed + {t}, summaries', j)
    {
      assert Listed(l, closed, passed, summaries, j);
      OneMore(l, passed, j, t);
    }
  }

  /** Adding an empty summary, or changing a summary's status, moves no list. */
  lemma SameLists(l: Ledger, closed: set<TxId>, passed: set<TxId>, summaries: map<Key, Summary>, k: Key, status: IntentStatus)
    requires SummariesOk(l, closed, passed, summaries)
    ensures SummariesOk(l, closed, passed,
              summaries[k := if k in summaries then summaries[k].(status := status) else Summary([], [], status)])
  {
    var summaries' := summaries[k := if k in summaries then summaries[k].(status := status) else Summary([], [], status)];
    forall j
      ensures Listed(l, closed, passed, summaries', j)
    {
      assert Listed(l, closed, passed, summaries, j);
    }
  }

  function OpenRows(l: Ledger): set<TxId> { set t: TxId | t in l.txs && l.txs[t].status.Confirmable() }

  /** A row once the rows `closed` have been expired. */
  function RowAfter(l: Ledger, closed: set<TxId>, t: TxId): Tx
    requires t in l.txs
  {
    if t in closed then l.txs[t].(status := TxStatus.Expired) else l.txs[t]
  }

  /** An intent the run may expire: still active, and still owed something. */
  predicate Owes(it: Intent) { Active(it) && 0 < it.remaining }

  function IntentAfter(l: Ledger, keys: set<Key>, i: IntentId): Intent
    requires i in l.intents
  {
    var it := l.intents[i];
    if Key(it.merchant, i) in keys && Owes(it) then it.(status := IntentStatus.Expired) else it
  }

  /** `l'` is `l` with the rows `closed` expired, and the intents of `keys` that still owe. */
  ghost predicate After(l': Ledger, l: Ledger, closed: set<TxId>, keys: set<Key>)
  {
    && l'.txs.Keys == l.txs.Keys && l'.intents.Keys == l.intents.Keys
    && (forall t :: t in l.txs ==> l'.txs[t] == RowAfter(l, closed, t))
    && (forall i :: i in l.intents ==> l'.intents[i] == IntentAfter(l, keys, i))
  }

  function Owing(l: Ledger, keys: set<Key>): set<IntentId>
  {
    set i: IntentId | i in l.intents && Key(l.intents[i].merchant, i) in keys && Owes(l.intents[i])
  }

  lemma AfterIsExpire(l': Ledger, l: Ledger, closed: set<TxId>, keys: set<Key>)
    requires After(l', l, closed, keys)
    ensures l' == Expire(l, closed, Owing(l, keys))
  {
    assert l'.txs == Expire(l, closed, Owing(l, keys)).txs;
    assert l'.intents == Expire(l, closed, Owing(l, keys)).intents;
  }

  /** The rows an expiry run at `now` still has to close, and the intents it still has to expire. */
  function StaleRows(l: Ledger, now: Time): set<TxId> { set t: TxId | t in l.txs && StaleTx(l.txs[t], now) }

  function OverdueIntents(l: Ledger, now: Time): set<IntentId> { set i: IntentId | i in l.intents && OverdueIntent(l.intents[i], now) }

  /** What one run with a limit commits to: it closes `rows` and `intentIds`, and makes progress. */
  ghost predicate Selects(l: Ledger, now: Time, limit: nat, rows: set<TxId>, intentIds: set<IntentId>)
  {
    && (forall t :: t in rows ==> t in l.txs && l.txs[t].status.Confirmable())
    && (forall i :: i in intentIds ==> i in l.intents && Active(l.intents[i]) && 0 < l.intents[i].remaining)
    && (StaleRows(l, now) != {} && 0 < limit ==> rows * StaleRows(l, now) != {})
    && (StaleRows(l, now) == {} && OverdueIntents(l, now) != {} && 0 < limit && LedgerInv(l) ==>
          intentIds * OverdueIntents(l, now) != {})
  }

  // ----- what the worker has done once it has gone through some rows -----

  ghost function Ids(rows: seq<TxRow>): set<TxId> { set k | 0 <= k < |rows| :: rows[k].id }

  function KeysOf(l: Ledger, ids: set<TxId>): set<Key> { set t: TxId | t in ids && t in l.txs :: KeyOf(l.txs[t]) }

  function RowsAtKeys(l: Ledger, keys: set<Key>): set<TxId> { set t: TxId | t in l.txs && KeyOf(l.txs[t]) in keys }

  ghost function KeysFound(found: seq<IntentRow>): set<Key> { set k | 0 <= k < |found| :: Key(found[k].intent.merchant, found[k].id) }

  /** The rows closed, the rows passed over, and the intents with a summary. */
  datatype Work = Work(closed: set<TxId>, passed: set<TxId>, keys: set<Key>)

  /** Rows that are open when read are closed; rows that are not, among them those closed before, are passed over. */
  function Through(l: Ledger, w: Work, ids: set<TxId>): Work
  {
    Work(w.closed + ids * OpenRows(l), w.passed + (ids - (OpenRows(l) - w.closed)), w.keys + KeysOf(l, ids))
  }

  function ThroughIntents(l: Ledger, w: Work, keys: set<Key>): Work
  {
    Through(l, w, RowsAtKeys(l, keys)).(keys := w.keys + keys)
  }

  lemma ThroughOne(l: Ledger, w: Work, row: TxRow)
    requires AsLeft(row, l, w)
    ensures Through(l, w, {row.id}) ==
      if row.tx.status.Confirmable() then Work(w.closed + {row.id}, w.passed, w.keys + {KeyOf(row.tx)})
      else Work(w.closed, w.passed + {row.id}, w.keys + {KeyOf(row.tx)})
  {
    assert KeysOf(l, {row.id}) == {KeyOf(row.tx)};
  }

  /** One more row after others is the same as all of them. */
  lemma ThroughOneMore(l: Ledger, w: Work, ids: set<TxId>, t: TxId)
    requires t !in ids
    ensures Through(l, Through(l, w, ids), {t}) == Through(l, w, ids + {t})
  {
  }

  lemma ThroughNoKeys(l: Ledger, w: Work)
    ensures Through(l, w, {}) == w && ThroughIntents(l, w, {}) == w
  {
  }

  lemma ThroughOneMoreIntent(l: Ledger, w: Work, keys: set<Key>, k: Key)
    requires k !in keys
    ensures ThroughIntents(l, ThroughIntents(l, w, keys), {k}) == ThroughIntents(l, w, keys + {k})
  {
    var first, second := RowsAtKeys(l, keys), RowsAtKeys(l, {k});
    assert first * second == {} && RowsAtKeys(l, keys + {k}) == first + second;
  }

  lemma ThroughThenKey(l: Ledger, w: Work, k: Key)
    ensures Through(l, w.(keys := w.keys + {k}), RowsAtKeys(l, {k})) == ThroughIntents(l, w, {k})
  {
    assert KeysOf(l, RowsAtKeys(l, {k})) <= {k};
  }

  lemma NextId(rows: seq<TxRow>, k: nat)
    requires k < |rows| && forall j, n :: 0 <= j < n < |rows| ==> rows[j].id != rows[n].id
    ensures Ids(rows[..k + 1]) == Ids(rows[..k]) + {rows[k].id}
    ensures rows[k].id !in Ids(rows[..k])
  {
    var some, more := rows[..k], rows[..k + 1];
    assert more[k] == rows[k];
    assert forall j :: 0 <= j < k ==> more[j] == some[j];
    forall j | 0 <= j < k
      ensures some[j].id in Ids(more)
    {
      assert more[j].id in Ids(more);
    }
  }

  /** The status write on one row still open. */
  method CloseRow(db: Tables, row: TxRow, ghost l: Ledger, ghost closed: set<TxId>)
    requires After(db.View(), l, closed, {})
    requires row.id in l.txs && row.id !in closed && row.tx == l.txs[row.id]
    modifies db`txs
    ensures After(db.View(), l, closed + {row.id}, {})
  {
    var updated := db.UpdateStatus(row.id, row.tx.merchant, TxChange(TxStatus.Expired, None, None));
  }

  lemma NextKey(found: seq<IntentRow>, n: nat)
    requires n < |found| && forall j, k :: 0 <= j < k < |found| ==> found[j].id != found[k].id
    ensures var k := Key(found[n].intent.merchant, found[n].id);
      KeysFound(found[..n + 1]) == KeysFound(found[..n]) + {k} && k !in KeysFound(found[..n])
  {
    var some, more := found[..n], found[..n + 1];
    assert more[n] == found[n];
    assert forall j :: 0 <= j < n ==> more[j] == some[j];
    forall j | 0 <= j < n
      ensures Key(some[j].intent.merchant, some[j].id) in KeysFound(more)
    {
      assert Key(more[j].intent.merchant, more[j].id) in KeysFound(more);
    }
  }

  /** A row as the worker has left it, not passed over yet. */
  ghost predicate AsLeft(row: TxRow, l: Ledger, w: Work)
  {
    row.id in l.txs && row.tx == RowAfter(l, w.closed, row.id) && row.id !in w.passed
  }

  lemma StillAsLeft(row: TxRow, l: Ledger, w: Work, ids: set<TxId>)
    requires AsLeft(row, l, w) && row.id !in ids
    ensures AsLeft(row, l, Through(l, w, ids))
  {
  }

  /** The query for an intent's rows returns each as the worker has left it. */
  lemma FoundAtKey(rows: seq<TxRow>, txs: map<TxId, Tx>, l: Ledger, w: Work, k: Key)
    requires Lists(rows, txs, OfIntent(k.i, k.m)) && txs.Keys == l.txs.Keys
    requires forall t :: t in l.txs ==> txs[t] == RowAfter(l, w.closed, t)
    requires w.passed * RowsAtKeys(l, {k}) == {}
    ensures Ids(rows) == RowsAtKeys(l, {k})
    ensures forall j :: 0 <= j < |rows| ==> AsLeft(rows[j], l, w)
  {
    forall t | t in RowsAtKeys(l, {k})
      ensures t in Ids(rows)
    {
      assert OfIntent(k.i, k.m)(t, txs[t]);
    }
    forall j | 0 <= j < |rows|
      ensures rows[j].id in RowsAtKeys(l, {k}) && AsLeft(rows[j], l, w)
    {
      assert rows[j].tx == txs[rows[j].id] && OfIntent(k.i, k.m)(rows[j].id, rows[j].tx);
      assert KeyOf(l.txs[rows[j].id]) == k;
      assert rows[j].id !in w.passed * RowsAtKeys(l, {k});
    }
  }

  lemma NotPassedYet(l: Ledger, w: Work, keys: set<Key>, k: Key)
    requires w.passed == {} && k !in keys
    ensures ThroughIntents(l, w, keys).passed * RowsAtKeys(l, {k}) == {}
  {
  }

  /** A summary states the status its intent ends with. */
  predicate Right(l: Ledger, k: Key, s: Summary)
  {
    HasIntent(l, k.i, k.m) ==> s.status == IntentAfter(l, {k}, k.i).status
  }

  /** The variables the worker's two local closures share. */
  class Worker {
    var summaries: map<Key, Summary>
    var expiredTransactions: nat
    var skippedTransactions: nat
    ghost var closed: set<TxId>
    ghost var passed: set<TxId>

    ghost predicate Valid(l: Ledger)
      reads this
    {
      && expiredTransactions == |closed| && skippedTransactions == |passed|
      && SummariesOk(l, closed, passed, summaries)
      && closed <= OpenRows(l) && passed <= l.txs.Keys
    }

    ghost function Doing(): (w: Work)
      reads this
    {
      Work(closed, passed, summaries.Keys)
    }

    constructor (ghost l: Ledger)
      ensures Doing() == Work({}, {}, {})
      ensures Valid(l) && closed == {} && passed == {}
    {
      summaries := map[];
      expiredTransactions, skippedTransactions := 0, 0;
      closed, passed := {}, {};
    }

    method EnsureSummary(db: Tables, k: Key, ghost l: Ledger)
      requires Valid(l)
      modifies this`summaries
      ensures Valid(l) && summaries.Keys == old(summaries).Keys + {k}
    {
      if k in summaries { return; }
      var intent := db.FindIntent(k.i, k.m);
      var status := if intent.Some? then intent.value.status else RequiresPayment;
      SameLists(l, closed, passed, summaries, k, status);
      summaries := summaries[k := Summary([], [], status)];
    }

    method PassOver(db: Tables, t: TxId, ghost l: Ledger, k: Key)
      requires Valid(l) && t in l.txs && t !in passed && k == KeyOf(l.txs[t])
      modifies this`summaries, this`skippedTransactions, this`passed
      ensures Valid(l) && Doing() == Work(old(closed), old(passed) + {t}, old(summaries).Keys + {k})
    {
      EnsureSummary(db, k, l);
      AppendSkipped(l, closed, passed, summaries, t);
      skippedTransactions := skippedTransactions + 1;
      summaries := summaries[k := summaries[k].(skipped := summaries[k].skipped + [t])];
      passed := passed + {t};
    }

    method RecordExpired(db: Tables, t: TxId, ghost l: Ledger, k: Key)
      requires Valid(l) && t in l.txs && t !in closed && l.txs[t].status.Confirmable() && k == KeyOf(l.txs[t])
      modifies this`summaries, this`expiredTransactions, this`closed
      ensures Valid(l) && Doing() == Work(old(closed) + {t}, old(passed), old(summaries).Keys + {k})
    {
      EnsureSummary(db, k, l);
      AppendExpired(l, closed, passed, summaries, t);
      expiredTransactions := expiredTransactions + 1;
      summaries := summaries[k := summaries[k].(expired := summaries[k].expired + [t])];
      closed := closed + {t};
    }

    method ExpireTransaction(db: Tables, row: TxRow, ghost l: Ledger)
      requires Valid(l) && After(db.View(), l, closed, {}) && AsLeft(row, l, Doing())
      modifies this, db
      ensures Valid(l) && After(db.View(), l, closed, {})
      ensures Doing() == Through(l, old(Doing()), {row.id})
    {
      ThroughOne(l, Doing(), row);
      if !row.tx.status.Confirmable() {
        PassOver(db, row.id, l, KeyOf(row.tx));
      } else {
        CloseRow(db, row, l, closed);
        RecordExpired(db, row.id, l, KeyOf(row.tx));
      }
    }

    /** A loop over rows just read. */
    method ExpireAll(db: Tables, rows: seq<TxRow>, ghost l: Ledger)
      requires Valid(l) && After(db.View(), l, closed, {})
      requires forall j :: 0 <= j < |rows| ==> AsLeft(rows[j], l, Doing())
      requires forall j, k :: 0 <= j < k < |rows| ==> rows[j].id != rows[k].id
      modifies this, db
      ensures Valid(l) && After(db.View(), l, closed, {})
      ensures Doing() == Through(l, old(Doing()), Ids(rows))
    {
      ghost var w := Doing();
      ThroughNoKeys(l, w);
      assert Ids(rows[..0]) == {};
      for k := 0 to |rows|
        invariant Valid(l) && After(db.View(), l, closed, {})
        invariant Doing() == Through(l, w, Ids(rows[..k]))
      {
        NextId(rows, k);
        ThroughOneMore(l, w, Ids(rows[..k]), rows[k].id);
        StillAsLeft(rows[k], l, w, Ids(rows[..k]));
        ExpireTransaction(db, rows[k], l);
      }
      assert rows[..|rows|] == rows;
    }

    /** An overdue intent takes all its open rows with it. */
    method ExpireIntent(db: Tables, overdue: IntentRow, ghost l: Ledger, ghost k: Key)
      requires Valid(l) && After(db.View(), l, closed, {})
      requires k == Key(overdue.intent.merchant, overdue.id) && passed * RowsAtKeys(l, {k}) == {}
      modifies this, db
      ensures Valid(l) && After(db.View(), l, closed, {})
      ensures Doing() == ThroughIntents(l, old(Doing()), {k})
    {
      ghost var w := Doing();
      EnsureSummary(db, Key(overdue.intent.merchant, overdue.id), l);
      assert Doing() == w.(keys := w.keys + {k});
      var rows := db.FindByIntentId(overdue.id, overdue.intent.merchant);
      FoundAtKey(rows, db.txs, l, Doing(), k);
      ThroughThenKey(l, w, k);
      ExpireAll(db, rows, l);
      assert Doing() == ThroughIntents(l, w, {k});
      SetStatus(Key(overdue.intent.merchant, overdue.id), overdue.intent.status, l);
    }

    /** The fallback loop. */
    method ExpireIntents(db: Tables, found: seq<IntentRow>, ghost l: Ledger)
      requires Valid(l) && After(db.View(), l, closed, {}) && passed == {}
      requires forall j, k :: 0 <= j < k < |found| ==> found[j].id != found[k].id
      modifies this, db
      ensures Valid(l) && After(db.View(), l, closed, {})
      ensures Doing() == ThroughIntents(l, old(Doing()), KeysFound(found))
    {
      ghost var w := Doing();
      ThroughNoKeys(l, w);
      assert KeysFound(found[..0]) == {};
      for n := 0 to |found|
        invariant Valid(l) && After(db.View(), l, closed, {})
        invariant Doing() == ThroughIntents(l, w, KeysFound(found[..n]))
      {
        ghost var k := Key(found[n].intent.merchant, found[n].id);
        NextKey(found, n);
        ThroughOneMoreIntent(l, w, KeysFound(found[..n]), k);
        NotPassedYet(l, w, KeysFound(found[..n]), k);
        ExpireIntent(db, found[n], l, k);
      }
      assert found[..|found|] == found;
    }

    method SetStatus(k: Key, status: IntentStatus, ghost l: Ledger)
      requires Valid(l) && k in summaries
      modifies this`summaries
      ensures Valid(l) && summaries == old(summaries)[k := old(summaries)[k].(status := status)]
    {
      SameLists(l, closed, passed, summaries, k, status);
      summaries := summaries[k := summaries[k].(status := status)];
    }

    method CloseIntent(db: Tables, k: Key, ghost l: Ledger, ghost settled: set<Key>)
      requires Valid(l) && After(db.View(), l, closed, settled) && k in summaries && k !in settled
      modifies this`summaries, db
      ensures Valid(l) && After(db.View(), l, closed, settled + {k})
      ensures k in summaries && summaries == old(summaries)[k := summaries[k]]
      ensures Right(l, k, summaries[k])
    {
      var current := db.FindIntent(k.i, k.m);
      if current.None? { return; }
      if Owes(current.value) {
        var written := db.UpdateIntentStatus(k.i, k.m, IntentStatus.Expired);
        SetStatus(k, written.value.status, l);
      } else {
        SetStatus(k, current.value.status, l);
      }
    }

    /** The last loop: each touched intent that is still active and still owes something expires. */
    method CloseIntents(db: Tables, ghost l: Ledger)
      requires Valid(l) && After(db.View(), l, closed, {})
      modifies this`summaries, db
      ensures Valid(l) && summaries.Keys == old(summaries).Keys
      ensures After(db.View(), l, closed, summaries.Keys)
      ensures forall k :: k in summaries ==> Right(l, k, summaries[k])
    {
      var rest := summaries.Keys;
      ghost var settled: set<Key> := {};
      while rest != {}
        invariant summaries.Keys == old(summaries).Keys == settled + rest && settled !! rest
        invariant Valid(l) && After(db.View(), l, closed, settled)
        invariant forall k :: k in settled ==> Right(l, k, summaries[k])
        decreases |rest|
      {
        var k :| k in rest;
        CloseIntent(db, k, l, settled);
        rest, settled := rest - {k}, settled + {k};
      }
      assert settled == summaries.Keys;
    }
  }

  /** How many summaries end up with an expired intent. */
  method CountExpired(summaries: map<Key, Summary>) returns (n: nat)
    ensures n == |set k: Key | k in summaries && summaries[k].status.Expired?|
  {
    n := |set k: Key | k in summaries && summaries[k].status.Expired?|;
  }

  /** What the two queries of a run may return: as many as the limit leaves room for, all of them when there is room. */
  ghost predicate Picks(l: Ledger, now: Time, limit: nat, primary: set<TxId>, overdue: set<IntentId>)
  {
    && primary <= StaleRows(l, now) && |primary| <= limit && (|primary| < limit ==> primary == StaleRows(l, now))
    && overdue <= OverdueIntents(l, now) && |primary| + |overdue| <= limit
    && (|primary| + |overdue| < limit ==> overdue == OverdueIntents(l, now))
  }

  function KeysAt(l: Ledger, overdue: set<IntentId>): set<Key> { set i: IntentId | i in overdue && i in l.intents :: Key(l.intents[i].merchant, i) }

  /**
   * What a run does: it closes the stale rows it found, then all open rows of the overdue
   * intents it found, passing over those that are closed already, by itself or before.
   */
  function Done(l: Ledger, primary: set<TxId>, overdue: set<IntentId>): Work
  {
    ThroughIntents(l, Work(primary, {}, KeysOf(l, primary)), KeysAt(l, overdue))
  }

  method FindStale(db: Tables, now: Time, limit: nat, ghost l: Ledger) returns (stale: seq<TxRow>)
    requires db.View() == l
    ensures |Ids(stale)| == |stale| <= limit && Ids(stale) <= StaleRows(l, now)
    ensures |stale| < limit ==> Ids(stale) == StaleRows(l, now)
    ensures forall k :: 0 <= k < |stale| ==> AsLeft(stale[k], l, Work({}, {}, {}))
    ensures forall j, k :: 0 <= j < k < |stale| ==> stale[j].id != stale[k].id
  {
    stale := db.FindStalePendingTransactions(now, limit);
    StaleFound(l, now, limit, stale);
    StaleAreLeft(l, now, stale);
    DistinctIds(stale);
  }

  /** The primary pass: stale rows, at most `limit` of them. */
  method ExpireStaleRows(db: Tables, worker: Worker, now: Time, limit: nat, ghost l: Ledger)
    returns (n: nat, ghost primary: set<TxId>)
    requires db.View() == l && worker.Valid(l) && worker.Doing() == Work({}, {}, {})
    modifies worker, db
    ensures worker.Valid(l) && After(db.View(), l, worker.closed, {})
    ensures worker.Doing() == Work(primary, {}, KeysOf(l, primary))
    ensures n == |primary| && n <= limit && primary <= StaleRows(l, now) && (n < limit ==> primary == StaleRows(l, now))
  {
    var stale := FindStale(db, now, limit, l);
    worker.ExpireAll(db, stale, l);
    n, primary := |stale|, Ids(stale);
    ThroughOpenRows(l, now, primary);
  }

  lemma ThroughOpenRows(l: Ledger, now: Time, ids: set<TxId>)
    requires ids <= StaleRows(l, now)
    ensures Through(l, Work({}, {}, {}), ids) == Work(ids, {}, KeysOf(l, ids))
  {
    assert ids * OpenRows(l) == ids;
  }

  lemma StaleFound(l: Ledger, now: Time, limit: nat, stale: seq<TxRow>)
    requires forall k :: 0 <= k < |stale| ==> stale[k].id in l.txs && stale[k].tx == l.txs[stale[k].id] && StaleTx(stale[k].tx, now)
    requires |stale| < limit ==> forall t :: t in l.txs && StaleTx(l.txs[t], now) ==> exists k :: 0 <= k < |stale| && stale[k].id == t
    ensures Ids(stale) <= StaleRows(l, now) && (|stale| < limit ==> StaleRows(l, now) <= Ids(stale))
  {
  }

  lemma StaleAreLeft(l: Ledger, now: Time, stale: seq<TxRow>)
    requires forall k :: 0 <= k < |stale| ==> stale[k].id in l.txs && stale[k].tx == l.txs[stale[k].id]
    ensures forall k :: 0 <= k < |stale| ==> AsLeft(stale[k], l, Work({}, {}, {}))
  {
  }

  lemma {:induction false} DistinctIds(rows: seq<TxRow>)
    requires forall j, k :: 0 <= j < k < |rows| ==> rows[j].id != rows[k].id
    ensures |Ids(rows)| == |rows|
  {
    if rows != [] {
      var some := rows[..|rows| - 1];
      DistinctIds(some);
      NextId(rows, |some|);
      assert rows[..|some| + 1] == rows;
    }
  }

  ghost function IntentIds(found: seq<IntentRow>): set<IntentId> { set k | 0 <= k < |found| :: found[k].id }

  lemma {:induction false} DistinctIntents(found: seq<IntentRow>)
    requires forall j, k :: 0 <= j < k < |found| ==> found[j].id != found[k].id
    ensures |IntentIds(found)| == |found|
  {
    if found != [] {
      var some := found[..|found| - 1];
      DistinctIntents(some);
      assert forall j :: 0 <= j < |some| ==> some[j] == found[j];
      assert IntentIds(found) == IntentIds(some) + {found[|found| - 1].id};
    }
  }

  /** The fallback pass: overdue intents, at most `limit` of them. */
  method ExpireOverdueIntents(db: Tables, worker: Worker, now: Time, limit: nat, ghost l: Ledger) returns (ghost overdue: set<IntentId>)
    requires worker.Valid(l) && After(db.View(), l, worker.closed, {}) && worker.passed == {}
    modifies worker, db
    ensures worker.Valid(l) && After(db.View(), l, worker.closed, {})
    ensures worker.Doing() == ThroughIntents(l, old(worker.Doing()), KeysAt(l, overdue))
    ensures overdue <= OverdueIntents(l, now) && |overdue| <= limit && (|overdue| < limit ==> overdue == OverdueIntents(l, now))
  {
    var found: seq<IntentRow> := [];
    if 0 < limit { found := db.FindExpiredActive(now, limit); }
    assert db.intents == l.intents;
    overdue := IntentIds(found);
    DistinctIntents(found);
    assert |found| < limit ==> forall i :: i in OverdueIntents(l, now) ==> i in l.intents && OverdueIntent(l.intents[i], now);
    assert KeysFound(found) == KeysAt(l, overdue);
    worker.ExpireIntents(db, found, l);
  }

  lemma TouchedStillOwes(l: Ledger, now: Time, primary: set<TxId>, overdue: set<IntentId>, i: IntentId)
    requires LedgerInv(l) && i in overdue && i in OverdueIntents(l, now)
    ensures i in Owing(l, Done(l, primary, overdue).keys)
  {
    assert IntentOk(l.intents[i]);
    assert Key(l.intents[i].merchant, i) in KeysAt(l, overdue);
  }

  lemma Progress(l: Ledger, now: Time, limit: nat, primary: set<TxId>, overdue: set<IntentId>)
    requires Picks(l, now, limit, primary, overdue) && 0 < limit
    ensures StaleRows(l, now) != {} ==> Done(l, primary, overdue).closed * StaleRows(l, now) != {}
    ensures StaleRows(l, now) == {} && OverdueIntents(l, now) != {} && LedgerInv(l) ==>
      Owing(l, Done(l, primary, overdue).keys) * OverdueIntents(l, now) != {}
  {
    if StaleRows(l, now) != {} {
      var t :| t in primary;
      assert t in Done(l, primary, overdue).closed * StaleRows(l, now);
    } else if OverdueIntents(l, now) != {} && LedgerInv(l) {
      var i :| i in overdue;
      TouchedStillOwes(l, now, primary, overdue, i);
      assert i in Owing(l, Done(l, primary, overdue).keys) * OverdueIntents(l, now);
    }
  }

  /** A run is one effect of the sequential layer and, with a positive limit, makes progress. */
  lemma RunIsOneEffect(l: Ledger, now: Time, limit: nat, primary: set<TxId>, overdue: set<IntentId>)
    requires Picks(l, now, limit, primary, overdue)
    ensures var closed, ended := Done(l, primary, overdue).closed, Owing(l, Done(l, primary, overdue).keys);
      Selects(l, now, limit, closed, ended) && Next(l, ExpiryRun(closed, ended), Expire(l, closed, ended))
  {
    DoneIsOpen(l, primary, overdue);
    if 0 < limit { Progress(l, now, limit, primary, overdue); }
  }

  lemma DoneIsOpen(l: Ledger, primary: set<TxId>, overdue: set<IntentId>)
    requires primary <= OpenRows(l)
    ensures forall t :: t in Done(l, primary, overdue).closed ==> t in l.txs && l.txs[t].status.Confirmable()
  {
  }

  /** The time of an open row has come. */
  ghost predicate RowIsDue(l: Ledger, t: TxId, now: Time)
  {
    && t in l.txs && l.txs[t].status in {TxStatus.Pending, RequiresAction}
    && l.txs[t].expiresAt.Some? && l.txs[t].expiresAt.value <= now
  }

  /** The time of an intent that is still to be paid has come. */
  ghost predicate IntentIsDue(l: Ledger, i: IntentId, now: Time)
  {
    && i in l.intents && l.intents[i].status in {RequiresPayment, PartiallyPaid}
    && l.intents[i].expiresAt.Some? && l.intents[i].expiresAt.value <= now
  }

  ghost predicate OfTheIntent(l: Ledger, t: TxId, i: IntentId)
  {
    t in l.txs && i in l.intents && l.txs[t].intentId == i && l.txs[t].merchant == l.intents[i].merchant
  }

  lemma SameDue(l: Ledger, now: Time)
    ensures forall t :: t in StaleRows(l, now) <==> RowIsDue(l, t, now)
    ensures forall i :: i in OverdueIntents(l, now) <==> IntentIsDue(l, i, now)
  {
  }

  ghost predicate MayClose(l: Ledger, t: TxId, now: Time)
  {
    || RowIsDue(l, t, now)
    || (t in l.txs && l.txs[t].status in {TxStatus.Pending, RequiresAction} && OfTheIntent(l, t, l.txs[t].intentId)
        && IntentIsDue(l, l.txs[t].intentId, now))
  }

  /**
   * A run closes only rows that are open and whose own time has come or their intent's, and all
   * of them when it stays under its limit.
   */
  lemma ClosesExactlyWhatIsDue(l: Ledger, now: Time, limit: nat, primary: set<TxId>, overdue: set<IntentId>, t: TxId)
    requires Picks(l, now, limit, primary, overdue)
    ensures t in Done(l, primary, overdue).closed ==> MayClose(l, t, now)
    ensures |primary| + |overdue| < limit && MayClose(l, t, now) ==> t in Done(l, primary, overdue).closed
  {
    SameDue(l, now);
    if t in l.txs {
      var i := l.txs[t].intentId;
      assert KeyOf(l.txs[t]) in KeysAt(l, overdue) <==> i in overdue && OfTheIntent(l, t, i);
      assert t in RowsAtKeys(l, KeysAt(l, overdue)) <==> KeyOf(l.txs[t]) in KeysAt(l, overdue);
    }
  }

  /**
   * A run expires only intents that are active and still owe, and that are due themselves or have
   * a row whose own time has come; all of them when it stays under its limit.
   */
  lemma ExpiresExactlyWhatIsDue(l: Ledger, now: Time, limit: nat, primary: set<TxId>, overdue: set<IntentId>, i: IntentId)
    requires Picks(l, now, limit, primary, overdue)
    ensures var touched := IntentIsDue(l, i, now) || exists t :: OfTheIntent(l, t, i) && RowIsDue(l, t, now);
      var owing := i in l.intents && l.intents[i].status in {RequiresPayment, PartiallyPaid} && 0 < l.intents[i].remaining;
      && (i in Owing(l, Done(l, primary, overdue).keys) ==> owing && touched)
      && (|primary| + |overdue| < limit && owing && touched ==> i in Owing(l, Done(l, primary, overdue).keys))
  {
    SameDue(l, now);
    if i in l.intents {
      var k := Key(l.intents[i].merchant, i);
      assert k in KeysAt(l, overdue) <==> i in overdue;
      if k in KeysOf(l, primary) {
        var t :| t in primary && t in l.txs && KeyOf(l.txs[t]) == k;
        assert OfTheIntent(l, t, i) && RowIsDue(l, t, now);
      }
      if |primary| + |overdue| < limit && exists t :: OfTheIntent(l, t, i) && RowIsDue(l, t, now) {
        var t :| OfTheIntent(l, t, i) && RowIsDue(l, t, now);
        assert t in primary && KeyOf(l.txs[t]) == k;
      }
    }
  }

  /** In the ledger a run leaves, the rows that changed are those it closed. */
  lemma ChangedAreClosed(l: Ledger, closed: set<TxId>, ended: set<IntentId>)
    requires forall t :: t in closed ==> t in l.txs && l.txs[t].status.Confirmable()
    ensures var l' := Expire(l, closed, ended);
      && l'.txs.Keys == l.txs.Keys
      && (forall t :: t in l'.txs && l'.txs[t] != l.txs[t] ==> l'.txs[t] == l.txs[t].(status := TxStatus.Expired))
      && closed == set t | t in l'.txs && l'.txs[t] != l.txs[t]
  {
  }

  lemma RunIsInTime(l: Ledger, now: Time, limit: nat, primary: set<TxId>, overdue: set<IntentId>)
    requires Picks(l, now, limit, primary, overdue)
    ensures forall t :: t in Done(l, primary, overdue).closed ==> t in l.txs && l.txs[t].status.Confirmable() && MayClose(l, t, now)
  {
    DoneIsOpen(l, primary, overdue);
    forall t | t in Done(l, primary, overdue).closed
      ensures MayClose(l, t, now)
    {
      ClosesExactlyWhatIsDue(l, now, limit, primary, overdue, t);
    }
  }

  /** What the report says of the ledger before and after. */
  ghost predicate Reports(r: Report, l: Ledger, w: Work, l': Ledger)
  {
    && r.expiredTransactions == |w.closed| && r.skippedTransactions == |w.passed|
    && r.summaries.Keys == w.keys && SummariesOk(l, w.closed, w.passed, r.summaries)
    && (forall k :: k in w.keys && HasIntent(l, k.i, k.m) ==> k.i in l'.intents && r.summaries[k].status == l'.intents[k.i].status)
    && r.expiredIntents == |set k: Key | k in r.summaries && r.summaries[k].status.Expired?|
  }

  lemma StatusesStand(l': Ledger, l: Ledger, closed: set<TxId>, summaries: map<Key, Summary>)
    requires After(l', l, closed, summaries.Keys)
    requires forall k :: k in summaries ==> Right(l, k, summaries[k])
    ensures forall k :: k in summaries.Keys && HasIntent(l, k.i, k.m) ==> k.i in l'.intents && summaries[k].status == l'.intents[k.i].status
  {
  }

  /** The two passes. */
  method RunPasses(db: Tables, worker: Worker, now: Time, limit: nat, ghost l: Ledger)
    returns (ghost primary: set<TxId>, ghost overdue: set<IntentId>)
    requires db.View() == l && worker.Valid(l) && worker.Doing() == Work({}, {}, {})
    modifies worker, db
    ensures worker.Valid(l) && After(db.View(), l, worker.closed, {})
    ensures worker.Doing() == Done(l, primary, overdue) && Picks(l, now, limit, primary, overdue)
  {
    var n;
    n, primary := ExpireStaleRows(db, worker, now, limit, l);
    overdue := ExpireOverdueIntents(db, worker, now, limit - n, l);
  }

  /**
   * One run of the worker: what its two queries pick decides the ledger it leaves, the rows it
   * counts and lists, and the statuses it reports.
   */
  method Execute(db: Tables, now: Time, limit: nat)
    returns (r: Report, ghost primary: set<TxId>, ghost overdue: set<IntentId>)
    modifies db
    ensures var l := old(db.View());
      var w := Done(l, primary, overdue);
      && Picks(l, now, limit, primary, overdue)
      && db.View() == Expire(l, w.closed, Owing(l, w.keys))
      && Reports(r, l, w, db.View())
    ensures |primary| + |overdue| <= limit && db.txs.Keys == old(db.txs).Keys
    // the rows that changed were due, are expired now, and are as many as are reported
    ensures forall t :: t in db.txs && db.txs[t] != old(db.txs)[t] ==>
      && db.txs[t] == old(db.txs)[t].(status := TxStatus.Expired)
      && MayClose(old(db.View()), t, now)
    ensures r.expiredTransactions == |set t | t in db.txs && db.txs[t] != old(db.txs)[t]|
  {
    ghost var l := db.View();
    var worker := new Worker(l);
    primary, overdue := RunPasses(db, worker, now, limit, l);
    worker.CloseIntents(db, l);
    assert worker.Doing() == Done(l, primary, overdue);
    AfterIsExpire(db.View(), l, worker.closed, worker.summaries.Keys);
    StatusesStand(db.View(), l, worker.closed, worker.summaries);
    var expired := CountExpired(worker.summaries);
    r := Report(expired, worker.expiredTransactions, worker.skippedTransactions, worker.summaries);
    RunIsInTime(l, now, limit, primary, overdue);
    ChangedAreClosed(l, worker.closed, Owing(l, worker.summaries.Keys));
  }

  /**
   * No summary lists an id twice as expired or twice as skipped. It lists one as both exactly
   * when the first pass expired the row and the second pass then came upon it again, its
   * intent being overdue as well.
   */
  lemma ListedAsBoth(l: Ledger, now: Time, limit: nat, primary: set<TxId>, overdue: set<IntentId>, summaries: map<Key, Summary>, k: Key, t: TxId)
    requires Picks(l, now, limit, primary, overdue) && k in summaries
    requires SummariesOk(l, Done(l, primary, overdue).closed, Done(l, primary, overdue).passed, summaries)
    ensures multiset(summaries[k].expired)[t] <= 1 && multiset(summaries[k].skipped)[t] <= 1
    ensures t in summaries[k].expired && t in summaries[k].skipped <==>
      t in primary && t in l.txs && KeyOf(l.txs[t]) == k && k in KeysAt(l, overdue)
  {
    assert Listed(l, Done(l, primary, overdue).closed, Done(l, primary, overdue).passed, summaries, k);
    assert t in summaries[k].expired <==> t in multiset(summaries[k].expired);
    assert t in summaries[k].skipped <==> t in multiset(summaries[k].skipped);
  }

  lemma DoneMembers(l: Ledger, primary: set<TxId>, overdue: set<IntentId>, t: TxId)
    requires t in l.txs
    ensures var again := l.txs[t].intentId in overdue && OfTheIntent(l, t, l.txs[t].intentId);
      var open := l.txs[t].status in {TxStatus.Pending, RequiresAction};
      && (t in Done(l, primary, overdue).closed <==> t in primary || (again && open))
      && (t in Done(l, primary, overdue).passed <==> again && (t in primary || !open))
  {
    assert KeyOf(l.txs[t]) in KeysAt(l, overdue) <==> l.txs[t].intentId in overdue && OfTheIntent(l, t, l.txs[t].intentId);
    assert t in RowsAtKeys(l, KeysAt(l, overdue)) <==> KeyOf(l.txs[t]) in KeysAt(l, overdue);
  }

  /**
   * Row by row, a summary lists as expired the rows of its intent that the first pass picked or
   * the second found open, and as skipped those the second pass found closed.
   */
  lemma ListsExactly(l: Ledger, primary: set<TxId>, overdue: set<IntentId>, summaries: map<Key, Summary>, k: Key, t: TxId)
    requires primary <= l.txs.Keys && k in summaries
    requires SummariesOk(l, Done(l, primary, overdue).closed, Done(l, primary, overdue).passed, summaries)
    ensures var mine := t in l.txs && l.txs[t].merchant == k.m && l.txs[t].intentId == k.i;
      var again := k.i in overdue && OfTheIntent(l, t, k.i);
      var open := t in l.txs && l.txs[t].status in {TxStatus.Pending, RequiresAction};
      && (t in summaries[k].expired <==> mine && (t in primary || (again && open)))
      && (t in summaries[k].skipped <==> mine && again && (t in primary || !open))
  {
    var w := Done(l, primary, overdue);
    assert Listed(l, w.closed, w.passed, summaries, k);
    assert t in summaries[k].expired <==> t in multiset(summaries[k].expired);
    assert t in summaries[k].skipped <==> t in multiset(summaries[k].skipped);
    if t in l.txs { DoneMembers(l, primary, overdue, t); }
  }

  /** One unpaid intent, past its time, with one open payment past its time. */
  function Overdue(): Ledger
  {
    Ledger(map[0 := NewIntent(0, 1, true, 0, Some(0))],
           map[0 := Tx(0, 0, FakeGateway, Payment, Incoming, TxStatus.Pending, 1, 0, None, Some("a"), None, Some(0))])
  }

  lemma OverdueIsSound()
    ensures LedgerInv(Overdue())
  {
    EmptyInv();
    var l := Ledger(map[], map[]);
    var l1 := Now(l, 0, NewIntent(0, 1, true, 0, Some(0)));
    NewIntentInv(l, 0, 0, 1, true, 0, Some(0));
    UncountedIncomingInv(l1, 0, Overdue().txs[0]);
    assert l1.(txs := l1.txs[0 := Overdue().txs[0]]) == Overdue();
  }

  lemma OverdueIsPicked(primary: set<TxId>, overdue: set<IntentId>)
    ensures Picks(Overdue(), 0, 2, primary, overdue) <==> primary == {0} && overdue == {0}
  {
    assert StaleRows(Overdue(), 0) == {0} && OverdueIntents(Overdue(), 0) == {0};
    OneAtMost(primary);
    OneAtMost(overdue);
  }

  /** A run with room for both can only close the payment in its first pass and pass over it in its second. */
  lemma OverdueIsListedAsBoth(primary: set<TxId>, overdue: set<IntentId>)
    ensures LedgerInv(Overdue())
    ensures Picks(Overdue(), 0, 2, primary, overdue) <==> primary == {0} && overdue == {0}
    ensures Done(Overdue(), {0}, {0}) == Work({0}, {0}, {Key(0, 0)})
  {
    OverdueIsSound();
    OverdueIsPicked(primary, overdue);
    assert RowsAtKeys(Overdue(), KeysAt(Overdue(), {0})) == {0} && OpenRows(Overdue()) == {0};
  }

  lemma OneAtMost(some: set<nat>)
    ensures some <= {0} ==> |some| <= 1
  {
    if some <= {0} { assert some == {} || some == {0}; }
  }

  /** The rows of an expiry run are exactly the rows it changes, and no total moves. */
  lemma RunChangesExactlyItsRows(l: Ledger, rows: set<TxId>, intentIds: set<IntentId>, l': Ledger)
    requires Next(l, ExpiryRun(rows, intentIds), l')
    ensures l'.txs.Keys == l.txs.Keys && l'.intents.Keys == l.intents.Keys
    ensures forall t :: t in l.txs ==> (t in rows <==> l'.txs[t] != l.txs[t])
    ensures forall t :: t in l.txs && l.txs[t].status.Succeeded? ==> l'.txs[t] == l.txs[t]
    ensures forall i :: i in l.intents ==> l'.intents[i].(status := l.intents[i].status) == l.intents[i]
  {
  }

  // ----- repeated runs -----

  /** What is left to do at `now`. */
  function Backlog(l: Ledger, now: Time): nat { |StaleRows(l, now)| + |OverdueIntents(l, now)| }

  lemma BacklogAfter(l: Ledger, now: Time, rows: set<TxId>, intentIds: set<IntentId>)
    ensures StaleRows(Expire(l, rows, intentIds), now) == StaleRows(l, now) - rows
    ensures OverdueIntents(Expire(l, rows, intentIds), now) == OverdueIntents(l, now) - intentIds
  {
  }

  lemma FewerLeft(left: set<nat>, gone: set<nat>)
    ensures |left - gone| <= |left|
    ensures gone * left != {} ==> |left - gone| < |left|
  {
    assert |left - gone| + |left * gone| == |left|;
    assert left * gone == gone * left;
  }

  /** A run never adds to the backlog, and while there is one takes something off it. */
  lemma RunShrinksBacklog(l: Ledger, now: Time, limit: nat, rows: set<TxId>, intentIds: set<IntentId>)
    requires LedgerInv(l) && 0 < limit && Selects(l, now, limit, rows, intentIds)
    ensures Backlog(Expire(l, rows, intentIds), now) <= Backlog(l, now)
    ensures 0 < Backlog(l, now) ==> Backlog(Expire(l, rows, intentIds), now) < Backlog(l, now)
  {
    BacklogAfter(l, now, rows, intentIds);
    FewerLeft(StaleRows(l, now), rows);
    FewerLeft(OverdueIntents(l, now), intentIds);
  }

  /** One run of the worker with some limit of at least one. */
  ghost predicate OneRun(l: Ledger, now: Time, l': Ledger)
  {
    exists limit: nat, rows, intentIds :: 0 < limit && Selects(l, now, limit, rows, intentIds) && l' == Expire(l, rows, intentIds)
  }

  lemma OneRunLeavesLess(l: Ledger, now: Time, l': Ledger)
    requires LedgerInv(l) && OneRun(l, now, l')
    ensures LedgerInv(l')
    ensures Backlog(l', now) <= if 0 < Backlog(l, now) then Backlog(l, now) - 1 else 0
  {
    var limit: nat, rows, intentIds :| 0 < limit && Selects(l, now, limit, rows, intentIds) && l' == Expire(l, rows, intentIds);
    ExpireKeepsInv(l, rows, intentIds);
    RunShrinksBacklog(l, now, limit, rows, intentIds);
  }

  /** Runs at a fixed time, each with its own limit. */
  ghost predicate Runs(states: seq<Ledger>, now: Time)
  {
    && 0 < |states| && LedgerInv(states[0])
    && forall k :: 0 < k < |states| ==> OneRun(states[k - 1], now, states[k])
  }

  /** As many runs as there were stale rows and overdue intents leave neither. */
  lemma {:induction false} RepeatedRunsFinish(states: seq<Ledger>, now: Time, k: nat)
    requires Runs(states, now) && k < |states|
    ensures LedgerInv(states[k])
    ensures Backlog(states[k], now) <= if k <= Backlog(states[0], now) then Backlog(states[0], now) - k else 0
  {
    if 0 < k {
      RepeatedRunsFinish(states, now, k - 1);
      OneRunLeavesLess(states[k - 1], now, states[k]);
    }
  }
}
