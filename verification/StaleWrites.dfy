/**
 * The interleaved layer with the credits of refresh, reprocess and the confirm fallback as
 * programs of their own: they check a payment against the intent they have read, mark the row,
 * write totals computed from what they read, and then the status. Rows and totals part ways,
 * but each intent's columns still make up what is due.
 */
module StaleWrites {
  import opened Domain
  import opened IntentStatusRules
  import opened LedgerSpec
  import opened LedgerInvariant
  import opened CreditPaths
  import opened Interleaving
  import opened Races
  import opened Sums

  /** A credit computed from `read`: checked, the row marked, the totals written. */
  datatype StalePc =
    | Checked(t: TxId, m: MerchantId, i: IntentId, amount: int, read: Intent)
    | Marked(m: MerchantId, i: IntentId, amount: int, read: Intent)
    | Written(m: MerchantId, i: IntentId, amount: int, read: Intent)

  /** `marked` remembers the rows these programs have marked; no program reads it. */
  datatype World = World(s: Sys, stale: map<ActorId, StalePc>, marked: set<TxId>)

  datatype Move =
    | Guarded(x: Action)
    | Read(a: ActorId, t: TxId)
    | Mark(a: ActorId)
    | WriteTotals(a: ActorId)
    | WriteStatus(a: ActorId)
    | Stop(a: ActorId)

  const Start := World(Initial, map[], {})

  ghost predicate Possible(w: World, x: Move)
  {
    match x
    case Guarded(y) => Enabled(w.s, y)
    case Read(a, t) =>
      && a !in w.stale && t in w.s.l.txs && !ReplayTerminal(w.s.l.txs[t].status)
      && HasIntent(w.s.l, w.s.l.txs[t].intentId, w.s.l.txs[t].merchant)
      && w.s.l.txs[t].amount <= w.s.l.intents[w.s.l.txs[t].intentId].remaining
    case Mark(a) => a in w.stale && w.stale[a].Checked?
    case WriteTotals(a) => a in w.stale && w.stale[a].Marked?
    case WriteStatus(a) => a in w.stale && w.stale[a].Written?
    case Stop(a) => a in w.stale
  }

  ghost function After(w: World, x: Move): World
    requires Possible(w, x)
  {
    var l := w.s.l;
    match x
    case Guarded(y) => w.(s := Do(w.s, y))
    case Read(a, t) =>
      var row := l.txs[t];
      w.(stale := w.stale[a := Checked(t, row.merchant, row.intentId, row.amount, l.intents[row.intentId])])
    case Mark(a) =>
      var Checked(t, m, i, amount, read) := w.stale[a];
      if HasTx(l, t, m) && l.txs[t].status.Confirmable() then
        World(w.s.(l := MarkSucceeded(l, t)), w.stale[a := Marked(m, i, amount, read)], w.marked + {t})
      else w.(stale := w.stale - {a})
    case WriteTotals(a) =>
      var Marked(m, i, amount, read) := w.stale[a];
      if HasIntent(l, i, m) then
        var paid := read.paid + amount;
        World(w.s.(l := UpdateTotals(l, i, paid, read.refunded, Max0(read.due - paid))), w.stale[a := Written(m, i, amount, read)], w.marked)
      else w.(stale := w.stale - {a})
    case WriteStatus(a) =>
      var Written(m, i, amount, read) := w.stale[a];
      var l' := if HasIntent(l, i, m) then UpdateIntentStatus(l, i, ComputeIntentStatus(read.due, read.paid + amount)) else l;
      World(w.s.(l := l'), w.stale - {a}, w.marked)
    case Stop(a) => w.(stale := w.stale - {a})
  }

  // ----- what is kept -----

  ghost predicate Shaped(s: Sys)
  {
    && (forall t {:trigger RowShape(s.l, s.l.txs[t])} :: t in s.l.txs ==> RowShape(s.l, s.l.txs[t]))
    && (forall i :: i in s.l.intents ==> Conserved(s.l.intents[i]))
    && ProgramsInv(s)
  }

  predicate StaleOk(l: Ledger, pc: StalePc)
  {
    && HasIntent(l, pc.i, pc.m) && pc.read.due == l.intents[pc.i].due
    && Conserved(pc.read) && 0 < pc.amount <= pc.read.remaining
    && (pc.Checked? ==> Owns(l, pc.t, pc.m, pc.i, pc.amount))
  }

  /** Rows and intents stay, with their terms; a closed row stays closed. */
  ghost predicate Lasts(l: Ledger, l': Ledger)
  {
    && Keeps(l, l')
    && (forall i :: i in l.intents ==> l'.intents[i].due == l.intents[i].due)
    && (forall t :: t in l.txs && !l.txs[t].status.Confirmable() ==> !l'.txs[t].status.Confirmable())
  }

  /** A step on one row, which exists or is new, and on its intent's columns. */
  lemma RowMove(s: Sys, s': Sys, t: TxId, r: Tx, it: Intent)
    requires Shaped(s) && RowShape(s.l, r)
    requires s'.l == Now(s.l.(txs := s.l.txs[t := r]), r.intentId, it)
    requires t in s.l.txs ==> SameTerms(s.l.txs[t], r) && (!s.l.txs[t].status.Confirmable() ==> !r.status.Confirmable())
    requires Conserved(it) && it.merchant == s.l.intents[r.intentId].merchant && it.due == s.l.intents[r.intentId].due
    requires forall a :: a in s'.actors ==> (a in s.actors && s'.actors[a] == s.actors[a]) || PcInv(s'.l, s'.actors[a])
    requires forall u :: u in s'.calls ==>
      || (u in s.calls && s'.calls[u] == s.calls[u])
      || (u == t && Owns(s'.l, t, s'.calls[t].m, s'.calls[t].i, s'.calls[t].amount) && r.direction.Outgoing?)
    requires s'.credited <= s.credited + {t} && s'.applied <= s.applied + {t}
    ensures Shaped(s') && Lasts(s.l, s'.l)
  {
    forall u | u in s'.l.txs
      ensures RowShape(s'.l, s'.l.txs[u])
    {
      if u != t { assert RowShape(s.l, s.l.txs[u]); }
    }
    ProgramsKept(s, s');
  }

  /** A step on no row: a program moves, an intent is new, or an intent's columns change. */
  lemma IntentMove(s: Sys, s': Sys)
    requires Shaped(s) && s'.l.txs == s.l.txs && s'.credited <= s.credited && s'.applied <= s.applied
    requires forall i :: i in s'.l.intents ==> Conserved(s'.l.intents[i])
    requires forall i :: i in s.l.intents ==>
      i in s'.l.intents && s'.l.intents[i].merchant == s.l.intents[i].merchant && s'.l.intents[i].due == s.l.intents[i].due
    requires forall a :: a in s'.actors ==> (a in s.actors && s'.actors[a] == s.actors[a]) || PcInv(s'.l, s'.actors[a])
    requires forall u :: u in s'.calls ==> u in s.calls && s'.calls[u] == s.calls[u]
    ensures Shaped(s') && Lasts(s.l, s'.l)
  {
    forall u | u in s'.l.txs
      ensures RowShape(s'.l, s'.l.txs[u])
    {
      assert RowShape(s.l, s.l.txs[u]);
    }
    ProgramsKept(s, s');
  }

  lemma InsertMove(s: Sys, x: Action)
    requires Shaped(s) && Enabled(s, x) && (x.InsertPayment? || x.InsertRefund?)
    ensures Shaped(Do(s, x)) && Lasts(s.l, Do(s, x).l)
  {
    var s', row := Do(s, x), s.actors[x.a].row;
    assert PcInv(s.l, s.actors[x.a]);
    if IndexesAdmit(s.l, x.t, row) {
      assert s'.l == Now(s.l.(txs := s.l.txs[x.t := row]), row.intentId, s.l.intents[row.intentId]);
      RowMove(s, s', x.t, row, s.l.intents[row.intentId]);
    } else {
      IntentMove(s, s');
    }
  }

  lemma CreditMove(s: Sys, x: Action)
    requires Shaped(s) && Enabled(s, x) && x.DoCredit?
    ensures Shaped(Do(s, x)) && Lasts(s.l, Do(s, x).l)
    ensures var t := s.actors[x.a].t;
      && t in s.l.txs
      && (Do(s, x).credited == s.credited
          || (Do(s, x).credited == s.credited + {t} && s.l.txs[t].status.Confirmable() && Do(s, x).l.txs[t].status.Succeeded?))
  {
    var s', pc := Do(s, x), s.actors[x.a];
    assert PcInv(s.l, pc) && RowShape(s.l, s.l.txs[pc.t]);
    if s'.l == s.l {
      IntentMove(s, s');
    } else {
      RowMove(s, s', pc.t, s'.l.txs[pc.t], s'.l.intents[pc.i]);
    }
  }

  lemma WriteMove(s: Sys, x: Action)
    requires Shaped(s) && Enabled(s, x) && x.DoWrite?
    ensures Shaped(Do(s, x)) && Lasts(s.l, Do(s, x).l)
  {
    var s', pc := Do(s, x), s.actors[x.a];
    assert PcInv(s.l, pc) && RowShape(s.l, s.l.txs[pc.t]);
    if s'.l == s.l {
      IntentMove(s, s');
    } else {
      var it := s.l.intents[s.l.txs[pc.t].intentId];
      assert s'.l == Now(s'.l, s.l.txs[pc.t].intentId, it);
      RowMove(s, s', pc.t, s'.l.txs[pc.t], it);
    }
  }

  lemma RejectionMove(s: Sys, x: Action)
    requires Shaped(s) && Enabled(s, x) && x.SettleRefund? && s.calls[x.t].adapter.Rejects?
    ensures Shaped(Do(s, x)) && Lasts(s.l, Do(s, x).l)
  {
    var s', t, i := Do(s, x), x.t, s.calls[x.t].i;
    assert RowShape(s.l, s.l.txs[t]);
    assert s'.l == Now(s'.l, i, s.l.intents[i]);
    RowMove(s, s', t, s'.l.txs[t], s.l.intents[i]);
  }

  lemma SettleMove(s: Sys, x: Action)
    requires Shaped(s) && Enabled(s, x) && x.SettleRefund?
    ensures Shaped(Do(s, x)) && Lasts(s.l, Do(s, x).l)
  {
    var s', t, i := Do(s, x), x.t, s.calls[x.t].i;
    assert RowShape(s.l, s.l.txs[t]);
    if s.calls[t].adapter.Rejects? {
      RejectionMove(s, x);
    } else if s'.l == s.l {
      IntentMove(s, s');
    } else {
      RowMove(s, s', t, s'.l.txs[t], s'.l.intents[i]);
    }
  }

  /** Every step of the guarded programs keeps the shape, whatever the totals stand for. */
  lemma GuardedMove(s: Sys, x: Action)
    requires Shaped(s) && Enabled(s, x)
    ensures Shaped(Do(s, x)) && Lasts(s.l, Do(s, x).l)
    ensures !x.DoCredit? ==> Do(s, x).credited == s.credited
  {
    match x
    case InsertPayment(_, _) => InsertMove(s, x);
    case InsertRefund(_, _) => InsertMove(s, x);
    case DoCredit(_) => CreditMove(s, x);
    case DoWrite(_) => WriteMove(s, x);
    case SettleRefund(_) => SettleMove(s, x);
    case CreateIntent(_, _, _, _, _, _) => IntentMove(s, Do(s, x));
    case DoExpire(_) => IntentMove(s, Do(s, x));
    case _ => ProgramMove(s, x);
  }

  lemma ProgramMove(s: Sys, x: Action)
    requires Shaped(s) && Enabled(s, x)
    requires x.BeginCreate? || x.BeginCredit? || x.BeginWrite? || x.BeginExpire? || x.BeginRefund? || x.Die? || x.DieInRefund?
    ensures Shaped(Do(s, x)) && Lasts(s.l, Do(s, x).l) && Do(s, x).credited == s.credited
  {
    if x.BeginRefund? { assert RowShape(s.l, s.l.txs[x.request.source]); }
    IntentMove(s, Do(s, x));
  }

  // ----- the whole state -----

  ghost predicate Kept(w: World)
  {
    && Shaped(w.s)
    && (forall a :: a in w.stale ==> StaleOk(w.s.l, w.stale[a]))
    && (forall t :: t in w.s.credited || t in w.marked ==> t in w.s.l.txs && !w.s.l.txs[t].status.Confirmable())
    && w.s.credited !! w.marked
  }

  lemma StaleLasts(l: Ledger, l': Ledger, pc: StalePc)
    requires StaleOk(l, pc) && Lasts(l, l')
    ensures StaleOk(l', pc)
  {
  }

  lemma GuardedKeeps(w: World, y: Action)
    requires Kept(w) && Enabled(w.s, y)
    ensures Kept(After(w, Guarded(y))) && Lasts(w.s.l, Do(w.s, y).l)
  {
    var w' := After(w, Guarded(y));
    GuardedMove(w.s, y);
    if y.DoCredit? { CreditMove(w.s, y); }
    forall a | a in w'.stale
      ensures StaleOk(w'.s.l, w'.stale[a])
    {
      StaleLasts(w.s.l, w'.s.l, w.stale[a]);
    }
  }

  lemma ReadKeeps(w: World, x: Move)
    requires Kept(w) && Possible(w, x) && (x.Read? || x.Stop?)
    ensures Kept(After(w, x))
  {
    if x.Read? { assert RowShape(w.s.l, w.s.l.txs[x.t]); }
  }

  lemma MarkKeeps(w: World, x: Move)
    requires Kept(w) && Possible(w, x) && x.Mark?
    ensures Kept(After(w, x)) && Lasts(w.s.l, After(w, x).s.l)
  {
    var w', t := After(w, x), w.stale[x.a].t;
    assert StaleOk(w.s.l, w.stale[x.a]) && RowShape(w.s.l, w.s.l.txs[t]);
    if w'.s != w.s {
      var it := w.s.l.intents[w.s.l.txs[t].intentId];
      assert w'.s.l == Now(w'.s.l, w.s.l.txs[t].intentId, it);
      RowMove(w.s, w'.s, t, w'.s.l.txs[t], it);
      forall a | a in w'.stale
        ensures StaleOk(w'.s.l, w'.stale[a])
      {
        StaleLasts(w.s.l, w'.s.l, w.stale[a]);
      }
    }
  }

  /** A triple computed from a conserved read that had room is conserved, and so is the status that goes with it. */
  lemma WriteKeeps(w: World, x: Move)
    requires Kept(w) && Possible(w, x) && (x.WriteTotals? || x.WriteStatus?)
    ensures Kept(After(w, x)) && Lasts(w.s.l, After(w, x).s.l)
  {
    var w' := After(w, x);
    assert StaleOk(w.s.l, w.stale[x.a]);
    IntentMove(w.s, w'.s);
    forall a | a in w'.stale
      ensures StaleOk(w'.s.l, w'.stale[a])
    {
      StaleLasts(w.s.l, w'.s.l, w.stale[a]);
    }
  }

  lemma MoveKeeps(w: World, x: Move)
    requires Kept(w) && Possible(w, x)
    ensures Kept(After(w, x)) && Lasts(w.s.l, After(w, x).s.l)
  {
    match x
    case Guarded(y) => GuardedKeeps(w, y);
    case Mark(_) => MarkKeeps(w, x);
    case WriteTotals(_) => WriteKeeps(w, x);
    case WriteStatus(_) => WriteKeeps(w, x);
    case _ => ReadKeeps(w, x);
  }

  // ----- theorems over runs -----

  ghost predicate Runs(worlds: seq<World>, moves: seq<Move>)
  {
    && |worlds| == |moves| + 1 && worlds[0] == Start
    && forall k :: 0 <= k < |moves| ==> Possible(worlds[k], moves[k]) && worlds[k + 1] == After(worlds[k], moves[k])
  }

  lemma {:induction false} RunsKeep(worlds: seq<World>, moves: seq<Move>, k: nat)
    requires Runs(worlds, moves) && k < |worlds|
    ensures Kept(worlds[k])
  {
    if 0 < k {
      RunsKeep(worlds, moves, k - 1);
      MoveKeeps(worlds[k - 1], moves[k - 1]);
    }
  }

  /**
   * Even with stale writes in every interleaving, each intent's columns make up what is due,
   * refunds stay within what is written as paid, every column lies between zero and the amount
   * due, and no intent is overpaid.
   */
  lemma ColumnsStayConserved(worlds: seq<World>, moves: seq<Move>, k: nat, i: IntentId)
    requires Runs(worlds, moves) && k < |worlds| && i in worlds[k].s.l.intents
    ensures var it := worlds[k].s.l.intents[i];
      && it.paid + it.remaining == it.due && 0 <= it.refunded <= it.paid <= it.due && 0 <= it.remaining <= it.due
      && !it.status.Overpaid?
  {
    RunsKeep(worlds, moves, k);
  }

  /** The move takes row `t` for paid: a guarded credit, or a mark. */
  ghost predicate Takes(w: World, x: Move, t: TxId)
    requires Possible(w, x)
  {
    || (x.Guarded? && x.x.DoCredit? && CreditsRow(w.s, x.x, t))
    || (x.Mark? && w.stale[x.a].t == t && HasTx(w.s.l, t, w.stale[x.a].m) && w.s.l.txs[t].status.Confirmable())
  }

  function Taken(w: World): set<TxId> { w.s.credited + w.marked }

  lemma MoveTakes(w: World, x: Move, t: TxId)
    requires Kept(w) && Possible(w, x)
    ensures Taken(w) <= Taken(After(w, x))
    ensures Takes(w, x, t) ==> t !in Taken(w) && t in Taken(After(w, x))
  {
    if x.Guarded? {
      GuardedMove(w.s, x.x);
      if x.x.DoCredit? { CreditMove(w.s, x.x); }
    }
  }

  lemma {:induction false} Climbs(sets: seq<set<TxId>>, j: nat, k: nat)
    requires j <= k < |sets| && forall n :: 0 < n < |sets| ==> sets[n - 1] <= sets[n]
    ensures sets[j] <= sets[k]
    decreases k
  {
    if j < k { Climbs(sets, j, k - 1); }
  }

  lemma TakenGrows(worlds: seq<World>, moves: seq<Move>, j: nat, k: nat)
    requires Runs(worlds, moves) && j <= k < |worlds|
    ensures Taken(worlds[j]) <= Taken(worlds[k])
  {
    var sets := seq(|worlds|, n requires 0 <= n < |worlds| => Taken(worlds[n]));
    forall n | 0 < n < |sets|
      ensures sets[n - 1] <= sets[n]
    {
      OneMoveTakes(worlds, moves, n - 1);
    }
    Climbs(sets, j, k);
  }

  lemma OneMoveTakes(worlds: seq<World>, moves: seq<Move>, k: nat)
    requires Runs(worlds, moves) && k < |moves|
    ensures Taken(worlds[k]) <= Taken(worlds[k + 1])
  {
    RunsKeep(worlds, moves, k);
    MoveTakes(worlds[k], moves[k], 0);
  }

  /** Between guarded credits and stale ones, no row is taken for paid twice. */
  lemma TakenAtMostOnce(worlds: seq<World>, moves: seq<Move>, j: nat, k: nat, t: TxId)
    requires Runs(worlds, moves) && j <= k < |moves|
    requires Takes(worlds[j], moves[j], t) && Takes(worlds[k], moves[k], t)
    ensures j == k
  {
    if j < k {
      RunsKeep(worlds, moves, j);
      RunsKeep(worlds, moves, k);
      MoveTakes(worlds[j], moves[j], t);
      MoveTakes(worlds[k], moves[k], t);
      TakenGrows(worlds, moves, j + 1, k);
    }
  }
}
