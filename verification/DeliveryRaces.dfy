/**
 * Any number of workers over the delivery table. A worker may be slow, so that its write lands
 * after the row has moved on, or crash; replays requeue a row from any status. The marks are
 * unconditional, and still the attempts on a row stay bounded.
 */
module DeliveryRaces {
  import opened DeliveryQueue

  type WorkerId = nat

  /** A claimed row in a worker's hands, as it was right after the claim. */
  datatype Holding = Holding(d: DeliveryId, taken: Delivery)

  /** `replays` counts the replays of a row and `failed` the attempts marked failed; no worker reads them. */
  datatype Sys = Sys(rows: map<DeliveryId, Delivery>, workers: map<WorkerId, Holding>,
                     replays: map<DeliveryId, nat>, failed: map<DeliveryId, set<nat>>)

  const Initial := Sys(map[], map[], map[], map[])

  datatype Action =
    | Create(d: DeliveryId, row: Delivery)
    | Take(w: WorkerId, d: DeliveryId, now: Time)
    | Finish(w: WorkerId, answer: Answer, now: Time)
    | Crash(w: WorkerId)
    | Replay(d: DeliveryId, now: Time)

  predicate Enabled(s: Sys, x: Action)
  {
    match x
    case Create(d, row) => d !in s.rows && d !in s.replays && d !in s.failed && row.status.Queued? && row.attemptCount == 0
    case Take(w, d, now) => w !in s.workers && d in s.rows && s.rows[d].Due(now)
    case Finish(w, answer, now) => w in s.workers && s.workers[w].d in s.rows && s.workers[w].d in s.failed
    case Crash(w) => w in s.workers
    case Replay(d, now) => d in s.rows && d in s.replays
  }

  function Do(s: Sys, x: Action): Sys
    requires Enabled(s, x)
  {
    match x
    case Create(d, row) => s.(rows := s.rows[d := row], replays := s.replays[d := 0], failed := s.failed[d := {}])
    case Take(w, d, now) =>
      var row := Claimed(s.rows[d]);
      s.(rows := s.rows[d := row], workers := s.workers[w := Holding(d, row)])
    case Finish(w, answer, now) =>
      var Holding(d, taken) := s.workers[w];
      var row := Finished(s.rows[d], taken, answer, now);
      s.(rows := s.rows[d := row], workers := s.workers - {w},
         failed := if row.status.Failed? then s.failed[d := s.failed[d] + {taken.attemptCount}] else s.failed)
    case Crash(w) => s.(workers := s.workers - {w})
    case Replay(d, now) => s.(rows := s.rows[d := Requeued(s.rows[d], now)], replays := s.replays[d := s.replays[d] + 1])
  }

  // ----- the invariant -----

  /** Whoever may claim the row next is paid for by its creation, a replay, or a failed attempt of its own. */
  predicate RowOk(s: Sys, d: DeliveryId)
    requires d in s.rows && d in s.replays && d in s.failed
  {
    && s.rows[d].attemptCount + (if s.rows[d].Claimable() then 1 else 0) <= 1 + s.replays[d] + |s.failed[d]|
    && forall n :: n in s.failed[d] ==> 1 <= n < s.rows[d].maxAttempts && n <= s.rows[d].attemptCount
  }

  predicate HoldingOk(s: Sys, w: WorkerId)
    requires w in s.workers
  {
    var Holding(d, taken) := s.workers[w];
    && d in s.rows && d in s.replays && d in s.failed
    && 1 <= taken.attemptCount <= s.rows[d].attemptCount && taken.maxAttempts == s.rows[d].maxAttempts
    && taken.attemptCount !in s.failed[d]
    && (s.replays[d] == 0 ==> s.rows[d].status.Delivering? && taken.attemptCount == s.rows[d].attemptCount)
  }

  ghost predicate Inv(s: Sys)
  {
    && s.replays.Keys == s.rows.Keys && s.failed.Keys == s.rows.Keys
    && (forall d :: d in s.rows ==> RowOk(s, d))
    && (forall w :: w in s.workers ==> HoldingOk(s, w))
    && (forall v, w :: v in s.workers && w in s.workers && v != w ==> Apart(s.workers[v], s.workers[w]))
  }

  /** Two claims of one row carry different counts. */
  predicate Apart(g: Holding, h: Holding) { g.d == h.d ==> g.taken.attemptCount != h.taken.attemptCount }

  lemma TakeKeepsInv(s: Sys, x: Action)
    requires Inv(s) && Enabled(s, x) && x.Take?
    ensures Inv(Do(s, x))
  {
    var s' := Do(s, x);
    assert RowOk(s, x.d);
    forall d | d in s'.rows
      ensures RowOk(s', d)
    {
      assert RowOk(s, d);
    }
    forall w | w in s'.workers
      ensures HoldingOk(s', w)
      ensures w != x.w ==> Apart(s'.workers[w], s'.workers[x.w]) && Apart(s'.workers[x.w], s'.workers[w])
    {
      if w != x.w { assert HoldingOk(s, w); }
    }
  }

  lemma FinishKeepsRow(s: Sys, x: Action, d: DeliveryId)
    requires Inv(s) && Enabled(s, x) && x.Finish? && d in s.rows
    ensures RowOk(Do(s, x), d)
  {
    assert RowOk(s, d) && HoldingOk(s, x.w);
  }

  lemma FinishKeepsHolding(s: Sys, x: Action, w: WorkerId)
    requires Inv(s) && Enabled(s, x) && x.Finish? && w in Do(s, x).workers
    ensures HoldingOk(Do(s, x), w)
  {
    assert HoldingOk(s, w) && Apart(s.workers[w], s.workers[x.w]);
    assert HoldingOk(s, x.w);
  }

  lemma FinishKeepsInv(s: Sys, x: Action)
    requires Inv(s) && Enabled(s, x) && x.Finish?
    ensures Inv(Do(s, x))
  {
    forall d | d in Do(s, x).rows
      ensures RowOk(Do(s, x), d)
    {
      FinishKeepsRow(s, x, d);
    }
    forall w | w in Do(s, x).workers
      ensures HoldingOk(Do(s, x), w)
    {
      FinishKeepsHolding(s, x, w);
    }
  }

  lemma OtherStepsKeepInv(s: Sys, x: Action)
    requires Inv(s) && Enabled(s, x) && !x.Take? && !x.Finish?
    ensures Inv(Do(s, x))
  {
    var s' := Do(s, x);
    forall d | d in s'.rows
      ensures RowOk(s', d)
    {
      if d in s.rows { assert RowOk(s, d); }
    }
    forall w | w in s'.workers
      ensures HoldingOk(s', w)
    {
      assert HoldingOk(s, w);
    }
  }

  lemma StepKeepsInv(s: Sys, x: Action)
    requires Inv(s) && Enabled(s, x)
    ensures Inv(Do(s, x))
  {
    match x
    case Take(_, _, _) => TakeKeepsInv(s, x);
    case Finish(_, _, _) => FinishKeepsInv(s, x);
    case _ => OtherStepsKeepInv(s, x);
  }

  // ----- theorems over runs -----

  ghost predicate IsRun(states: seq<Sys>, actions: seq<Action>)
  {
    && |states| == |actions| + 1 && states[0] == Initial
    && forall k :: 0 <= k < |actions| ==> Enabled(states[k], actions[k]) && states[k + 1] == Do(states[k], actions[k])
  }

  lemma {:induction false} RunKeepsInv(states: seq<Sys>, actions: seq<Action>, k: nat)
    requires IsRun(states, actions) && k < |states|
    ensures Inv(states[k])
  {
    if 0 < k {
      RunKeepsInv(states, actions, k - 1);
      StepKeepsInv(states[k - 1], actions[k - 1]);
    }
  }

  function Limit(row: Delivery): nat { if 1 < row.maxAttempts then row.maxAttempts else 1 }

  lemma {:induction false} FewBelow(some: set<nat>, limit: nat)
    requires forall n :: n in some ==> 1 <= n <= limit
    ensures |some| <= limit
  {
    if limit == 0 {
      assert some == {};
    } else {
      FewBelow(some - {limit}, limit - 1);
    }
  }

  /**
   * However slow, stale or crashed the workers, a delivery is attempted at most as often as
   * its limit allows, and once more for each time it is replayed.
   */
  lemma AttemptsAreBounded(states: seq<Sys>, actions: seq<Action>, k: nat, d: DeliveryId)
    requires IsRun(states, actions) && k < |states| && d in states[k].rows && d in states[k].replays
    ensures states[k].rows[d].attemptCount <= Limit(states[k].rows[d]) + states[k].replays[d]
  {
    RunKeepsInv(states, actions, k);
    assert RowOk(states[k], d);
    FewBelow(states[k].failed[d], Limit(states[k].rows[d]) - 1);
  }

  /** As long as a delivery has not been replayed, one worker at most holds it, and its copy is up to date. */
  lemma OneHolder(states: seq<Sys>, actions: seq<Action>, k: nat, v: WorkerId, w: WorkerId)
    requires IsRun(states, actions) && k < |states| && v in states[k].workers && w in states[k].workers
    requires states[k].workers[v].d == states[k].workers[w].d
    requires states[k].workers[v].d in states[k].replays && states[k].replays[states[k].workers[v].d] == 0
    ensures v == w
    ensures states[k].workers[v].d in states[k].rows
    ensures states[k].rows[states[k].workers[v].d].attemptCount == states[k].workers[v].taken.attemptCount
  {
    RunKeepsInv(states, actions, k);
    assert HoldingOk(states[k], v) && HoldingOk(states[k], w);
    assert v != w ==> Apart(states[k].workers[v], states[k].workers[w]);
  }

  // ----- termination -----

  function Holders(s: Sys, d: DeliveryId): set<WorkerId> { set w | w in s.workers && s.workers[w].d == d }

  /** What is still to come: two steps for each attempt left, one for each attempt under way. */
  function Measure(s: Sys, d: DeliveryId): int
    requires d in s.rows && d in s.replays
  {
    2 * (Limit(s.rows[d]) + s.replays[d] - s.rows[d].attemptCount) + |Holders(s, d)|
  }

  /** The step works on delivery `d`. */
  predicate Touches(s: Sys, x: Action, d: DeliveryId)
    requires Enabled(s, x)
  {
    match x
    case Create(e, _) => e == d
    case Take(_, e, _) => e == d
    case Finish(w, _, _) => s.workers[w].d == d
    case Crash(w) => s.workers[w].d == d
    case Replay(e, _) => e == d
  }

  lemma HoldersAfter(s: Sys, x: Action, d: DeliveryId)
    requires Enabled(s, x)
    ensures Holders(Do(s, x), d) ==
      if x.Take? && x.d == d then Holders(s, d) + {x.w}
      else if x.Finish? || x.Crash? then Holders(s, d) - {x.w} else Holders(s, d)
  {
  }

  lemma CountsAfter(s: Sys, x: Action, d: DeliveryId)
    requires Inv(s) && Enabled(s, x) && d in s.rows
    ensures d in Do(s, x).rows && d in Do(s, x).replays && Limit(Do(s, x).rows[d]) == Limit(s.rows[d])
    ensures Do(s, x).rows[d].attemptCount == s.rows[d].attemptCount + (if x.Take? && x.d == d then 1 else 0)
    ensures Do(s, x).replays[d] == s.replays[d] + (if x.Replay? && x.d == d then 1 else 0)
  {
  }

  /** From `s` to `s'`, `n` of what was to come has been done, and each replay has added two. */
  predicate UsesUp(s: Sys, s': Sys, d: DeliveryId, n: nat)
  {
    && d in s.rows && d in s.replays && d in s'.rows && d in s'.replays && s.replays[d] <= s'.replays[d]
    && Measure(s', d) + n + 2 * s.replays[d] == Measure(s, d) + 2 * s'.replays[d]
  }

  predicate Works(s: Sys, x: Action, d: DeliveryId)
    requires Enabled(s, x)
  {
    Touches(s, x, d) && !x.Replay?
  }

  /** A claim adds a holder, a mark or crash takes one away. */
  lemma HolderCount(s: Sys, x: Action, d: DeliveryId)
    requires Enabled(s, x)
    ensures |Holders(Do(s, x), d)| == |Holders(s, d)|
      + (if x.Take? && x.d == d then 1 else if (x.Finish? || x.Crash?) && s.workers[x.w].d == d then -1 else 0)
  {
    HoldersAfter(s, x, d);
    if x.Take? && x.d == d {
      assert x.w !in Holders(s, d);
    } else if (x.Finish? || x.Crash?) && s.workers[x.w].d == d {
      assert x.w in Holders(s, d);
    } else if x.Finish? || x.Crash? {
      assert Holders(s, d) - {x.w} == Holders(s, d);
    }
  }

  /** Every claim, mark or crash on a delivery uses the measure up; nothing else but a replay moves it. */
  lemma StepUsesMeasure(s: Sys, x: Action, d: DeliveryId)
    requires Inv(s) && Enabled(s, x) && d in s.rows
    ensures UsesUp(s, Do(s, x), d, if Works(s, x, d) then 1 else 0)
  {
    HolderCount(s, x, d);
    CountsAfter(s, x, d);
  }

  /** How many of the steps from `j` to `k` work on `d`, replays apart. */
  function Steps(states: seq<Sys>, actions: seq<Action>, d: DeliveryId, j: nat, k: nat): nat
    requires |states| == |actions| + 1 && j <= k <= |actions|
    requires forall n :: 0 <= n < |actions| ==> Enabled(states[n], actions[n])
    decreases k
  {
    if j == k then 0
    else Steps(states, actions, d, j, k - 1) + (if Works(states[k - 1], actions[k - 1], d) then 1 else 0)
  }

  lemma UsesUpAdds(a: Sys, b: Sys, c: Sys, d: DeliveryId, m: nat, n: nat)
    requires UsesUp(a, b, d, m) && UsesUp(b, c, d, n)
    ensures UsesUp(a, c, d, m + n)
  {
  }

  lemma {:induction false} StepsUseMeasure(states: seq<Sys>, actions: seq<Action>, d: DeliveryId, j: nat, k: nat)
    requires IsRun(states, actions) && j <= k <= |actions| && d in states[j].rows && d in states[j].replays
    ensures UsesUp(states[j], states[k], d, Steps(states, actions, d, j, k))
    decreases k
  {
    if j < k {
      StepsUseMeasure(states, actions, d, j, k - 1);
      RunKeepsInv(states, actions, k - 1);
      StepUsesMeasure(states[k - 1], actions[k - 1], d);
      UsesUpAdds(states[j], states[k - 1], states[k], d, Steps(states, actions, d, j, k - 1),
                 if Works(states[k - 1], actions[k - 1], d) then 1 else 0);
    }
  }

  /** Every run does finitely much on a delivery: two steps for each attempt it may still make, and two for each replay. */
  lemma DeliveryTerminates(states: seq<Sys>, actions: seq<Action>, d: DeliveryId, j: nat, k: nat)
    requires IsRun(states, actions) && j <= k <= |actions| && d in states[j].rows && d in states[j].replays && d in states[k].replays
    ensures Steps(states, actions, d, j, k) + 2 * states[j].replays[d] <= Measure(states[j], d) + 2 * states[k].replays[d]
  {
    StepsUseMeasure(states, actions, d, j, k);
    AttemptsAreBounded(states, actions, k, d);
  }

  // ----- closed deliveries -----

  predicate Closed(d: Delivery) { d.status.Succeeded? || d.status.Dead? }

  /** A replay, or the failure of a worker whose own copy was below the limit. */
  predicate Reopens(s: Sys, x: Action, d: DeliveryId)
    requires Enabled(s, x)
  {
    || (x.Replay? && x.d == d)
    || (x.Finish? && s.workers[x.w].d == d && !x.answer.Delivered()
        && s.workers[x.w].taken.attemptCount < s.workers[x.w].taken.maxAttempts)
  }

  /**
   * In every reachable state, a succeeded or dead delivery becomes claimable again exactly by
   * these two steps; and the second is possible only once the delivery has been replayed.
   */
  lemma ReopenedExactly(s: Sys, x: Action, d: DeliveryId)
    requires Inv(s) && Enabled(s, x) && d in s.rows && Closed(s.rows[d])
    ensures d in Do(s, x).rows && (Do(s, x).rows[d].Claimable() <==> Reopens(s, x, d))
    ensures Reopens(s, x, d) && x.Finish? ==> 0 < s.replays[d]
  {
    if x.Finish? { assert HoldingOk(s, x.w); }
  }

  lemma StepKeepsClosed(s: Sys, x: Action, d: DeliveryId)
    requires Inv(s) && Enabled(s, x) && d in s.rows && Closed(s.rows[d]) && Do(s, x).replays[d] == 0
    ensures Do(s, x).rows[d] == s.rows[d] && s.replays[d] == 0
  {
    CountsAfter(s, x, d);
    if x.Finish? { assert HoldingOk(s, x.w); }
  }

  /** Over every run, a delivery that has never been replayed stays succeeded, or dead, for good. */
  lemma {:induction false} ClosedForGoodUnlessReplayed(states: seq<Sys>, actions: seq<Action>, d: DeliveryId, j: nat, k: nat)
    requires IsRun(states, actions) && j <= k <= |actions| && d in states[j].rows && Closed(states[j].rows[d])
    requires d in states[k].replays && states[k].replays[d] == 0
    ensures d in states[k].rows && states[k].rows[d] == states[j].rows[d]
    decreases k
  {
    if j < k {
      RunKeepsInv(states, actions, j);
      RunKeepsInv(states, actions, k - 1);
      StepsUseMeasure(states, actions, d, j, k - 1);
      CountsAfter(states[k - 1], actions[k - 1], d);
      ClosedForGoodUnlessReplayed(states, actions, d, j, k - 1);
      StepKeepsClosed(states[k - 1], actions[k - 1], d);
    }
  }

  // ----- what a failed attempt leads to -----

  /**
   * In every reachable state, and from however stale a worker: an attempt that leaves the
   * delivery failed makes it wait as long as the worker's count says, a minute after the first
   * attempt and an hour from the fourth on. A claim counts before the attempt, so the immediate
   * first entry of the backoff table is never used.
   */
  lemma FailuresWait(states: seq<Sys>, actions: seq<Action>, k: nat)
    requires IsRun(states, actions) && k < |actions| && actions[k].Finish?
    ensures var d, now := states[k].workers[actions[k].w].d, actions[k].now;
      && d in states[k + 1].rows
      && (states[k + 1].rows[d].status.Failed? ==>
            var n := states[k].workers[actions[k].w].taken.attemptCount;
            && 1 <= n && states[k + 1].rows[d].nextAttemptAt == now + WaitAfter(n)
            && 60_000 <= WaitAfter(n) <= 3_600_000)
  {
    RunKeepsInv(states, actions, k);
    assert HoldingOk(states[k], actions[k].w);
  }

  /**
   * Over every run, a delivery that has not been replayed is given up exactly by an undelivered
   * attempt made when its stored count has reached the limit: never before, and never retried after.
   */
  lemma GivenUpExactly(states: seq<Sys>, actions: seq<Action>, k: nat, d: DeliveryId)
    requires IsRun(states, actions) && k < |actions| && d in states[k].rows && !states[k].rows[d].status.Dead?
    requires d in states[k].replays && states[k].replays[d] == 0
    ensures d in states[k + 1].rows
    ensures states[k + 1].rows[d].status.Dead? <==>
      && actions[k].Finish? && states[k].workers[actions[k].w].d == d && !actions[k].answer.Delivered()
      && states[k].rows[d].maxAttempts <= states[k].rows[d].attemptCount
  {
    RunKeepsInv(states, actions, k);
    CountsAfter(states[k], actions[k], d);
    if actions[k].Finish? { assert HoldingOk(states[k], actions[k].w); }
  }

  const Fresh := Delivery(0, 0, Queued, 0, 2, 0, 0)

  /** One worker is slow; the delivery is replayed, and a second worker delivers it. */
  function SlowWorker(): (seq<Sys>, seq<Action>)
  {
    var first, second := Fresh.(status := Delivering, attemptCount := 1), Fresh.(status := Delivering, attemptCount := 2);
    var held, both := map[0 := Holding(0, first)], map[0 := Holding(0, first), 1 := Holding(0, second)];
    var never, once := map[0 := 0], map[0 := 1];
    ([Initial,
      Sys(map[0 := Fresh], map[], never, map[0 := {}]),
      Sys(map[0 := first], held, never, map[0 := {}]),
      Sys(map[0 := first.(status := Queued)], held, once, map[0 := {}]),
      Sys(map[0 := second], both, once, map[0 := {}]),
      Sys(map[0 := second.(status := Succeeded)], held, once, map[0 := {}]),
      Sys(map[0 := second.(status := Failed, nextAttemptAt := 60_000)], map[], once, map[0 := {1}])],
     [Create(0, Fresh), Take(0, 0, 0), Replay(0, 0), Take(1, 0, 0), Finish(1, Responded(200), 0), Finish(0, Threw, 0)])
  }

  /** Then the first worker's failure arrives: the delivered webhook is due again a minute later. */
  lemma StaleFailureReopens()
    ensures var (states, actions) := SlowWorker();
      && IsRun(states, actions)
      && states[5].rows[0].status.Succeeded? && states[6].rows[0].Due(60_000) && states[6].replays[0] == 1
  {
    var (states, actions) := SlowWorker();
    SlowWorkerStarts();
    SlowWorkerEnds();
    forall k | 0 <= k < |actions|
      ensures Enabled(states[k], actions[k]) && states[k + 1] == Do(states[k], actions[k])
    {
      assert k == 0 || k == 1 || k == 2 || k == 3 || k == 4 || k == 5;
    }
  }

  lemma SlowWorkerStarts()
    ensures var (states, actions) := SlowWorker();
      forall k {:trigger actions[k]} :: 0 <= k < 3 ==> Enabled(states[k], actions[k]) && states[k + 1] == Do(states[k], actions[k])
  {
  }

  lemma SlowWorkerEnds()
    ensures var (states, actions) := SlowWorker();
      forall k {:trigger actions[k]} :: 3 <= k < 6 ==> Enabled(states[k], actions[k]) && states[k + 1] == Do(states[k], actions[k])
  {
    var (states, actions) := SlowWorker();
    assert Do(states[3], actions[3]) == states[4];
    assert Do(states[4], actions[4]).workers == states[5].workers;
    assert Do(states[4], actions[4]) == states[5];
    assert Backoff(1) == 60_000;
    assert states[5].failed[0] + {1} == states[6].failed[0];
    assert Do(states[5], actions[5]).workers == states[6].workers && Do(states[5], actions[5]).failed == states[6].failed;
    assert Do(states[5], actions[5]) == states[6];
  }
}
