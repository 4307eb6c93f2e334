/**
 * Emits and replays of the outbox running at the same time, each statement a step. Looking for
 * an event and inserting it are two steps, and so are looking for a delivery and inserting it;
 * what keeps them right is the unique indexes, and the cost is that an insert may throw.
 */
module OutboxRaces {
  import opened D = Domain
  import opened Outbox

  type ActorId = nat

  datatype Pc =
    | Selecting(m: MerchantId, key: DedupeKey, endpoints: seq<EndpointId>)
    | Inserting(m: MerchantId, key: DedupeKey, endpoints: seq<EndpointId>)
    | Looking(e: EventId, endpoints: seq<EndpointId>, k: nat)
    | Creating(e: EventId, endpoints: seq<EndpointId>, k: nat)
    | Replaying(e: EventId, endpoints: seq<EndpointId>, k: nat)
    | Emitted(e: EventId, endpoints: seq<EndpointId>)   // an emit that created its event ran to its end
    | Replayed(e: EventId, endpoints: seq<EndpointId>)
    | Skipped                                           // the event was there
    | Threw                                             // a unique index refused, or the process died

  datatype Sys = Sys(events: map<EventId, Event>, deliveries: multiset<Row>, actors: map<ActorId, Pc>)

  const Initial := Sys(map[], multiset{}, map[])

  datatype Action =
    | BeginEmit(a: ActorId, m: MerchantId, key: DedupeKey, endpoints: seq<EndpointId>)
    | Select(a: ActorId)
    | InsertEvent(a: ActorId, e: EventId)
    | Look(a: ActorId)
    | CreateRow(a: ActorId)
    | BeginReplay(a: ActorId, e: EventId, endpoints: seq<EndpointId>)
    | ReplayRow(a: ActorId)
    | Die(a: ActorId)

  predicate Running(pc: Pc) { !pc.Emitted? && !pc.Replayed? && !pc.Skipped? && !pc.Threw? }

  predicate Enabled(s: Sys, x: Action)
  {
    match x
    case BeginEmit(a, m, key, endpoints) => a !in s.actors && endpoints != [] && Distinct(endpoints)
    case Select(a) => a in s.actors && s.actors[a].Selecting?
    case InsertEvent(a, e) => a in s.actors && s.actors[a].Inserting? && e !in s.events
    case Look(a) => a in s.actors && s.actors[a].Looking? && s.actors[a].k <= |s.actors[a].endpoints|
    case CreateRow(a) => a in s.actors && s.actors[a].Creating? && s.actors[a].k < |s.actors[a].endpoints|
    case BeginReplay(a, e, endpoints) => a !in s.actors && e in s.events && Distinct(endpoints)
    case ReplayRow(a) => a in s.actors && s.actors[a].Replaying? && s.actors[a].k <= |s.actors[a].endpoints|
    case Die(a) => a in s.actors && Running(s.actors[a])
  }

  function Do(s: Sys, x: Action): Sys
    requires Enabled(s, x)
  {
    match x
    case BeginEmit(a, m, key, endpoints) => s.(actors := s.actors[a := Selecting(m, key, endpoints)])
    case Select(a) =>
      var Selecting(m, key, endpoints) := s.actors[a];
      s.(actors := s.actors[a := if HasKey(s.events, m, key) then Skipped else Inserting(m, key, endpoints)])
    case InsertEvent(a, e) =>
      var Inserting(m, key, endpoints) := s.actors[a];
      if HasKey(s.events, m, key) then s.(actors := s.actors[a := Threw])
      else s.(events := s.events[e := Event(m, key)], actors := s.actors[a := Looking(e, endpoints, 0)])
    case Look(a) =>
      var Looking(e, endpoints, k) := s.actors[a];
      s.(actors := s.actors[a :=
        if k == |endpoints| then Emitted(e, endpoints)
        else if Row(e, endpoints[k]) in s.deliveries then Looking(e, endpoints, k + 1)
        else Creating(e, endpoints, k)])
    case CreateRow(a) =>
      var Creating(e, endpoints, k) := s.actors[a];
      if Row(e, endpoints[k]) in s.deliveries then s.(actors := s.actors[a := Threw])
      else s.(deliveries := s.deliveries + multiset{Row(e, endpoints[k])}, actors := s.actors[a := Looking(e, endpoints, k + 1)])
    case BeginReplay(a, e, endpoints) => s.(actors := s.actors[a := Replaying(e, endpoints, 0)])
    case ReplayRow(a) =>
      var Replaying(e, endpoints, k) := s.actors[a];
      if k == |endpoints| then s.(actors := s.actors[a := Replayed(e, endpoints)])
      else if Row(e, endpoints[k]) in s.deliveries then s.(actors := s.actors[a := Threw])
      else s.(deliveries := s.deliveries + multiset{Row(e, endpoints[k])}, actors := s.actors[a := Replaying(e, endpoints, k + 1)])
    case Die(a) => s.(actors := s.actors[a := Threw])
  }

  // ----- the invariant -----

  /** The event an emit has created and is, or was, delivering. */
  predicate Creator(pc: Pc) { pc.Looking? || pc.Creating? || pc.Emitted? }

  /** How many of its endpoints a program has dealt with. */
  function DealtWith(pc: Pc): nat
    requires pc.Looking? || pc.Creating? || pc.Replaying? || pc.Emitted? || pc.Replayed?
  {
    if pc.Emitted? || pc.Replayed? then |pc.endpoints| else pc.k
  }

  ghost predicate PcOk(s: Sys, pc: Pc)
  {
    pc.Looking? || pc.Creating? || pc.Replaying? || pc.Emitted? || pc.Replayed? ==>
      && pc.e in s.events && DealtWith(pc) <= |pc.endpoints|
      && forall j :: 0 <= j < DealtWith(pc) ==> Row(pc.e, pc.endpoints[j]) in s.deliveries
  }

  predicate OtherEvent(p: Pc, q: Pc) { Creator(p) && Creator(q) ==> p.e != q.e }

  ghost predicate Inv(s: Sys)
  {
    && Unique(s.events, s.deliveries)
    && (forall r :: r in s.deliveries ==> r.event in s.events)
    && (forall a :: a in s.actors ==> PcOk(s, s.actors[a]))
    && (forall a, b :: a in s.actors && b in s.actors && a != b ==> OtherEvent(s.actors[a], s.actors[b]))
  }

  /** A step in which one program moves, and at most one row or event is added. */
  lemma MoveKeepsInv(s: Sys, s': Sys, a: ActorId)
    requires Inv(s) && a in s'.actors && s'.actors == s.actors[a := s'.actors[a]]
    requires s.deliveries <= s'.deliveries && Unique(s'.events, s'.deliveries)
    requires forall e :: e in s.events ==> e in s'.events
    requires forall r :: r in s'.deliveries ==> r.event in s'.events
    requires PcOk(s', s'.actors[a])
    requires Creator(s'.actors[a]) ==> s'.actors[a].e !in s.events || (a in s.actors && Creator(s.actors[a]) && s.actors[a].e == s'.actors[a].e)
    ensures Inv(s')
  {
    forall b | b in s'.actors
      ensures PcOk(s', s'.actors[b])
      ensures b != a ==> OtherEvent(s'.actors[a], s'.actors[b]) && OtherEvent(s'.actors[b], s'.actors[a])
    {
      if b != a {
        assert PcOk(s, s.actors[b]);
        assert a in s.actors ==> OtherEvent(s.actors[a], s.actors[b]);
      }
    }
  }

  lemma NewRowKeepsUnique(events: map<EventId, Event>, deliveries: multiset<Row>, r: Row)
    requires Unique(events, deliveries) && r !in deliveries
    ensures Unique(events, deliveries + multiset{r})
  {
  }

  lemma RowStep(s: Sys, x: Action)
    requires Inv(s) && Enabled(s, x) && (x.CreateRow? || x.ReplayRow?)
    ensures Inv(Do(s, x))
  {
    var pc := s.actors[x.a];
    assert PcOk(s, pc);
    if pc.k < |pc.endpoints| && Row(pc.e, pc.endpoints[pc.k]) !in s.deliveries {
      NewRowKeepsUnique(s.events, s.deliveries, Row(pc.e, pc.endpoints[pc.k]));
    }
    MoveKeepsInv(s, Do(s, x), x.a);
  }

  lemma EventStep(s: Sys, x: Action)
    requires Inv(s) && Enabled(s, x) && x.InsertEvent?
    ensures Inv(Do(s, x))
  {
    MoveKeepsInv(s, Do(s, x), x.a);
  }

  lemma StepKeepsInv(s: Sys, x: Action)
    requires Inv(s) && Enabled(s, x)
    ensures Inv(Do(s, x))
  {
    if x.CreateRow? || x.ReplayRow? {
      RowStep(s, x);
    } else if x.InsertEvent? {
      EventStep(s, x);
    } else {
      if x.a in s.actors { assert PcOk(s, s.actors[x.a]); }
      MoveKeepsInv(s, Do(s, x), x.a);
    }
  }

  ghost predicate IsRun(states: seq<Sys>, actions: seq<Action>)
  {
    && |states| == |actions| + 1 && states[0] == Initial
    && forall k :: 0 <= k < |actions| ==> Enabled(states[k], actions[k]) && states[k + 1] == Do(states[k], actions[k])
  }

  lemma {:induction false} RunKeepsInv(states: seq<Sys>, actions: seq<Action>, k: nat)
    requires IsRun(states, actions) && k < |states|
    ensures Inv(states[k])
  {
    if 0 < k {
      RunKeepsInv(states, actions, k - 1);
      StepKeepsInv(states[k - 1], actions[k - 1]);
    }
  }

  /**
   * However often one event is emitted, redelivered or replayed at the same time: one event for
   * each merchant and dedupe key, one delivery at most for each event and endpoint, and exactly
   * one for each listed endpoint once the emit that created the event, or a replay, has finished.
   */
  lemma OneDeliveryEach(states: seq<Sys>, actions: seq<Action>, k: nat, a: ActorId)
    requires IsRun(states, actions) && k < |states|
    ensures Unique(states[k].events, states[k].deliveries)
    ensures a in states[k].actors && (states[k].actors[a].Emitted? || states[k].actors[a].Replayed?) ==>
      forall n :: n in states[k].actors[a].endpoints ==> states[k].deliveries[Row(states[k].actors[a].e, n)] == 1
  {
    RunKeepsInv(states, actions, k);
    var s := states[k];
    if a in s.actors && (s.actors[a].Emitted? || s.actors[a].Replayed?) {
      assert PcOk(s, s.actors[a]);
      forall n | n in s.actors[a].endpoints
        ensures s.deliveries[Row(s.actors[a].e, n)] == 1
      {
        var j :| 0 <= j < |s.actors[a].endpoints| && s.actors[a].endpoints[j] == n;
        assert Row(s.actors[a].e, n) in s.deliveries;
      }
    }
  }

  /** Of all the emits of one merchant and dedupe key, one at most gets to make deliveries. */
  lemma OneCreator(states: seq<Sys>, actions: seq<Action>, k: nat, a: ActorId, b: ActorId)
    requires IsRun(states, actions) && k < |states| && a in states[k].actors && b in states[k].actors
    requires Creator(states[k].actors[a]) && Creator(states[k].actors[b])
    requires states[k].actors[a].e in states[k].events && states[k].actors[b].e in states[k].events
    requires states[k].events[states[k].actors[a].e] == states[k].events[states[k].actors[b].e]
    ensures a == b
  {
    RunKeepsInv(states, actions, k);
    assert a != b ==> OtherEvent(states[k].actors[a], states[k].actors[b]);
  }

  // ----- an emit alone -----

  /** The rest of an emit's loop, nobody else moving. */
  function Finished(s: Sys, a: ActorId): Sys
    requires a in s.actors && s.actors[a].Looking? && s.actors[a].k <= |s.actors[a].endpoints|
    decreases |s.actors[a].endpoints| - s.actors[a].k
  {
    var s1 := Do(s, Look(a));
    if s1.actors[a].Emitted? then s1
    else if s1.actors[a].Looking? then Finished(s1, a)
    else Finished(Do(s1, CreateRow(a)), a)
  }

  lemma {:induction false} FinishedDelivers(s: Sys, a: ActorId, e: EventId, endpoints: seq<EndpointId>, k: nat)
    requires a in s.actors && s.actors[a] == Looking(e, endpoints, k) && k <= |endpoints| && Distinct(endpoints)
    requires forall j :: k <= j < |endpoints| ==> Row(e, endpoints[j]) !in s.deliveries
    ensures Finished(s, a).events == s.events && Finished(s, a).actors == s.actors[a := Emitted(e, endpoints)]
    ensures Finished(s, a).deliveries + RowsFor(e, endpoints[..k]) == s.deliveries + RowsFor(e, endpoints)
    decreases |endpoints| - k
  {
    if k == |endpoints| {
      assert endpoints[..k] == endpoints;
    } else {
      var s2 := NextDelivered(s, a, e, endpoints, k);
      FinishedDelivers(s2, a, e, endpoints, k + 1);
      NextRow(e, endpoints, k);
      Cancels(Finished(s2, a).deliveries, RowsFor(e, endpoints[..k]), s.deliveries, RowsFor(e, endpoints), Row(e, endpoints[k]));
    }
  }

  /** One round of the loop. */
  lemma NextDelivered(s: Sys, a: ActorId, e: EventId, endpoints: seq<EndpointId>, k: nat) returns (s2: Sys)
    requires a in s.actors && s.actors[a] == Looking(e, endpoints, k) && k < |endpoints| && Distinct(endpoints)
    requires forall j :: k <= j < |endpoints| ==> Row(e, endpoints[j]) !in s.deliveries
    ensures s2.events == s.events && s2.deliveries == s.deliveries + multiset{Row(e, endpoints[k])}
    ensures a in s2.actors && s2.actors[a] == Looking(e, endpoints, k + 1)
    ensures s2.actors[a := Emitted(e, endpoints)] == s.actors[a := Emitted(e, endpoints)]
    ensures Finished(s, a) == Finished(s2, a)
    ensures forall j :: k + 1 <= j < |endpoints| ==> Row(e, endpoints[j]) !in s2.deliveries
  {
    s2 := Do(Do(s, Look(a)), CreateRow(a));
  }

  lemma Cancels(f: multiset<Row>, some: multiset<Row>, d: multiset<Row>, all: multiset<Row>, row: Row)
    requires f + (some + multiset{row}) == (d + multiset{row}) + all
    ensures f + some == d + all
  {
    forall r
      ensures (f + some)[r] == (d + all)[r]
    {
      assert (f + (some + multiset{row}))[r] == ((d + multiset{row}) + all)[r];
    }
  }

  /** An emit that has just created its event. */
  function Created(s: Sys, a: ActorId, e: EventId, m: MerchantId, key: DedupeKey, endpoints: seq<EndpointId>): Sys
  {
    Sys(s.events[e := Event(m, key)], s.deliveries, s.actors[a := Looking(e, endpoints, 0)])
  }

  lemma EventCreated(s: Sys, a: ActorId, e: EventId, m: MerchantId, key: DedupeKey, endpoints: seq<EndpointId>)
    requires a !in s.actors && e !in s.events && endpoints != [] && Distinct(endpoints) && !HasKey(s.events, m, key)
    ensures Enabled(s, BeginEmit(a, m, key, endpoints))
    ensures var s1 := Do(s, BeginEmit(a, m, key, endpoints));
      && Enabled(s1, Select(a)) && Enabled(Do(s1, Select(a)), InsertEvent(a, e))
      && Do(Do(s1, Select(a)), InsertEvent(a, e)) == Created(s, a, e, m, key, endpoints)
  {
  }

  /** The steps of an emit that nothing interrupts come to what the use case does: the event, and a delivery for each endpoint. */
  lemma EmitAlone(s: Sys, a: ActorId, e: EventId, m: MerchantId, key: DedupeKey, endpoints: seq<EndpointId>)
    requires e !in s.events && Distinct(endpoints) && forall r :: r in s.deliveries ==> r.event in s.events
    ensures Finished(Created(s, a, e, m, key, endpoints), a) ==
      Sys(s.events[e := Event(m, key)], s.deliveries + RowsFor(e, endpoints), s.actors[a := Emitted(e, endpoints)])
  {
    FinishedDelivers(Created(s, a, e, m, key, endpoints), a, e, endpoints, 0);
    assert endpoints[..0] == [];
  }

  /** Some emit is still making the deliveries of `e`. */
  predicate WorksOn(pc: Pc, e: EventId) { (pc.Looking? || pc.Creating?) && pc.e == e }

  /** The event is there, and whoever created it has finished or died. */
  ghost predicate LeftAlone(s: Sys, e: EventId)
  {
    e in s.events && forall a :: a in s.actors ==> !WorksOn(s.actors[a], e)
  }

  predicate ReplaysEvent(s: Sys, x: Action, e: EventId)
  {
    x.ReplayRow? && x.a in s.actors && s.actors[x.a].Replaying? && s.actors[x.a].e == e
  }

  lemma StepLeavesAlone(s: Sys, x: Action, e: EventId)
    requires Inv(s) && Enabled(s, x) && LeftAlone(s, e)
    ensures LeftAlone(Do(s, x), e)
    ensures !ReplaysEvent(s, x, e) ==> forall n :: Do(s, x).deliveries[Row(e, n)] == s.deliveries[Row(e, n)]
  {
    if x.CreateRow? { assert !WorksOn(s.actors[x.a], e); }
  }

  /**
   * Deliveries lost to a crash are not made up for: once an event is there and its emit has
   * died, no later emit of its key, however many there are, ever adds a delivery of it. Only a
   * replay does.
   */
  lemma {:induction false} LaterEmitsAddNothing(states: seq<Sys>, actions: seq<Action>, e: EventId, j: nat, k: nat)
    requires IsRun(states, actions) && j <= k < |states| && LeftAlone(states[j], e)
    requires forall n :: j <= n < k ==> !ReplaysEvent(states[n], actions[n], e)
    ensures LeftAlone(states[k], e)
    ensures forall n :: states[k].deliveries[Row(e, n)] == states[j].deliveries[Row(e, n)]
    decreases k
  {
    if j < k {
      LaterEmitsAddNothing(states, actions, e, j, k - 1);
      RunKeepsInv(states, actions, k - 1);
      StepLeavesAlone(states[k - 1], actions[k - 1], e);
    }
  }

  /** An emit that dies right after creating its event: the event is there, left alone, and no endpoint has a delivery. */
  lemma DeadEmitLosesDeliveries(m: MerchantId, key: DedupeKey, n: EndpointId) returns (states: seq<Sys>, actions: seq<Action>)
    ensures IsRun(states, actions) && LeftAlone(states[|actions|], 0) && states[|actions|].events[0] == Event(m, key)
    ensures states[|actions|].deliveries == multiset{}
  {
    var s1 := Initial.(actors := map[0 := Selecting(m, key, [n])]);
    var s2 := Initial.(actors := map[0 := Inserting(m, key, [n])]);
    var s3 := Sys(map[0 := Event(m, key)], multiset{}, map[0 := Looking(0, [n], 0)]);
    var s4 := s3.(actors := map[0 := Threw]);
    states, actions := [Initial, s1, s2, s3, s4], [BeginEmit(0, m, key, [n]), Select(0), InsertEvent(0, 0), Die(0)];
    assert Enabled(Initial, actions[0]) && Do(Initial, actions[0]) == s1;
    assert Enabled(s1, actions[1]) && Do(s1, actions[1]) == s2;
    assert Enabled(s2, actions[2]) && Do(s2, actions[2]) == s3;
    assert Enabled(s3, actions[3]) && Do(s3, actions[3]) == s4;
  }
}
