/**
 * The outbox: which statuses merchants are told about, the emit that records an event once
 * with one delivery for each endpoint, and the replay of an event.
 */
module Outbox {
  import opened D = Domain

  type EventId = nat
  type EndpointId = nat

  // ----- event types -----

  datatype EventType = OfIntent(intent: IntentStatus) | OfTransaction(tx: TxStatus)

  /** The types a merchant can subscribe to. */
  const EventTypes: set<EventType> := {
    OfIntent(RequiresPayment), OfIntent(PartiallyPaid), OfIntent(Paid), OfIntent(IntentStatus.Failed), OfIntent(IntentStatus.Expired),
    OfIntent(IntentStatus.Cancelled), OfIntent(IntentStatus.Refunded), OfIntent(IntentStatus.Voided),
    OfTransaction(RequiresAction), OfTransaction(TxStatus.Succeeded), OfTransaction(TxStatus.Failed),
    OfTransaction(TxStatus.Cancelled), OfTransaction(TxStatus.Refunded), OfTransaction(TxStatus.Voided)
  }

  function EventTypeForIntentStatus(s: IntentStatus): Option<EventType>
  {
    if s.Overpaid? then Some(OfIntent(Paid)) else Some(OfIntent(s))
  }

  function EventTypeForTransactionStatus(s: TxStatus): Option<EventType>
  {
    if s.RequiresAction? || s.Succeeded? || s.Failed? || s.Cancelled? || s.Refunded? || s.Voided? then Some(OfTransaction(s)) else None
  }

  /** Every intent status is announced under a type of its own, but for overpaid, announced as paid; every listed type is used. */
  lemma IntentEventTypes(s: IntentStatus, t: IntentStatus)
    ensures EventTypeForIntentStatus(s).Some? && EventTypeForIntentStatus(s).value in EventTypes
    ensures EventTypeForIntentStatus(s) == EventTypeForIntentStatus(t) <==>
      s == t || (s.Paid? && t.Overpaid?) || (s.Overpaid? && t.Paid?)
    ensures OfIntent(s) in EventTypes <==> EventTypeForIntentStatus(s) == Some(OfIntent(s))
  {
  }

  /** A transaction status is announced exactly when its type is listed: pending, expired, reversed and ignored are silent. */
  lemma TransactionEventTypes(s: TxStatus)
    ensures EventTypeForTransactionStatus(s) == if OfTransaction(s) in EventTypes then Some(OfTransaction(s)) else None
    ensures EventTypeForTransactionStatus(s).None? <==> s.Pending? || s.Expired? || s.Reversed? || s.Ignored?
  {
  }

  // ----- tables -----

  /** What a dedupe key is made of: the resource, the event type, and what caused the event. */
  datatype DedupeKey = DedupeKey(resource: nat, eventType: EventType, suffix: string)

  datatype Event = Event(merchant: MerchantId, key: DedupeKey)

  datatype Row = Row(event: EventId, endpoint: EndpointId)

  function HasKey(events: map<EventId, Event>, m: MerchantId, key: DedupeKey): bool
  {
    exists e :: e in events && events[e] == Event(m, key)
  }

  /** The two unique indexes. */
  ghost predicate Unique(events: map<EventId, Event>, deliveries: multiset<Row>)
  {
    && (forall d, e :: d in events && e in events && events[d] == events[e] ==> d == e)
    && (forall r :: deliveries[r] <= 1)
  }

  predicate Distinct(endpoints: seq<EndpointId>) { forall j, k :: 0 <= j < k < |endpoints| ==> endpoints[j] != endpoints[k] }

  function RowsFor(e: EventId, endpoints: seq<EndpointId>): multiset<Row>
  {
    if endpoints == [] then multiset{} else RowsFor(e, endpoints[..|endpoints| - 1]) + multiset{Row(e, endpoints[|endpoints| - 1])}
  }

  lemma {:induction false} OneRowEach(e: EventId, endpoints: seq<EndpointId>, r: Row)
    requires Distinct(endpoints)
    ensures RowsFor(e, endpoints)[r] == if r.event == e && r.endpoint in endpoints then 1 else 0
  {
    if endpoints != [] {
      OneRowEach(e, endpoints[..|endpoints| - 1], r);
      assert endpoints == endpoints[..|endpoints| - 1] + [endpoints[|endpoints| - 1]];
    }
  }

  /** The loop's next endpoint has no row yet, and adds one. */
  lemma NextRow(e: EventId, endpoints: seq<EndpointId>, k: nat)
    requires Distinct(endpoints) && k < |endpoints|
    ensures RowsFor(e, endpoints[..k + 1]) == RowsFor(e, endpoints[..k]) + multiset{Row(e, endpoints[k])}
    ensures RowsFor(e, endpoints[..k])[Row(e, endpoints[k])] == 0
  {
    OneRowEach(e, endpoints[..k], Row(e, endpoints[k]));
    assert endpoints[..k + 1][..k] == endpoints[..k];
  }

  class WebhookTables {
    var events: map<EventId, Event>
    var deliveries: multiset<Row>

    constructor ()
      ensures events == map[] && deliveries == multiset{} && Unique(events, deliveries)
    {
      events, deliveries := map[], multiset{};
    }

    /** Select, and insert when nothing was found; alone, the insert cannot meet the unique index. */
    method CreateOrGet(id: EventId, m: MerchantId, key: DedupeKey) returns (e: EventId, created: bool)
      requires id !in events && Unique(events, deliveries)
      modifies this`events
      ensures Unique(events, deliveries) && e in events && events[e] == Event(m, key)
      ensures created <==> !HasKey(old(events), m, key)
      ensures events == if created then old(events)[id := Event(m, key)] else old(events)
      ensures created ==> e == id
    {
      var same := set x | x in events && events[x] == Event(m, key);
      if same != {} {
        e :| e in same;
        return e, false;
      }
      assert forall x :: x in events && events[x] == Event(m, key) ==> x in same;
      events := events[id := Event(m, key)];
      e, created := id, true;
    }

    /** The insert of a delivery, which the unique index may refuse. */
    method CreateDelivery(r: Row) returns (ok: bool)
      modifies this`deliveries
      ensures ok <==> r !in old(deliveries)
      ensures deliveries == if ok then old(deliveries) + multiset{r} else old(deliveries)
    {
      ok := r !in deliveries;
      if ok { deliveries := deliveries + multiset{r}; }
    }

    /**
     * One emit, alone: an event that is already there, or that nobody subscribes to, changes
     * nothing; otherwise the event is new and every listed endpoint gets exactly one delivery.
     */
    method Emit(id: EventId, m: MerchantId, key: DedupeKey, enabled: bool, endpoints: seq<EndpointId>)
      requires id !in events && Unique(events, deliveries) && Distinct(endpoints)
      requires forall r :: r in deliveries ==> r.event in events
      modifies this
      ensures Unique(events, deliveries)
      ensures if enabled && endpoints != [] && !HasKey(old(events), m, key) then
          && events == old(events)[id := Event(m, key)]
          && deliveries == old(deliveries) + RowsFor(id, endpoints)
          && (forall n :: n in endpoints ==> deliveries[Row(id, n)] == 1)
        else events == old(events) && deliveries == old(deliveries)
    {
      if !enabled || endpoints == [] { return; }
      var e, created := CreateOrGet(id, m, key);
      if !created { return; }
      CreateDeliveries(e, endpoints);
      forall r
        ensures deliveries[r] <= 1
        ensures r.event == id && r.endpoint in endpoints ==> deliveries[r] == 1
      {
        OneRowEach(id, endpoints, r);
      }
    }

    /** The loop over the endpoints: a delivery for each that has none. */
    method CreateDeliveries(e: EventId, endpoints: seq<EndpointId>)
      requires Distinct(endpoints) && forall r :: r in deliveries ==> r.event != e
      modifies this`deliveries
      ensures deliveries == old(deliveries) + RowsFor(e, endpoints)
    {
      ghost var was := deliveries;
      for k := 0 to |endpoints|
        invariant deliveries == was + RowsFor(e, endpoints[..k])
      {
        NextRow(e, endpoints, k);
        if Row(e, endpoints[k]) !in deliveries {
          var _ := CreateDelivery(Row(e, endpoints[k]));
        }
      }
      assert endpoints[..|endpoints|] == endpoints;
    }

    /** Telling the merchant about an intent's status: announced under its type, whatever it is. */
    method EmitIntentStatus(id: EventId, m: MerchantId, intent: nat, status: IntentStatus, suffix: string, enabled: bool, endpoints: seq<EndpointId>)
      requires id !in events && Unique(events, deliveries) && Distinct(endpoints)
      requires forall r :: r in deliveries ==> r.event in events
      modifies this
      ensures Unique(events, deliveries)
      ensures var key := DedupeKey(intent, OfIntent(if status.Overpaid? then Paid else status), suffix);
        && key.eventType in EventTypes
        && (if enabled && endpoints != [] && !HasKey(old(events), m, key) then
              events == old(events)[id := Event(m, key)] && deliveries == old(deliveries) + RowsFor(id, endpoints)
            else events == old(events) && deliveries == old(deliveries))
    {
      IntentEventTypes(status, status);
      var eventType := EventTypeForIntentStatus(status);
      if eventType.Some? {
        Emit(id, m, DedupeKey(intent, eventType.value, suffix), enabled, endpoints);
      }
    }

    /** Telling the merchant about a transaction's status: pending, expired, reversed and ignored pass in silence. */
    method EmitTransactionStatus(id: EventId, m: MerchantId, tx: nat, status: TxStatus, suffix: string, enabled: bool, endpoints: seq<EndpointId>)
      requires id !in events && Unique(events, deliveries) && Distinct(endpoints)
      requires forall r :: r in deliveries ==> r.event in events
      modifies this
      ensures Unique(events, deliveries)
      ensures var key := DedupeKey(tx, OfTransaction(status), suffix);
        if enabled && endpoints != [] && !HasKey(old(events), m, key)
           && !status.Pending? && !status.Expired? && !status.Reversed? && !status.Ignored? then
          && key.eventType in EventTypes
          && events == old(events)[id := Event(m, key)] && deliveries == old(deliveries) + RowsFor(id, endpoints)
        else events == old(events) && deliveries == old(deliveries)
    {
      TransactionEventTypes(status);
      var eventType := EventTypeForTransactionStatus(status);
      if eventType.Some? {
        Emit(id, m, DedupeKey(tx, eventType.value, suffix), enabled, endpoints);
      }
    }

    /**
     * Replaying an event: one insert for each endpoint subscribed now, unguarded. It goes through
     * exactly when none of them has a delivery of the event yet, and stops at the first that has.
     */
    method ReplayEvent(e: EventId, endpoints: seq<EndpointId>) returns (ok: bool, ghost made: nat)
      requires Distinct(endpoints)
      modifies this`deliveries
      ensures ok <==> forall k :: 0 <= k < |endpoints| ==> Row(e, endpoints[k]) !in old(deliveries)
      ensures made <= |endpoints| && deliveries == old(deliveries) + RowsFor(e, endpoints[..made])
      ensures if ok then made == |endpoints| else made < |endpoints| && Row(e, endpoints[made]) in old(deliveries)
    {
      made := 0;
      ghost var was := deliveries;
      for k := 0 to |endpoints|
        invariant made == k && deliveries == was + RowsFor(e, endpoints[..k])
        invariant forall j :: 0 <= j < k ==> Row(e, endpoints[j]) !in was
      {
        NextRow(e, endpoints, k);
        var inserted := CreateDelivery(Row(e, endpoints[k]));
        if !inserted { return false, k; }
        made := k + 1;
      }
      ok := true;
    }
  }
}
