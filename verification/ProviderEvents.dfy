/**
 * Provider events: the event table, the webhook handler that reserves, claims and applies
 * an event, and the job that applies stored events again.
 */
module ProviderEvents {
  import opened Domain
  import opened LedgerSpec
  import opened LedgerInvariant
  import opened PaymentDb
  import opened Sequential
  import opened CreditPaths

  // ----- payloads -----

  /** A JSON value as far as the handlers look into it; `printed` is its string conversion. */
  datatype JValue = JString(text: string) | JNull | JOther(printed: string)

  type Payload = map<string, JValue>

  predicate IsSpace(c: char) { c == ' ' || c == '\t' || c == '\n' || c == '\r' }

  predicate Blank(s: string) { forall k :: 0 <= k < |s| ==> IsSpace(s[k]) }

  function TrimLeft(s: string): string { if s != "" && IsSpace(s[0]) then TrimLeft(s[1..]) else s }

  function TrimRight(s: string): string { if s != "" && IsSpace(s[|s| - 1]) then TrimRight(s[..|s| - 1]) else s }

  function Trim(s: string): string { TrimRight(TrimLeft(s)) }

  /** The statuses a provider can report, as transaction statuses. */
  function ReadStatus(s: string): Option<TxStatus>
  {
    if s == "succeeded" then Some(TxStatus.Succeeded)
    else if s == "failed" then Some(TxStatus.Failed)
    else if s == "cancelled" then Some(TxStatus.Cancelled)
    else if s == "expired" then Some(TxStatus.Expired)
    else if s == "ignored" then Some(TxStatus.Ignored)
    else if s == "pending" then Some(TxStatus.Pending)
    else None
  }

  datatype Parsed = Parsed(provider: Provider, eventId: string, reference: Option<Reference>,
                           eventType: string, status: TxStatus, payload: Payload)

  function TextAt(p: Payload, key: string): string
  {
    if key in p && p[key].JString? then p[key].text else ""
  }

  /** The webhook's reading of a body: every field checked, a blank reference dropped. */
  function FakeGatewayParse(p: Payload): Option<Parsed>
  {
    if Blank(TextAt(p, "event_id")) || Blank(TextAt(p, "event_type")) || ReadStatus(TextAt(p, "status")).None? then None
    else
      var reference := TextAt(p, "provider_reference");
      Some(Parsed(FakeGateway, Trim(TextAt(p, "event_id")), if Blank(reference) then None else Some(reference),
                  Trim(TextAt(p, "event_type")), ReadStatus(TextAt(p, "status")).value, p))
  }

  /** How a status is spelled wherever it leaves the service or comes in. */
  function Spelling(s: TxStatus): string
  {
    match s
    case Pending => "pending"
    case RequiresAction => "requires_action"
    case Succeeded => "succeeded"
    case Failed => "failed"
    case Cancelled => "cancelled"
    case Expired => "expired"
    case Voided => "voided"
    case Refunded => "refunded"
    case Reversed => "reversed"
    case Ignored => "ignored"
  }

  /** The statuses a provider may report; the others are the service's own. */
  const Reportable: set<TxStatus> :=
    {TxStatus.Pending, TxStatus.Succeeded, TxStatus.Failed, TxStatus.Cancelled, TxStatus.Expired, TxStatus.Ignored}

  /** Exactly the reportable statuses are read, each under its own spelling. */
  lemma StatusesReadBack(s: string, v: TxStatus)
    ensures ReadStatus(s) == Some(v) <==> v in Reportable && s == Spelling(v)
  {
    assert |"succeeded"| == |"cancelled"| && "succeeded"[0] != "cancelled"[0];
    assert |"expired"| == |"ignored"| == |"pending"| && "expired"[0] != "ignored"[0] && "ignored"[0] != "pending"[0] && "expired"[0] != "pending"[0];
  }

  /** The member is a text with something to see in it. */
  ghost predicate Shown(p: Payload, key: string)
  {
    key in p && p[key].JString? && exists k :: 0 <= k < |p[key].text| && p[key].text[k] !in {' ', '\t', '\n', '\r'}
  }

  /** A body is accepted exactly when it shows an id and a type and names a reportable status, which is the one read. */
  lemma AcceptedExactly(p: Payload)
    ensures FakeGatewayParse(p).Some? <==>
      && Shown(p, "event_id") && Shown(p, "event_type")
      && "status" in p && exists v :: v in Reportable && p["status"] == JString(Spelling(v))
    ensures FakeGatewayParse(p).Some? ==>
      var q := FakeGatewayParse(p).value;
      && q.provider == FakeGateway && q.payload == p && p["status"] == JString(Spelling(q.status))
      && q.reference == (if Shown(p, "provider_reference") then Some(p["provider_reference"].text) else None)
      && q.eventId == Trim(p["event_id"].text) && q.eventType == Trim(p["event_type"].text)
  {
    var status := TextAt(p, "status");
    assert Blank("");
    forall v
      ensures ReadStatus(status) == Some(v) <==> v in Reportable && status == Spelling(v)
      ensures Spelling(v) != ""
    {
      StatusesReadBack(status, v);
    }
    if ReadStatus(status).Some? { assert ReadStatus(status) == Some(ReadStatus(status).value); }
    assert ReadStatus("").None?;
  }

  /** Trimming takes blanks off both ends, all of them, and nothing else. */
  lemma {:induction false} TrimExactly(s: string) returns (a: nat, b: nat)
    ensures a <= b <= |s| && Trim(s) == s[a..b]
    ensures forall k :: 0 <= k < a || b <= k < |s| ==> s[k] in {' ', '\t', '\n', '\r'}
    ensures a < b ==> s[a] !in {' ', '\t', '\n', '\r'} && s[b - 1] !in {' ', '\t', '\n', '\r'}
  {
    a := LeftTrimmed(s);
    b := RightTrimmed(TrimLeft(s));
    assert TrimLeft(s)[..b] == s[a..a + b];
    assert forall k :: b <= k < |TrimLeft(s)| ==> TrimLeft(s)[k] == s[a + k];
    assert forall k :: a + b <= k < |s| ==> s[k] == TrimLeft(s)[k - a];
    b := a + b;
  }

  lemma {:induction false} LeftTrimmed(s: string) returns (a: nat)
    ensures a <= |s| && TrimLeft(s) == s[a..]
    ensures forall k :: 0 <= k < a ==> s[k] in {' ', '\t', '\n', '\r'}
    ensures a < |s| ==> s[a] !in {' ', '\t', '\n', '\r'}
  {
    if s != "" && IsSpace(s[0]) {
      a := LeftTrimmed(s[1..]);
      assert s[1..][a..] == s[a + 1..];
      assert forall k :: 1 <= k <= a ==> s[k] == s[1..][k - 1];
      a := a + 1;
    } else {
      a := 0;
    }
  }

  lemma {:induction false} RightTrimmed(s: string) returns (b: nat)
    ensures b <= |s| && TrimRight(s) == s[..b]
    ensures forall k :: b <= k < |s| ==> s[k] in {' ', '\t', '\n', '\r'}
    ensures 0 < b ==> s[b - 1] !in {' ', '\t', '\n', '\r'}
  {
    if s != "" && IsSpace(s[|s| - 1]) {
      b := RightTrimmed(s[..|s| - 1]);
      assert s[..|s| - 1][..b] == s[..b];
    } else {
      b := |s|;
    }
  }

  /** The first of the keys that is present and not null. */
  function FirstOf(p: Payload, keys: seq<string>): Option<JValue>
  {
    if keys == [] then None
    else if keys[0] in p && !p[keys[0]].JNull? then Some(p[keys[0]])
    else FirstOf(p, keys[1..])
  }

  const ReferenceKeys: seq<string> := ["providerReference", "provider_reference", "provider_ref"]

  /** The job's reading of a stored payload: a status it does not know changes nothing, like pending. */
  function CoercedStatus(p: Payload): TxStatus
  {
    match FirstOf(p, ["status"])
    case None => TxStatus.Ignored
    case Some(JString(text)) => if ReadStatus(text).Some? then ReadStatus(text).value else TxStatus.Pending
    case Some(JOther(printed)) => if ReadStatus(printed).Some? then ReadStatus(printed).value else TxStatus.Pending
    case Some(JNull) => TxStatus.Ignored
  }

  /** The job reads the status the payload spells, ignores one that is missing, and takes any other for pending. */
  lemma CoercedStatusExactly(p: Payload, v: TxStatus)
    ensures v in Reportable && v != TxStatus.Pending && v != TxStatus.Ignored ==>
      (CoercedStatus(p) == v <==> "status" in p && (p["status"] == JString(Spelling(v)) || p["status"] == JOther(Spelling(v))))
    ensures CoercedStatus(p) == TxStatus.Ignored <==>
      "status" !in p || p["status"] in {JNull, JString(Spelling(TxStatus.Ignored)), JOther(Spelling(TxStatus.Ignored))}
    ensures CoercedStatus(p) in Reportable
  {
    var first := FirstOf(p, ["status"]);
    assert ["status"][0] == "status" && FirstOf(p, ["status"][1..]) == None;
    assert first == if "status" in p && p["status"] != JNull then Some(p["status"]) else None;
    if first.Some? {
      var text := if first.value.JString? then first.value.text else first.value.printed;
      StatusesReadBack(text, v);
      StatusesReadBack(text, TxStatus.Ignored);
      if ReadStatus(text).Some? { StatusesReadBack(text, ReadStatus(text).value); }
    }
  }

  /** The reference the job looks up, `None` where it gives up: no reference, not a string, or empty. */
  function CoercedReference(stored: Option<Reference>, p: Payload): Option<Reference>
  {
    match FirstOf(p, ReferenceKeys)
    case Some(JString(text)) => if text == "" then None else Some(text)
    case Some(_) => None
    case None => if stored == Some("") then None else stored
  }

  // ----- what an event does to the ledger -----

  predicate Names(l: Ledger, t: TxId, p: Provider, reference: Option<Reference>)
  {
    reference.Some? && t in l.txs && l.txs[t].provider == p && l.txs[t].reference == reference
  }

  predicate Known(l: Ledger, p: Provider, reference: Option<Reference>)
  {
    exists t :: t in l.txs && Names(l, t, p, reference)
  }

  /** The verdict reaches a row of that reference, or nothing happens. */
  ghost predicate Delivered(l: Ledger, p: Provider, reference: Option<Reference>, verdict: TxStatus, l': Ledger)
  {
    if Known(l, p, reference) then exists t :: Names(l, t, p, reference) && l' == VerdictEffect(l, t, verdict, None)
    else l' == l
  }

  lemma Reaches(l: Ledger, t: TxId, p: Provider, reference: Option<Reference>, verdict: TxStatus)
    requires Names(l, t, p, reference)
    ensures Known(l, p, reference) && Delivered(l, p, reference, verdict, VerdictEffect(l, t, verdict, None))
    ensures LedgerInv(l) ==> Sound(l, t)
  {
    if LedgerInv(l) { InvMakesSound(l, t); }
  }

  // ----- the event table -----

  type EventId = nat

  datatype EventStatus = Pending | Processing | Processed | Failed

  datatype Event = Event(provider: Provider, eventId: string, reference: Option<Reference>, eventType: string,
                         payload: Payload, merchant: Option<MerchantId>, status: EventStatus, attempts: nat)

  predicate SameEvent(a: Event, p: Provider, eventId: string) { a.provider == p && a.eventId == eventId }

  /** The unique index on (provider, provider event id). */
  ghost predicate EventsUnique(events: map<EventId, Event>)
  {
    forall a, b :: a in events && b in events && SameEvent(events[a], events[b].provider, events[b].eventId) ==> a == b
  }

  function NewEvent(q: Parsed): Event
  {
    Event(q.provider, q.eventId, q.reference, q.eventType, q.payload, None, EventStatus.Pending, 0)
  }

  class EventTable {
    var events: map<EventId, Event>

    constructor ()
      ensures events == map[]
    {
      events := map[];
    }

    /** Insert unless the pair is taken; then return the row that took it. */
    method ReserveEventOrGet(id: EventId, q: Parsed) returns (e: EventId, reserved: bool)
      requires id !in events && EventsUnique(events)
      modifies this
      ensures e in events && SameEvent(events[e], q.provider, q.eventId) && EventsUnique(events)
      ensures if reserved then e == id && events == old(events)[id := NewEvent(q)] else e != id && events == old(events)
      ensures reserved ==> forall x :: x in old(events) ==> !(old(events)[x].provider == q.provider && old(events)[x].eventId == q.eventId)
    {
      var same := set x: EventId | x in events && SameEvent(events[x], q.provider, q.eventId);
      if same != {} {
        e :| e in same;
        reserved := false;
      } else {
        assert forall x :: x in events ==> x !in same;
        events := events[id := NewEvent(q)];
        e, reserved := id, true;
      }
    }

    /** Only a waiting or failed event can be claimed, so two claims in a row cannot both succeed. */
    method ClaimForProcessing(e: EventId) returns (claimed: bool)
      modifies this
      ensures claimed <==> e in old(events) && (old(events)[e].status.Pending? || old(events)[e].status.Failed?)
      ensures events == if claimed then old(events)[e := old(events)[e].(status := EventStatus.Processing)] else old(events)
    {
      claimed := e in events && (events[e].status.Pending? || events[e].status.Failed?);
      if claimed { events := events[e := events[e].(status := EventStatus.Processing)]; }
    }

    method AssignMerchant(e: EventId, m: MerchantId)
      modifies this
      ensures events == if e in old(events) then old(events)[e := old(events)[e].(merchant := Some(m))] else old(events)
    {
      if e in events { events := events[e := events[e].(merchant := Some(m))]; }
    }

    method MarkProcessed(e: EventId)
      modifies this
      ensures events == if e in old(events) then old(events)[e := old(events)[e].(status := EventStatus.Processed)] else old(events)
    {
      if e in events { events := events[e := events[e].(status := EventStatus.Processed)]; }
    }

    /** Unconditional: it takes even a processed event back to failed. */
    method MarkFailed(e: EventId)
      modifies this
      ensures events == if e in old(events)
        then old(events)[e := old(events)[e].(status := EventStatus.Failed, attempts := old(events)[e].attempts + 1)] else old(events)
    {
      if e in events { events := events[e := events[e].(status := EventStatus.Failed, attempts := events[e].attempts + 1)]; }
    }
  }

  // ----- HandleProviderWebhook -----

  datatype Reply = Unsupported | Replayed | NotClaimed | NotFound | Done | Threw(code: ErrorCode)

  /** Applying a claimed event to the row it names. */
  method Mutate(db: Tables, t: TxId, verdict: TxStatus) returns (error: Option<ErrorCode>)
    requires t in db.txs
    modifies db
    ensures Sound(old(db.View()), t) ==>
      && db.View() == VerdictEffect(old(db.View()), t, verdict, None)
      && (error.Some? <==> verdict.Succeeded? && Overpays(old(db.View()), t))
      && (error.Some? ==> error.value == OverpaymentRejected)
  {
    var tx := db.txs[t];
    error := None;
    if verdict.Succeeded? {
      if !ReplayTerminal(tx.status) {
        var applied := db.ApplySucceededPayment(t, tx.merchant, tx.intentId, tx.amount);
        if applied.Err? { error := Some(applied.code); }
      }
    } else if verdict.Failed? || verdict.Cancelled? || verdict.Expired? {
      if !ReplayTerminal(tx.status) {
        var closed := db.UpdateStatus(t, tx.merchant, TxChange(verdict, None, None));
        assert closed.Ok?;  // the row was just read, and a status alone meets no index
      }
    }
  }

  /** What the handler answers for a row it found: an exception marks the event failed. */
  function ReplyTo(l: Ledger, t: TxId, verdict: TxStatus, emitFails: bool): Reply
    requires t in l.txs
  {
    if verdict.Ignored? || (verdict.Succeeded? && l.txs[t].status.Succeeded?) then Done
    else if verdict.Succeeded? && Overpays(l, t) then Threw(OverpaymentRejected)
    else if emitFails then Threw(ProviderError)
    else Done
  }

  /**
   * What an answer tells. Done: a decisive verdict leaves its row closed, under the verdict's own
   * name if it was open. An overpayment: the open row stays open, nothing is credited, and no
   * other failure goes by that name. Any other exception: the merchant could not be told.
   */
  ghost predicate Answered(l: Ledger, t: TxId, verdict: TxStatus, emitFails: bool, r: Reply, l': Ledger)
    requires t in l.txs && l.txs[t].intentId in l.intents
  {
    var row := l.txs[t];
    var open := row.status in {TxStatus.Pending, RequiresAction};
    var overpays := verdict == TxStatus.Succeeded && open && l.intents[row.intentId].remaining < row.amount;
    var decides := verdict in {TxStatus.Succeeded, TxStatus.Failed, TxStatus.Cancelled, TxStatus.Expired};
    && t in l'.txs
    && (r.Done? && decides ==> l'.txs[t].status == if open then verdict else row.status)
    && (r == Threw(OverpaymentRejected) <==> overpays)
    && (r == Threw(ProviderError) <==>
          emitFails && !overpays && verdict != TxStatus.Ignored && !(verdict == TxStatus.Succeeded && row.status == TxStatus.Succeeded))
    && (r.Done? || r.Threw?)
    && (overpays || !decides ==> l' == l)
  }

  lemma AnsweredExactly(l: Ledger, t: TxId, verdict: TxStatus, emitFails: bool)
    requires Sound(l, t)
    ensures Answered(l, t, verdict, emitFails, ReplyTo(l, t, verdict, emitFails), VerdictEffect(l, t, verdict, None))
  {
    VerdictColumns(l, t, verdict, None);
  }

  /** The event once it is handled: processed or failed, one more attempt if it failed, and owned by the row's merchant. */
  function EventAfter(before: Event, r: Reply, owner: Option<MerchantId>): Event
  {
    before.(status := if r.Done? then EventStatus.Processed else EventStatus.Failed,
            attempts := before.attempts + (if r.Done? then 0 else 1),
            merchant := if before.merchant.None? then owner else before.merchant)
  }

  /** What a claimed event does to the ledger, what is answered, and the state it is left in. */
  ghost predicate Handled(l: Ledger, q: Parsed, before: Event, emitFails: bool, r: Reply, l': Ledger, after: Event)
  {
    if Known(l, q.provider, q.reference) then
      exists t ::
        && Names(l, t, q.provider, q.reference)
        && l' == VerdictEffect(l, t, q.status, None)
        && r == ReplyTo(l, t, q.status, emitFails)
        && after == EventAfter(before, r, Some(l.txs[t].merchant))
    else l' == l && r == NotFound && after == EventAfter(before, r, None)
  }

  /**
   * From the claim to the last mark. `emitFails` says whether telling the merchant fails: the
   * ledger has changed by then, the event was marked processed, and is marked failed again.
   */
  method HandleClaimed(db: Tables, table: EventTable, q: Parsed, e: EventId, emitFails: bool) returns (r: Reply)
    requires e in table.events
    modifies db, table
    ensures e in table.events && table.events == old(table.events)[e := table.events[e]]
    ensures SameEvent(table.events[e], old(table.events)[e].provider, old(table.events)[e].eventId)
    ensures LedgerInv(old(db.View())) ==>
      && Handled(old(db.View()), q, old(table.events)[e], emitFails, r, db.View(), table.events[e])
      && Decided(old(db.View()), q, r, db.View())
    ensures r == NotFound ==> table.events[e].status == EventStatus.Failed
  {
    ghost var l, before := db.View(), table.events[e];
    var t: Option<TxId> := None;
    if q.reference.Some? { t := db.FindByProviderReference(q.provider, q.reference.value); }
    if t.None? {
      table.MarkFailed(e);
      r := NotFound;
    } else {
      Reaches(db.View(), t.value, q.provider, q.reference, q.status);
      r := HandleFound(db, table, q.status, e, t.value, emitFails);
    }
    if LedgerInv(l) { HandledDecides(l, q, before, emitFails, r, db.View(), table.events[e]); }
  }

  method HandleFound(db: Tables, table: EventTable, verdict: TxStatus, e: EventId, t: TxId, emitFails: bool) returns (r: Reply)
    requires e in table.events && t in db.txs
    modifies db, table
    ensures table.events == old(table.events)[e := EventAfter(old(table.events)[e], r, Some(old(db.txs)[t].merchant))]
    ensures Sound(old(db.View()), t) ==>
      && db.View() == VerdictEffect(old(db.View()), t, verdict, None) && r == ReplyTo(old(db.View()), t, verdict, emitFails)
      && (Decisive(verdict) && r.Done? ==> t in db.txs && db.txs[t].status !in {TxStatus.Pending, RequiresAction})
      && Answered(old(db.View()), t, verdict, emitFails, r, db.View())
    // the event stays failed, with one more attempt, unless it is answered as done
    ensures table.events[e].status == if r.Done? then EventStatus.Processed else EventStatus.Failed
    ensures table.events[e].attempts == old(table.events)[e].attempts + (if r.Done? then 0 else 1)
    // its merchant is the row's, once and for all; nothing else about it changes
    ensures table.events[e].merchant ==
      if old(table.events)[e].merchant == None then Some(old(db.txs)[t].merchant) else old(table.events)[e].merchant
    ensures var was := old(table.events)[e];
      table.events[e].(status := was.status, attempts := was.attempts, merchant := was.merchant) == was
  {
    if Sound(db.View(), t) { AnsweredExactly(db.View(), t, verdict, emitFails); }
    r := ApplyFound(db, table, verdict, e, t, emitFails);
  }

  method ApplyFound(db: Tables, table: EventTable, verdict: TxStatus, e: EventId, t: TxId, emitFails: bool) returns (r: Reply)
    requires e in table.events && t in db.txs
    modifies db, table
    ensures table.events == old(table.events)[e := EventAfter(old(table.events)[e], r, Some(old(db.txs)[t].merchant))]
    ensures Sound(old(db.View()), t) ==>
      db.View() == VerdictEffect(old(db.View()), t, verdict, None) && r == ReplyTo(old(db.View()), t, verdict, emitFails)
  {
    if table.events[e].merchant.None? { table.AssignMerchant(e, db.txs[t].merchant); }
    if verdict.Ignored? {
      table.MarkProcessed(e);
      return Done;
    }
    var wasSucceeded := db.txs[t].status.Succeeded?;
    var error := Mutate(db, t, verdict);
    if error.Some? {
      table.MarkFailed(e);
      return Threw(error.value);
    }
    table.MarkProcessed(e);
    if emitFails && !(verdict.Succeeded? && wasSucceeded) {
      table.MarkFailed(e);
      return Threw(ProviderError);
    }
    r := Done;
  }

  /** What one delivery does to the event table and the ledger: only an event that waits or failed is claimed and handled. */
  ghost predicate Received(l: Ledger, was: map<EventId, Event>, q: Parsed, emitFails: bool,
                           r: Reply, e: EventId, l': Ledger, events: map<EventId, Event>)
  {
    var before := if e in was then was[e] else NewEvent(q);
    && e in events && SameEvent(events[e], q.provider, q.eventId) && events == was[e := events[e]]
    && (if before.status.Processed? || before.status.Processing? then
          r == (if before.status.Processed? then Replayed else NotClaimed) && l' == l && events == was
        else LedgerInv(l) ==> Handled(l, q, before, emitFails, r, l', events[e]))
  }

  /**
   * A delivery from end to end, in columns. The event stored is the one delivered. Of the ledger
   * only a row with the event's provider and reference, and that row's intent, can change. An
   * event answered as done leaves no such row open that it decides; one that is not is tried again.
   */
  ghost predicate Settles(l: Ledger, was: map<EventId, Event>, q: Parsed, r: Reply, e: EventId, l': Ledger, events: map<EventId, Event>)
  {
    && e in events && events[e].provider == q.provider && events[e].eventId == q.eventId
    && (e !in was ==>
          && (forall x :: x in was ==> !(was[x].provider == q.provider && was[x].eventId == q.eventId))
          && events[e].reference == q.reference && events[e].eventType == q.eventType && events[e].payload == q.payload
          && (r.Done? || r.NotFound? || r.Threw?))
    && (r.Replayed? <==> e in was && was[e].status == EventStatus.Processed)
    && (r.NotClaimed? <==> e in was && was[e].status == EventStatus.Processing)
    && (r.Replayed? || r.NotClaimed? ==> l' == l && events == was)
    && (!r.Replayed? && !r.NotClaimed? ==>
          && events[e].status == (if r.Done? then EventStatus.Processed else EventStatus.Failed)
          && events[e].attempts == (if e in was then was[e].attempts else 0) + (if r.Done? then 0 else 1))
    && (LedgerInv(l) && !r.Replayed? && !r.NotClaimed? ==> Decided(l, q, r, l'))
  }

  ghost predicate Decided(l: Ledger, q: Parsed, r: Reply, l': Ledger)
  {
    var named := q.reference != None && exists t :: t in l.txs && l.txs[t].provider == q.provider && l.txs[t].reference == q.reference;
    && (r.NotFound? <==> !named)
    && (!named ==> l' == l)
    && (named ==> exists t :: t in l.txs && DecidedAt(l, q, r, t, l'))
  }

  ghost predicate DecidedAt(l: Ledger, q: Parsed, r: Reply, t: TxId, l': Ledger)
    requires t in l.txs
  {
    var row := l.txs[t];
    var open := row.status in {TxStatus.Pending, RequiresAction};
    && row.provider == q.provider && row.reference == q.reference
    && t in l'.txs && row.intentId in l.intents && row.intentId in l'.intents
    && l'.txs == l.txs[t := l'.txs[t]] && l'.intents == l.intents[row.intentId := l'.intents[row.intentId]]
    && (r.Done? && q.status in {TxStatus.Succeeded, TxStatus.Failed, TxStatus.Cancelled, TxStatus.Expired} ==>
          l'.txs[t].status == if open then q.status else row.status)
    && (r == Threw(OverpaymentRejected) <==>
          q.status == TxStatus.Succeeded && open && l.intents[row.intentId].remaining < row.amount)
  }

  lemma VerdictDecides(l: Ledger, q: Parsed, t: TxId, emitFails: bool)
    requires Sound(l, t) && l.txs[t].provider == q.provider && l.txs[t].reference == q.reference
    ensures DecidedAt(l, q, ReplyTo(l, t, q.status, emitFails), t, VerdictEffect(l, t, q.status, None))
  {
    VerdictColumns(l, t, q.status, None);
    AnsweredExactly(l, t, q.status, emitFails);
  }

  lemma HandledDecides(l: Ledger, q: Parsed, before: Event, emitFails: bool, r: Reply, l': Ledger, after: Event)
    requires LedgerInv(l) && Handled(l, q, before, emitFails, r, l', after)
    ensures Decided(l, q, r, l')
    ensures !r.Replayed? && !r.NotClaimed? && (r.Done? || r.NotFound? || r.Threw?)
    ensures after.status == (if r.Done? then EventStatus.Processed else EventStatus.Failed)
    ensures after.attempts == before.attempts + (if r.Done? then 0 else 1)
  {
    if Known(l, q.provider, q.reference) {
      var t :| Names(l, t, q.provider, q.reference) && l' == VerdictEffect(l, t, q.status, None)
        && r == ReplyTo(l, t, q.status, emitFails) && after == EventAfter(before, r, Some(l.txs[t].merchant));
      InvMakesSound(l, t);
      VerdictDecides(l, q, t, emitFails);
    } else if q.reference != None {
      assert forall t :: t in l.txs ==> !Names(l, t, q.provider, q.reference);
    }
  }

  lemma ReceivedSettles(l: Ledger, was: map<EventId, Event>, q: Parsed, emitFails: bool, r: Reply, e: EventId, l': Ledger, events: map<EventId, Event>)
    requires LedgerInv(l) && Received(l, was, q, emitFails, r, e, l', events)
    requires e in was || forall x :: x in was ==> !SameEvent(was[x], q.provider, q.eventId)
    ensures Settles(l, was, q, r, e, l', events)
  {
    var before := if e in was then was[e] else NewEvent(q);
    if !before.status.Processed? && !before.status.Processing? {
      HandledDecides(l, q, before, emitFails, r, l', events[e]);
    }
  }

  /** Reserve and claim: refused when the event is done, or somebody else is at it. */
  method Claim(table: EventTable, q: Parsed, id: EventId) returns (refused: Option<Reply>, e: EventId)
    requires id !in table.events && EventsUnique(table.events)
    modifies table
    ensures EventsUnique(table.events)
    ensures e in old(table.events) || (e == id && forall x :: x in old(table.events) ==> !SameEvent(old(table.events)[x], q.provider, q.eventId))
    ensures var before := if e in old(table.events) then old(table.events)[e] else NewEvent(q);
      && SameEvent(before, q.provider, q.eventId)
      && refused == (if before.status.Processed? then Some(Replayed) else if before.status.Processing? then Some(NotClaimed) else None)
      && table.events == (if refused.Some? then old(table.events) else old(table.events)[e := before.(status := EventStatus.Processing)])
      && (refused.Some? ==> e in old(table.events))
  {
    var reserved;
    e, reserved := table.ReserveEventOrGet(id, q);
    if !reserved && table.events[e].status.Processed? { return Some(Replayed), e; }
    var claimed := table.ClaimForProcessing(e);
    refused := if claimed then None else Some(NotClaimed);
  }

  lemma StaysUnique(events: map<EventId, Event>, e: EventId, changed: Event)
    requires EventsUnique(events) && e in events && SameEvent(changed, events[e].provider, events[e].eventId)
    ensures EventsUnique(events[e := changed])
  {
  }

  /** From the claim on: the event keeps its name, and what it was before the claim is what counts. */
  lemma HandledIsReceived(l: Ledger, was: map<EventId, Event>, q: Parsed, emitFails: bool, r: Reply, e: EventId, l': Ledger,
                          claimed: map<EventId, Event>, events: map<EventId, Event>)
    requires var before := if e in was then was[e] else NewEvent(q);
      && SameEvent(before, q.provider, q.eventId) && !before.status.Processed? && !before.status.Processing?
      && claimed == was[e := before.(status := EventStatus.Processing)]
    requires e in events && events == claimed[e := events[e]]
    requires SameEvent(events[e], claimed[e].provider, claimed[e].eventId)
    requires LedgerInv(l) ==> Handled(l, q, claimed[e], emitFails, r, l', events[e])
    ensures Received(l, was, q, emitFails, r, e, l', events)
  {
    var before := if e in was then was[e] else NewEvent(q);
    assert forall owner :: EventAfter(claimed[e], r, owner) == EventAfter(before, r, owner);
  }

  method HandleParsed(db: Tables, table: EventTable, q: Parsed, id: EventId, emitFails: bool) returns (r: Reply, e: EventId)
    requires id !in table.events && EventsUnique(table.events)
    modifies db, table
    ensures EventsUnique(table.events) && (e in old(table.events) || e == id)
    ensures Received(old(db.View()), old(table.events), q, emitFails, r, e, db.View(), table.events)
    ensures LedgerInv(old(db.View())) ==> Settles(old(db.View()), old(table.events), q, r, e, db.View(), table.events)
  {
    ghost var l, was := db.View(), table.events;
    var refused;
    refused, e := Claim(table, q, id);
    if refused.Some? {
      r := refused.value;
    } else {
      ghost var claimed := table.events;
      r := HandleClaimed(db, table, q, e, emitFails);
      StaysUnique(claimed, e, table.events[e]);
      HandledIsReceived(l, was, q, emitFails, r, e, db.View(), claimed, table.events);
    }
    if LedgerInv(l) { ReceivedSettles(l, was, q, emitFails, r, e, db.View(), table.events); }
  }

  method HandleProviderWebhook(db: Tables, table: EventTable, parsed: Option<Parsed>, id: EventId, emitFails: bool)
    returns (r: Reply, e: EventId)
    requires id !in table.events && EventsUnique(table.events)
    modifies db, table
    ensures EventsUnique(table.events) && (e in old(table.events) || e == id)
    ensures if parsed.None? then r.Unsupported? && db.View() == old(db.View()) && table.events == old(table.events)
      else
        && Received(old(db.View()), old(table.events), parsed.value, emitFails, r, e, db.View(), table.events)
        && (LedgerInv(old(db.View())) ==> Settles(old(db.View()), old(table.events), parsed.value, r, e, db.View(), table.events))
  {
    if parsed.None? { return Unsupported, id; }
    r, e := HandleParsed(db, table, parsed.value, id, emitFails);
  }

  // ----- ReprocessProviderEvents -----

  /** What applying a stored event does, and whether it ends in the exception that marks it failed. */
  ghost predicate ReplaysTo(l: Ledger, e: Event, error: bool, l': Ledger)
  {
    var verdict, reference := CoercedStatus(e.payload), CoercedReference(e.reference, e.payload);
    if verdict.Ignored? || !Known(l, e.provider, reference) then l' == l && (error <==> !verdict.Ignored?)
    else exists t ::
      && Names(l, t, e.provider, reference)
      && l' == VerdictEffect(l, t, verdict, None) && (error <==> verdict.Succeeded? && Overpays(l, t))
  }

  /** In the terms of the webhook: the same kind of delivery, of the status and reference the job reads. */
  lemma ReplayIsDelivery(l: Ledger, e: Event, error: bool, l': Ledger)
    requires ReplaysTo(l, e, error, l')
    ensures Delivered(l, e.provider, CoercedReference(e.reference, e.payload), CoercedStatus(e.payload), l')
  {
    var verdict, reference := CoercedStatus(e.payload), CoercedReference(e.reference, e.payload);
    if verdict.Ignored? && Known(l, e.provider, reference) {
      var t :| t in l.txs && Names(l, t, e.provider, reference);
      assert l == VerdictEffect(l, t, verdict, None);
    }
  }

  method ReplayParsedEvent(db: Tables, e: Event) returns (error: bool)
    modifies db
    ensures LedgerInv(old(db.View())) ==> ReplaysTo(old(db.View()), e, error, db.View())
  {
    var verdict := CoercedStatus(e.payload);
    var reference := CoercedReference(e.reference, e.payload);
    if verdict.Ignored? { return false; }
    if reference.None? { return true; }
    var t := db.FindByProviderReference(e.provider, reference.value);
    if t.None? { return true; }
    Reaches(db.View(), t.value, e.provider, reference, verdict);
    error := false;
    if verdict.Succeeded? {
      var failed := ReplaySucceeded(db, t.value, Never);
      error := failed.Some?;
    } else if verdict.Failed? || verdict.Cancelled? || verdict.Expired? {
      if !ReplayTerminal(db.txs[t.value].status) {
        var closed := db.UpdateStatus(t.value, db.txs[t.value].merchant, TxChange(verdict, None, None));
        error := closed.Err?;
      }
    }
  }

  datatype Progress = Applied | Skipped | GaveUp

  datatype Detail = Detail(id: EventId, progress: Progress)

  datatype Report = Report(processed: nat, skipped: nat, failed: nat, details: seq<Detail>)

  function Count(details: seq<Detail>, p: Progress): nat
  {
    if details == [] then 0 else Count(details[..|details| - 1], p) + (if details[|details| - 1].progress == p then 1 else 0)
  }

  lemma CountOneMore(details: seq<Detail>, d: Detail)
    ensures forall p :: Count(details + [d], p) == Count(details, p) + (if d.progress == p then 1 else 0)
  {
    assert (details + [d])[..|details|] == details;
  }

  ghost function Those(details: seq<Detail>, p: Progress): set<nat> { set k | 0 <= k < |details| && details[k].progress == p }

  lemma {:induction false} CountIsHowMany(details: seq<Detail>, p: Progress)
    ensures Count(details, p) == |Those(details, p)|
  {
    if details != [] {
      var some, last := details[..|details| - 1], |details| - 1;
      CountIsHowMany(some, p);
      OneMoreOfThose(some, details[last], p);
      assert details == some + [details[last]];
    }
  }

  lemma OneMoreOfThose(details: seq<Detail>, d: Detail, p: Progress)
    ensures |Those(details + [d], p)| == |Those(details, p)| + (if d.progress == p then 1 else 0)
  {
    var more := details + [d];
    assert more[|details|] == d;
    assert forall k :: 0 <= k < |details| ==> more[k] == details[k];
    assert Those(more, p) == Those(details, p) + (if d.progress == p then {|details|} else {});
  }

  predicate Supported(p: Provider) { p.FakeGateway? || p.XenditSandbox? }

  /** The event after the job has been through it, and what the report says of it. */
  predicate Tells(d: Detail, before: Event, after: Event)
  {
    match d.progress
    case Skipped => !Supported(before.provider) && after == before
    case Applied => Supported(before.provider) && after == before.(status := EventStatus.Processed)
    case GaveUp => Supported(before.provider) && after == before.(status := EventStatus.Failed, attempts := before.attempts + 1)
  }

  /** One event's turn: applied to the ledger as its payload says, or passed over. */
  ghost predicate Turn(l: Ledger, before: Event, d: Detail, l': Ledger)
  {
    if Supported(before.provider) then ReplaysTo(l, before, d.progress.GaveUp?, l') else l' == l
  }

  /**
   * The turn of an event in columns. Nothing happens where the provider is not supported, where
   * the payload is to be ignored, and where the job gives up. It gives up on an event to be
   * applied exactly when no row has the reference, or a success does not fit; otherwise the row
   * is left as the webhook would have left it.
   */
  lemma TurnDecides(l: Ledger, before: Event, d: Detail, l': Ledger)
    requires LedgerInv(l) && Turn(l, before, d, l')
    ensures var status, reference := CoercedStatus(before.payload), CoercedReference(before.reference, before.payload);
      && (before.provider == Manual || status == TxStatus.Ignored || d.progress == GaveUp ==> l' == l)
      && (before.provider != Manual && status == TxStatus.Ignored ==> d.progress != GaveUp)
      && (before.provider != Manual && status != TxStatus.Ignored ==>
            exists r ::
              && Decided(l, Parsed(before.provider, before.eventId, reference, before.eventType, status, before.payload), r, l')
              && (d.progress == GaveUp <==> r == NotFound || r == Threw(OverpaymentRejected))
              && (d.progress != GaveUp <==> r == Done))
  {
    var status, reference := CoercedStatus(before.payload), CoercedReference(before.reference, before.payload);
    var q := Parsed(before.provider, before.eventId, reference, before.eventType, status, before.payload);
    if before.provider != Manual && status != TxStatus.Ignored {
      if Known(l, before.provider, reference) {
        var t :| Names(l, t, before.provider, reference) && l' == VerdictEffect(l, t, status, None)
          && (d.progress.GaveUp? <==> status.Succeeded? && Overpays(l, t));
        InvMakesSound(l, t);
        VerdictColumns(l, t, status, None);
        VerdictDecides(l, q, t, false);
        var r := ReplyTo(l, t, status, false);
        assert Decided(l, q, r, l');
      } else {
        assert reference != None ==> forall t :: t in l.txs ==> !Names(l, t, before.provider, reference);
        assert Decided(l, q, NotFound, l');
      }
    }
  }

  /**
   * `stale` are the waiting and failed events the query returned. `ledgers` are the states the
   * job goes through, one event after the other.
   */
  method ReprocessProviderEvents(db: Tables, table: EventTable, stale: seq<EventId>)
    returns (r: Report, ghost ledgers: seq<Ledger>)
    requires forall k :: 0 <= k < |stale| ==> stale[k] in table.events
    requires forall k :: 0 <= k < |stale| ==> table.events[stale[k]].status.Pending? || table.events[stale[k]].status.Failed?
    requires forall j, k :: 0 <= j < k < |stale| ==> stale[j] != stale[k]
    modifies db, table
    ensures |r.details| == |stale|
    ensures r.processed == |Those(r.details, Applied)| && r.skipped == |Those(r.details, Skipped)| && r.failed == |Those(r.details, GaveUp)|
    ensures table.events.Keys == old(table.events).Keys
    ensures forall k :: 0 <= k < |stale| ==>
      && r.details[k].id == stale[k] && Tells(r.details[k], old(table.events)[stale[k]], table.events[stale[k]])
      && (r.details[k].progress == Skipped <==> old(table.events)[stale[k]].provider == Manual)
      && (r.details[k].progress == Applied ==> table.events[stale[k]].status == EventStatus.Processed)
      && (r.details[k].progress == GaveUp ==>
            && table.events[stale[k]].status == EventStatus.Failed
            && table.events[stale[k]].attempts == old(table.events)[stale[k]].attempts + 1)
    ensures forall e :: e in table.events && e !in stale ==> table.events[e] == old(table.events)[e]
    ensures |ledgers| == |stale| + 1 && ledgers[0] == old(db.View()) && ledgers[|stale|] == db.View()
    ensures LedgerInv(old(db.View())) ==>
      && SoFar(old(db.View()), db.View())
      && forall k :: 0 <= k < |stale| ==> Turn(ledgers[k], old(table.events)[stale[k]], r.details[k], ledgers[k + 1])
  {
    r := Report(0, 0, 0, []);
    ghost var l0, was := db.View(), table.events;
    ledgers := [l0];
    for k := 0 to |stale|
      invariant SoFar(l0, db.View())
      invariant |r.details| == k && CountsAgree(r)
      invariant |ledgers| == k + 1 && ledgers[0] == l0 && ledgers[k] == db.View()
      invariant LedgerInv(l0) ==> Turns(ledgers, was, stale, r.details)
      invariant Told(r.details, was, stale, table.events)
    {
      ghost var events := table.events;
      var progress := ReprocessOne(db, table, stale[k], l0);
      OneMoreTold(r.details, was, stale, events, Detail(stale[k], progress), table.events);
      if LedgerInv(l0) { OneMoreTurn(ledgers, was, stale, r.details, Detail(stale[k], progress), db.View()); }
      r := Counted(r, Detail(stale[k], progress));
      ledgers := ledgers + [db.View()];
    }
    CountIsHowMany(r.details, Applied);
    CountIsHowMany(r.details, Skipped);
    CountIsHowMany(r.details, GaveUp);
  }

  ghost predicate Turns(ledgers: seq<Ledger>, was: map<EventId, Event>, stale: seq<EventId>, details: seq<Detail>)
  {
    && |details| <= |stale| && |ledgers| == |details| + 1
    && forall j :: 0 <= j < |details| ==> stale[j] in was && Turn(ledgers[j], was[stale[j]], details[j], ledgers[j + 1])
  }

  lemma OneMoreTurn(ledgers: seq<Ledger>, was: map<EventId, Event>, stale: seq<EventId>, details: seq<Detail>, d: Detail, l': Ledger)
    requires Turns(ledgers, was, stale, details) && |details| < |stale| && stale[|details|] in was
    requires Turn(ledgers[|details|], was[stale[|details|]], d, l')
    ensures Turns(ledgers + [l'], was, stale, details + [d])
  {
  }

  /** As far as `details` go the events are as they tell; all others are as they were. */
  ghost predicate Told(details: seq<Detail>, was: map<EventId, Event>, stale: seq<EventId>, events: map<EventId, Event>)
  {
    && |details| <= |stale| && events.Keys == was.Keys
    && (forall j :: 0 <= j < |stale| ==> stale[j] in was)
    && (forall j :: 0 <= j < |details| ==> details[j].id == stale[j] && Tells(details[j], was[stale[j]], events[stale[j]]))
    && (forall j :: |details| <= j < |stale| ==> events[stale[j]] == was[stale[j]])
    && (forall e :: e in was && e !in stale ==> events[e] == was[e])
  }

  lemma OneMoreTold(details: seq<Detail>, was: map<EventId, Event>, stale: seq<EventId>, events: map<EventId, Event>,
                    d: Detail, events': map<EventId, Event>)
    requires Told(details, was, stale, events) && |details| < |stale| && d.id == stale[|details|]
    requires forall j, k :: 0 <= j < k < |stale| ==> stale[j] != stale[k]
    requires d.id in events' && events' == events[d.id := events'[d.id]] && Tells(d, was[d.id], events'[d.id])
    ensures Told(details + [d], was, stale, events')
  {
  }

  predicate CountsAgree(r: Report)
  {
    r.processed == Count(r.details, Applied) && r.skipped == Count(r.details, Skipped) && r.failed == Count(r.details, GaveUp)
  }

  method Counted(r: Report, d: Detail) returns (r': Report)
    requires CountsAgree(r)
    ensures CountsAgree(r') && r'.details == r.details + [d]
  {
    CountOneMore(r.details, d);
    match d.progress {
      case Applied => r' := r.(processed := r.processed + 1, details := r.details + [d]);
      case Skipped => r' := r.(skipped := r.skipped + 1, details := r.details + [d]);
      case GaveUp => r' := r.(failed := r.failed + 1, details := r.details + [d]);
    }
  }

  /** From `l0` on the invariant has been kept and nothing taken back. */
  ghost predicate SoFar(l0: Ledger, l: Ledger) { LedgerInv(l0) ==> LedgerInv(l) && Grows(l0, l) }

  method ReprocessOne(db: Tables, table: EventTable, e: EventId, ghost l0: Ledger) returns (progress: Progress)
    requires e in table.events
    requires SoFar(l0, db.View())
    modifies db, table
    ensures SoFar(l0, db.View())
    ensures e in table.events && table.events == old(table.events)[e := table.events[e]]
    ensures Tells(Detail(e, progress), old(table.events)[e], table.events[e])
    ensures LedgerInv(l0) ==> Turn(old(db.View()), old(table.events)[e], Detail(e, progress), db.View())
  {
    if !Supported(table.events[e].provider) { return Skipped; }
    ghost var l := db.View();
    var error := ReplayParsedEvent(db, table.events[e]);
    if LedgerInv(l0) { ReplayStep(l0, l, table.events[e], error, db.View()); }
    if error {
      table.MarkFailed(e);
      progress := GaveUp;
    } else {
      table.MarkProcessed(e);
      progress := Applied;
    }
  }

  lemma DeliveredKeepsInv(l: Ledger, p: Provider, reference: Option<Reference>, verdict: TxStatus, l': Ledger)
    requires LedgerInv(l) && Delivered(l, p, reference, verdict, l')
    ensures LedgerInv(l') && Grows(l, l')
  {
    if Known(l, p, reference) {
      var t :| Names(l, t, p, reference) && l' == VerdictEffect(l, t, verdict, None);
      VerdictKeepsInv(l, t, verdict, None);
      VerdictGrows(l, t, verdict, None);
    }
  }

  lemma ReplayStep(l0: Ledger, l: Ledger, e: Event, error: bool, l': Ledger)
    requires LedgerInv(l) && Grows(l0, l) && ReplaysTo(l, e, error, l')
    ensures LedgerInv(l') && Grows(l0, l')
  {
    ReplayIsDelivery(l, e, error, l');
    DeliveredKeepsInv(l, e.provider, CoercedReference(e.reference, e.payload), CoercedStatus(e.payload), l');
    GrowsTransitive(l0, l, l');
  }

  // ----- redelivery -----

  /**
   * However much has happened since, delivering a verdict once more changes nothing, provided
   * the first delivery closed the row. A processed event that went back to failed is harmless.
   */
  lemma RedeliveryIsHarmless(l: Ledger, t: TxId, verdict: TxStatus, later: Ledger, again: TxStatus)
    requires LedgerInv(l) && t in l.txs && Decisive(verdict)
    requires !(verdict.Succeeded? && Overpays(l, t))
    requires Grows(VerdictEffect(l, t, verdict, None), later)
    ensures VerdictEffect(later, t, again, None) == later
  {
    InvMakesSound(l, t);
  }

  // ----- the stored payload and the webhook -----

  /** What the webhook does with a payload, and what the job does with the event stored for it. */
  ghost predicate Agree(p: Payload, q: Parsed)
  {
    forall l, a, b ::
      && LedgerInv(l) && IndexesHold(l)
      && Delivered(l, q.provider, q.reference, q.status, a)
      && Delivered(l, q.provider, CoercedReference(q.reference, p), CoercedStatus(p), b)
      ==> a == b
  }

  lemma OneRowPerReference(l: Ledger, p: Provider, reference: Option<Reference>, t: TxId, u: TxId)
    requires IndexesHold(l) && Names(l, t, p, reference) && Names(l, u, p, reference)
    ensures t == u
  {
    assert IndexesAdmit(l, t, l.txs[t]);
  }

  lemma SameStatusRead(p: Payload)
    requires FakeGatewayParse(p).Some?
    ensures CoercedStatus(p) == FakeGatewayParse(p).value.status
  {
  }

  /** A ledger with one intent and one open payment that carries `reference`. */
  function Sample(reference: Reference): Ledger
  {
    Ledger(map[0 := NewIntent(0, 1, false, 0, None)],
           map[0 := Tx(0, 0, FakeGateway, Payment, Incoming, TxStatus.Pending, 1, 0, None, Some(reference), None, None)])
  }

  lemma SampleIsSound(reference: Reference)
    ensures LedgerInv(Sample(reference)) && IndexesHold(Sample(reference))
  {
    EmptyInv();
    var l := Ledger(map[], map[]);
    var l1 := Now(l, 0, NewIntent(0, 1, false, 0, None));
    NewIntentInv(l, 0, 0, 1, false, 0, None);
    UncountedIncomingInv(l1, 0, Sample(reference).txs[0]);
    assert l1.(txs := l1.txs[0 := Sample(reference).txs[0]]) == Sample(reference);
  }

  /** A decisive verdict that reaches the sample's row changes the ledger; one that misses it does not. */
  lemma SampleTells(hit: Option<Reference>, miss: Option<Reference>, verdict: TxStatus)
    requires hit.Some? && hit != miss && Decisive(verdict)
    ensures var l := Sample(hit.value);
      var l' := VerdictEffect(l, 0, verdict, None);
      && LedgerInv(l) && IndexesHold(l) && l' != l
      && Delivered(l, FakeGateway, hit, verdict, l') && Delivered(l, FakeGateway, miss, verdict, l)
  {
    SampleIsSound(hit.value);
    var l := Sample(hit.value);
    assert Names(l, 0, FakeGateway, hit);
    assert VerdictEffect(l, 0, verdict, None).txs[0].status == verdict;
  }

  predicate Given(p: Payload, key: string) { key in p && !p[key].JNull? }

  /**
   * When webhook and job read the same reference, in terms of the payload's members. The webhook
   * takes `provider_reference` unless it is blank. The job prefers `providerReference`, falls
   * back on `provider_ref`, and drops a reference only if it is empty.
   */
  predicate ReadsSameReference(p: Payload)
  {
    var shown := TextAt(p, "provider_reference");
    if Given(p, "providerReference") then
      if Blank(shown) then TextAt(p, "providerReference") == "" else TextAt(p, "providerReference") == shown
    else if Given(p, "provider_reference") then shown == "" || !Blank(shown)
    else TextAt(p, "provider_ref") == ""
  }

  lemma FirstReference(p: Payload)
    ensures FirstOf(p, ReferenceKeys) ==
      if Given(p, "providerReference") then Some(p["providerReference"])
      else if Given(p, "provider_reference") then Some(p["provider_reference"])
      else if Given(p, "provider_ref") then Some(p["provider_ref"]) else None
  {
    var keys := ReferenceKeys[1..];
    assert keys[0] == "provider_reference" && keys[1..][0] == "provider_ref" && keys[1..][1..] == [];
    assert FirstOf(p, keys[1..]) == if Given(p, "provider_ref") then Some(p["provider_ref"]) else None;
    assert FirstOf(p, keys) == if Given(p, "provider_reference") then Some(p["provider_reference"]) else FirstOf(p, keys[1..]);
  }

  lemma SameReferenceExactly(p: Payload)
    requires FakeGatewayParse(p).Some?
    ensures CoercedReference(FakeGatewayParse(p).value.reference, p) == FakeGatewayParse(p).value.reference <==> ReadsSameReference(p)
  {
    FirstReference(p);
    var shown := TextAt(p, "provider_reference");
    assert shown == "" ==> Blank(shown);
    var q := FakeGatewayParse(p).value;
    assert q.reference == if Blank(shown) then None else Some(shown);
    if Given(p, "providerReference") {
      assert CoercedReference(q.reference, p) == if TextAt(p, "providerReference") == "" then None else Some(TextAt(p, "providerReference"));
    } else if Given(p, "provider_reference") {
      assert CoercedReference(q.reference, p) == if shown == "" then None else Some(shown);
    } else {
      assert CoercedReference(q.reference, p) == if TextAt(p, "provider_ref") == "" then None else Some(TextAt(p, "provider_ref"));
    }
  }

  /**
   * Applying the stored payload again does what the webhook did on every ledger exactly when
   * the event decides nothing, or its members let both read the same reference.
   */
  lemma ReprocessAgreesExactly(p: Payload)
    requires FakeGatewayParse(p).Some?
    ensures var q := FakeGatewayParse(p).value;
      Agree(p, q) <==> !Decisive(q.status) || ReadsSameReference(p)
  {
    var q := FakeGatewayParse(p).value;
    SameStatusRead(p);
    SameReferenceExactly(p);
    if Decisive(q.status) && !ReadsSameReference(p) {
      if q.reference.Some? {
        SampleTells(q.reference, CoercedReference(q.reference, p), q.status);
      } else {
        SampleTells(CoercedReference(q.reference, p), q.reference, q.status);
      }
    } else {
      forall l, a, b |
        && LedgerInv(l) && IndexesHold(l)
        && Delivered(l, q.provider, q.reference, q.status, a)
        && Delivered(l, q.provider, CoercedReference(q.reference, p), CoercedStatus(p), b)
        ensures a == b
      {
        SameDelivery(l, q, CoercedReference(q.reference, p), a, b);
      }
    }
  }

  /** A payload with a member the webhook never looks at: accepted by it, and applied by the job to another payment. */
  const TwoReferences: Payload := map[
    "event_id" := JString("e"), "event_type" := JString("t"), "status" := JString("succeeded"),
    "provider_reference" := JString("a"), "providerReference" := JString("b")]

  lemma TwoReferencesParse()
    ensures FakeGatewayParse(TwoReferences) ==
      Some(Parsed(FakeGateway, "e", Some("a"), "t", TxStatus.Succeeded, TwoReferences))
    ensures !ReadsSameReference(TwoReferences)
  {
    assert !IsSpace("e"[0]) && !IsSpace("t"[0]) && !IsSpace("a"[0]);
    assert !Blank("e") && !Blank("t") && !Blank("a");
    assert Trim("e") == "e" && Trim("t") == "t";
    assert "a" != "b";
  }

  lemma TwoReferencesDisagree()
    ensures FakeGatewayParse(TwoReferences).Some? && !Agree(TwoReferences, FakeGatewayParse(TwoReferences).value)
  {
    TwoReferencesParse();
    ReprocessAgreesExactly(TwoReferences);
  }

  lemma SameDelivery(l: Ledger, q: Parsed, reference: Option<Reference>, a: Ledger, b: Ledger)
    requires IndexesHold(l) && (!Decisive(q.status) || reference == q.reference)
    requires Delivered(l, q.provider, q.reference, q.status, a) && Delivered(l, q.provider, reference, q.status, b)
    ensures a == b
  {
    if Decisive(q.status) && Known(l, q.provider, reference) {
      var t :| Names(l, t, q.provider, reference) && a == VerdictEffect(l, t, q.status, None);
      var u :| Names(l, u, q.provider, reference) && b == VerdictEffect(l, u, q.status, None);
      OneRowPerReference(l, q.provider, reference, t, u);
    }
  }

  /** The documented payload shape, a reference under `provider_reference` alone, always agrees. */
  lemma DocumentedShapeAgrees(p: Payload)
    requires FakeGatewayParse(p).Some?
    requires "providerReference" !in p && "provider_ref" !in p
    requires "provider_reference" in p && p["provider_reference"].JString? ==>
      p["provider_reference"].text == "" || !Blank(p["provider_reference"].text)
    ensures Agree(p, FakeGatewayParse(p).value)
  {
    ReprocessAgreesExactly(p);
  }
}
