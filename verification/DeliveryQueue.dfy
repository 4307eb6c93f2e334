/** Merchant webhook deliveries: the table, the worker that claims and attempts them, and replays. */
module DeliveryQueue {

  type DeliveryId = nat
  type EventId = nat
  type EndpointId = nat
  type Time = int

  datatype Status = Queued | Delivering | Succeeded | Failed | Dead

  datatype Delivery = Delivery(
    event: EventId, endpoint: EndpointId, status: Status, attemptCount: nat, maxAttempts: int,
    nextAttemptAt: Time, createdAt: Time)
  {
    predicate Claimable() { status.Queued? || status.Failed? }

    predicate Due(now: Time) { Claimable() && nextAttemptAt <= now }
  }

  // ----- what each statement does to a row -----

  function Claimed(d: Delivery): Delivery { d.(status := Delivering, attemptCount := d.attemptCount + 1) }

  const BackoffMs: seq<int> := [0, 60_000, 300_000, 900_000, 3_600_000]

  function Backoff(attempts: nat): int { BackoffMs[if attempts < |BackoffMs| - 1 then attempts else |BackoffMs| - 1] }

  function Requeued(d: Delivery, now: Time): Delivery { d.(status := Queued, nextAttemptAt := now) }

  /** What came of an attempt: no event or active endpoint to send to, an HTTP status, or an exception. */
  datatype Answer = NoTarget | Responded(code: int) | Threw
  {
    predicate Delivered() { Responded? && 200 <= code < 300 }
  }

  /**
   * The write that ends an attempt. The row is `d` by now; whether to give up, and how long
   * to back off, is decided by the copy `taken` the worker has held since its claim.
   */
  function Finished(d: Delivery, taken: Delivery, answer: Answer, now: Time): Delivery
  {
    if answer.Delivered() then d.(status := Succeeded)
    else if taken.attemptCount >= taken.maxAttempts then d.(status := Dead)
    else d.(status := Failed, nextAttemptAt := now + Backoff(taken.attemptCount))
  }

  // ----- the table -----

  /** The order of the queue: by due time, then age, then id. */
  predicate Before(rows: map<DeliveryId, Delivery>, a: DeliveryId, b: DeliveryId)
    requires a in rows && b in rows
  {
    var x, y := rows[a], rows[b];
    || x.nextAttemptAt < y.nextAttemptAt
    || (x.nextAttemptAt == y.nextAttemptAt && (x.createdAt < y.createdAt || (x.createdAt == y.createdAt && a <= b)))
  }

  datatype Claim = Claim(id: DeliveryId, delivery: Delivery)

  /** `claims` are the first due rows in queue order, at most `limit`, each as it is after its claim. */
  ghost predicate TakesFirst(rows: map<DeliveryId, Delivery>, now: Time, limit: nat, claims: seq<Claim>)
  {
    && |claims| <= limit
    && (forall k :: 0 <= k < |claims| ==>
          claims[k].id in rows && rows[claims[k].id].Due(now) && claims[k].delivery == Claimed(rows[claims[k].id]))
    && (forall j, k :: 0 <= j < k < |claims| ==> claims[j].id != claims[k].id && Before(rows, claims[j].id, claims[k].id))
    && (forall d :: d in rows && rows[d].Due(now) && (forall k :: 0 <= k < |claims| ==> claims[k].id != d) ==>
          |claims| == limit && forall k :: 0 <= k < |claims| ==> Before(rows, claims[k].id, d))
  }

  /**
   * In columns: what is claimed was queued or had failed, its time had come, and it is one attempt
   * further; claims come by due time, then age, then id, and before all that is left over.
   */
  lemma ClaimsExactly(rows: map<DeliveryId, Delivery>, now: Time, limit: nat, claims: seq<Claim>)
    requires TakesFirst(rows, now, limit, claims)
    ensures forall k :: 0 <= k < |claims| ==>
      var d := claims[k].id;
      && d in rows && rows[d].status in {Queued, Failed} && rows[d].nextAttemptAt <= now
      && claims[k].delivery == rows[d].(status := Delivering, attemptCount := rows[d].attemptCount + 1)
    ensures forall j, k :: 0 <= j < k < |claims| ==> Earlier(rows, claims[j].id, claims[k].id)
    ensures forall d :: d in rows && rows[d].status in {Queued, Failed} && rows[d].nextAttemptAt <= now
                        && (forall k :: 0 <= k < |claims| ==> claims[k].id != d) ==>
      |claims| == limit && forall k :: 0 <= k < |claims| ==> Earlier(rows, claims[k].id, d)
  {
    forall a, b | a in rows && b in rows && a != b && Before(rows, a, b)
      ensures Earlier(rows, a, b)
    {
    }
    forall d | d in rows && rows[d].status in {Queued, Failed} && rows[d].nextAttemptAt <= now
               && (forall k :: 0 <= k < |claims| ==> claims[k].id != d)
      ensures |claims| == limit && forall k :: 0 <= k < |claims| ==> Earlier(rows, claims[k].id, d)
    {
      assert rows[d].Due(now);
    }
  }

  /** Strictly before, column after column. */
  predicate Earlier(rows: map<DeliveryId, Delivery>, a: DeliveryId, b: DeliveryId)
  {
    && a in rows && b in rows && rows[a].nextAttemptAt <= rows[b].nextAttemptAt
    && (rows[a].nextAttemptAt == rows[b].nextAttemptAt ==>
          rows[a].createdAt <= rows[b].createdAt && (rows[a].createdAt == rows[b].createdAt ==> a < b))
  }

  ghost function ClaimIds(claims: seq<Claim>): set<DeliveryId> { set k | 0 <= k < |claims| :: claims[k].id }

  /** Part of the way: `claims` come before all that is `left` of the due rows. */
  ghost predicate Partly(rows: map<DeliveryId, Delivery>, due: set<DeliveryId>, claims: seq<Claim>, left: set<DeliveryId>)
    requires due <= rows.Keys
  {
    && left <= due
    && (forall d :: d in due ==> (d in left <==> d !in ClaimIds(claims)))
    && (forall k :: 0 <= k < |claims| ==> claims[k].id in due && claims[k].delivery == Claimed(rows[claims[k].id]))
    && (forall j, k :: 0 <= j < k < |claims| ==> claims[j].id != claims[k].id && Before(rows, claims[j].id, claims[k].id))
    && (forall k, d :: 0 <= k < |claims| && d in left ==> Before(rows, claims[k].id, d))
  }

  lemma TakeOne(rows: map<DeliveryId, Delivery>, due: set<DeliveryId>, claims: seq<Claim>, left: set<DeliveryId>, d: DeliveryId)
    requires due <= rows.Keys && Partly(rows, due, claims, left)
    requires d in left && forall u :: u in left ==> Before(rows, d, u)
    ensures Partly(rows, due, claims + [Claim(d, Claimed(rows[d]))], left - {d})
  {
    OneMoreId(claims, Claim(d, Claimed(rows[d])));
    assert forall k :: 0 <= k < |claims| ==> claims[k].id in ClaimIds(claims);
  }

  class DeliveryTable {
    var rows: map<DeliveryId, Delivery>

    constructor ()
      ensures rows == map[]
    {
      rows := map[];
    }

    /** The earliest of a set of rows. */
    method Earliest(ids: set<DeliveryId>) returns (first: DeliveryId)
      requires ids != {} && ids <= rows.Keys
      ensures first in ids && forall d :: d in ids ==> Before(rows, first, d)
    {
      first :| first in ids;
      var rest := ids - {first};
      while rest != {}
        invariant rest <= ids && first in ids
        invariant forall d :: d in ids && d !in rest ==> Before(rows, first, d)
        decreases |rest|
      {
        var d :| d in rest;
        if !Before(rows, first, d) { first := d; }
        rest := rest - {d};
      }
    }

    /** The first due rows, in order, at most `limit`; `left` are the others. */
    method PickDue(due: set<DeliveryId>, now: Time, limit: nat) returns (claims: seq<Claim>, left: set<DeliveryId>)
      requires forall d :: d in due <==> d in rows && rows[d].Due(now)
      ensures TakesFirst(rows, now, limit, claims)
      ensures left <= due && forall d :: d in due ==> (d in left <==> d !in ClaimIds(claims))
    {
      claims, left := [], due;
      while left != {} && |claims| < limit
        invariant |claims| <= limit && Partly(rows, due, claims, left)
        decreases |left|
      {
        var d := Earliest(left);
        TakeOne(rows, due, claims, left, d);
        claims := claims + [Claim(d, Claimed(rows[d]))];
        left := left - {d};
      }
    }

    /** One statement: the first due rows are locked, counted and handed out. */
    method ClaimDue(now: Time, limit: int) returns (claims: seq<Claim>)
      modifies this
      ensures TakesFirst(old(rows), now, if 0 < limit then limit else 0, claims)
      ensures rows.Keys == old(rows).Keys
      ensures forall d :: d in rows ==>
        rows[d] == if d in ClaimIds(claims) then Claimed(old(rows)[d]) else old(rows)[d]
    {
      claims := [];
      if limit <= 0 { return; }
      var due := set d | d in rows && rows[d].Due(now);
      var left;
      claims, left := PickDue(due, now, limit);
      assert forall d :: d in ClaimIds(claims) ==> d in due;
      rows := map d | d in rows :: if d in due && d !in left then Claimed(rows[d]) else rows[d];
    }

    method Finish(d: DeliveryId, taken: Delivery, answer: Answer, now: Time)
      requires d in rows
      modifies this
      ensures rows == old(rows)[d := Finished(old(rows)[d], taken, answer, now)]
    {
      if answer.Delivered() {
        MarkSucceeded(d);
      } else {
        Fail(d, taken, now);
      }
    }

    method MarkSucceeded(d: DeliveryId)
      requires d in rows
      modifies this
      ensures rows == old(rows)[d := old(rows)[d].(status := Succeeded)]
    {
      rows := rows[d := rows[d].(status := Succeeded)];
    }

    /** Give up, or try again later. */
    method Fail(d: DeliveryId, taken: Delivery, now: Time)
      requires d in rows
      modifies this
      ensures rows == old(rows)[d := Finished(old(rows)[d], taken, Threw, now)]
      ensures d in rows && rows[d].status == if taken.attemptCount < taken.maxAttempts then Failed else Dead
    {
      if taken.attemptCount >= taken.maxAttempts {
        rows := rows[d := rows[d].(status := Dead)];
      } else {
        var backoff := BackoffMs[if taken.attemptCount < |BackoffMs| - 1 then taken.attemptCount else |BackoffMs| - 1];
        rows := rows[d := rows[d].(status := Failed, nextAttemptAt := now + backoff)];
      }
    }

    /** A replay of one delivery: unconditional, from any status; an unknown delivery is an error. */
    method Requeue(d: DeliveryId, now: Time) returns (found: bool)
      modifies this
      ensures found <==> d in old(rows)
      ensures rows == if found then old(rows)[d := Requeued(old(rows)[d], now)] else old(rows)
      // due at once, its attempts still counted
      ensures found ==> d in rows && rows[d].status == Queued && rows[d].nextAttemptAt == now && rows[d].attemptCount == old(rows)[d].attemptCount
    {
      found := d in rows;
      if found { rows := rows[d := rows[d].(status := Queued, nextAttemptAt := now)]; }
    }
  }

  // ----- DeliverMerchantWebhooks -----

  /** Where one run of the worker takes a row it claimed. */
  function Attempted(d: Delivery, answer: Answer, now: Time): Delivery
  {
    Finished(Claimed(d), Claimed(d), answer, now)
  }

  /** How long a delivery waits after its n-th counted attempt. */
  function WaitAfter(n: nat): int
  {
    match n
    case 0 => 0
    case 1 => 60_000
    case 2 => 300_000
    case 3 => 900_000
    case _ => 3_600_000
  }

  /**
   * An attempt in columns: counted, and succeeded exactly on an answer in the two hundreds, dead
   * when the limit is reached, and failed until the wait for its count is over otherwise.
   */
  lemma AttemptedColumns(d: Delivery, answer: Answer, now: Time)
    ensures var a := Attempted(d, answer, now);
      var delivered := answer.Responded? && 200 <= answer.code <= 299;
      && a == d.(status := a.status, attemptCount := d.attemptCount + 1, nextAttemptAt := a.nextAttemptAt)
      && a.status == (if delivered then Succeeded else if d.attemptCount + 1 < d.maxAttempts then Failed else Dead)
      && a.nextAttemptAt == (if a.status.Failed? then now + WaitAfter(d.attemptCount + 1) else d.nextAttemptAt)
  {
  }

  /**
   * One run of the worker, alone. `readable` says whether a delivery's secret can be decrypted
   * and its body signed: that happens before the guarded part of an attempt, so a failure ends
   * the run. The rows before it are attempted, each once; it and the rest stay as claimed.
   */
  method Deliver(table: DeliveryTable, now: Time, limit: int, answers: DeliveryId -> Answer, readable: DeliveryId -> bool)
    returns (processed: nat, claims: seq<Claim>)
    modifies table
    ensures TakesFirst(old(table.rows), now, if 0 < limit then limit else 0, claims)
    ensures UpToUnreadable(claims, processed, answers, readable)
    ensures processed <= |claims| && forall k :: 0 <= k < processed ==> answers(claims[k].id) == NoTarget || readable(claims[k].id)
    ensures processed < |claims| ==> answers(claims[processed].id) != NoTarget && !readable(claims[processed].id)
    ensures table.rows.Keys == old(table.rows).Keys
    ensures forall d :: d in table.rows ==>
      table.rows[d] ==
        if d in ClaimIds(claims[..processed]) then Attempted(old(table.rows)[d], answers(d), now)
        else if d in ClaimIds(claims) then Claimed(old(table.rows)[d])
        else old(table.rows)[d]
  {
    claims := table.ClaimDue(now, limit);
    processed := AttemptAll(table, claims, now, answers, readable, table.rows);
    assert forall d :: d in ClaimIds(claims[..processed]) ==> d in ClaimIds(claims);
  }

  /** The attempt needs the secret, which cannot be read. */
  predicate Ends(c: Claim, answers: DeliveryId -> Answer, readable: DeliveryId -> bool)
  {
    !answers(c.id).NoTarget? && !readable(c.id)
  }

  predicate UpToUnreadable(claims: seq<Claim>, processed: nat, answers: DeliveryId -> Answer, readable: DeliveryId -> bool)
  {
    && processed <= |claims|
    && (forall k :: 0 <= k < processed ==> !Ends(claims[k], answers, readable))
    && (processed < |claims| ==> Ends(claims[processed], answers, readable))
  }

  method AttemptAll(table: DeliveryTable, claims: seq<Claim>, now: Time, answers: DeliveryId -> Answer,
                    readable: DeliveryId -> bool, ghost was: map<DeliveryId, Delivery>)
    returns (processed: nat)
    requires table.rows == was
    requires forall k :: 0 <= k < |claims| ==> claims[k].id in was && claims[k].delivery == was[claims[k].id]
    requires forall j, k :: 0 <= j < k < |claims| ==> claims[j].id != claims[k].id
    modifies table
    ensures UpToUnreadable(claims, processed, answers, readable) && table.rows.Keys == was.Keys
    ensures forall d :: d in was ==>
      table.rows[d] == if d in ClaimIds(claims[..processed]) then Finished(was[d], was[d], answers(d), now) else was[d]
  {
    processed := 0;
    while processed < |claims| && (answers(claims[processed].id).NoTarget? || readable(claims[processed].id))
      invariant processed <= |claims| && forall k :: 0 <= k < processed ==> !Ends(claims[k], answers, readable)
      invariant table.rows.Keys == was.Keys
      invariant forall d :: d in was ==>
        table.rows[d] == if d in ClaimIds(claims[..processed]) then Finished(was[d], was[d], answers(d), now) else was[d]
    {
      var c := claims[processed];
      assert claims[..processed + 1] == claims[..processed] + [c];
      OneMoreId(claims[..processed], c);
      assert c.id !in ClaimIds(claims[..processed]);
      table.Finish(c.id, c.delivery, answers(c.id), now);
      processed := processed + 1;
    }
  }

  lemma OneMoreId(claims: seq<Claim>, c: Claim)
    ensures ClaimIds(claims + [c]) == ClaimIds(claims) + {c.id}
  {
    assert (claims + [c])[|claims|] == c;
    forall k | 0 <= k < |claims|
      ensures claims[k].id in ClaimIds(claims + [c])
    {
      assert (claims + [c])[k] == claims[k];
    }
  }
}
