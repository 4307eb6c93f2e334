/**
 * The idempotency-key protocol of gateway payments and of intent creation, for any number of
 * requests running at once over one table of keys.
 */
module Idempotency {
  import opened Domain
  import opened StableJson

  datatype Scope = GatewayPayments | IntentCreation

  /** The unique index of the key table. */
  datatype Slot = Slot(m: MerchantId, scope: Scope, key: IdempotencyKey)

  type RequestId = nat

  /** What the client asked for; its canonical text stands for its hash. */
  datatype Request = Request(slot: Slot, body: Json)

  /** The response a caller builds, by the transaction or intent it is about. */
  type Snapshot = nat

  datatype Progress = Processing | Completed(snapshot: Snapshot) | Failed

  datatype Row = Row(canonical: string, progress: Progress)

  datatype Refusal = Invalid | Conflict | InProgress | PreviouslyFailed | EffectFailed

  datatype Pc =
    | Arrived
    | Checked                          // gateway payments: the first look at the key found nothing to return
    | Reloading                        // the insert met a stored key, which is read next
    | Owner                            // the insert succeeded: the effect comes next
    | Acted(snapshot: Snapshot)        // the effect succeeded
    | Spoiled                          // the effect failed, and the failure is about to be stored
    | Returned(snapshot: Snapshot, replay: bool)
    | Refused(why: Refusal)
    | Stopped                          // crashed, or threw after the effect without storing an outcome

  /**
   * `effects` lists who called the provider, or created an intent, in order; `owners` and
   * `results` remember who inserted each key and what each effect produced. `stored` are the
   * intents that exist.
   */
  datatype Sys = Sys(
    requests: map<RequestId, Request>, pcs: map<RequestId, Pc>, table: map<Slot, Row>, stored: set<Snapshot>,
    effects: seq<RequestId>, owners: map<Slot, RequestId>, results: map<RequestId, Snapshot>)

  const Initial := Sys(map[], map[], map[], {}, [], map[], map[])

  datatype Outcome = Succeeds(snapshot: Snapshot) | Throws | ThrowsUnstored

  datatype Action =
    | Arrive(r: RequestId, request: Request)
    | Precheck(r: RequestId)
    | Reject(r: RequestId)             // a validation between the key checks fails
    | Reserve(r: RequestId)
    | Reload(r: RequestId)
    | Act(r: RequestId, outcome: Outcome)
    | Mark(r: RequestId)
    | Stop(r: RequestId)

  predicate At(s: Sys, r: RequestId) { r in s.pcs && r in s.requests }

  predicate Final(pc: Pc) { pc.Returned? || pc.Refused? || pc.Stopped? }

  ghost predicate Enabled(s: Sys, x: Action)
  {
    match x
    case Arrive(r, request) => r !in s.requests && r !in s.pcs && WellFormed(request.body)
    case Precheck(r) => At(s, r) && s.pcs[r].Arrived? && s.requests[r].slot.scope.GatewayPayments?
    case Reject(r) => At(s, r) && (s.pcs[r].Arrived? || s.pcs[r].Checked?)
    case Reserve(r) => At(s, r) && s.pcs[r] == (if s.requests[r].slot.scope.GatewayPayments? then Checked else Arrived)
    case Reload(r) => At(s, r) && s.pcs[r].Reloading? && s.requests[r].slot in s.table
    case Act(r, outcome) =>
      && At(s, r) && s.pcs[r].Owner?
      && (s.requests[r].slot.scope.IntentCreation? && outcome.Succeeds? ==> outcome.snapshot !in s.stored)
      && (outcome.Throws? ==> s.requests[r].slot.scope.GatewayPayments?)
    case Mark(r) => At(s, r) && (s.pcs[r].Acted? || s.pcs[r].Spoiled?)
    case Stop(r) => At(s, r) && !Final(s.pcs[r])
  }

  /** The first look at a key, before anything else is checked. */
  function PrecheckPc(table: map<Slot, Row>, q: Request): Pc
  {
    if q.slot !in table || table[q.slot].progress.Processing? then Checked
    else if table[q.slot].progress.Failed? then Refused(PreviouslyFailed)
    else if table[q.slot].canonical != Print(q.body) then Refused(Conflict)
    else Returned(table[q.slot].progress.snapshot, true)
  }

  /** The look at a key that could not be inserted. An intent that cannot be found is created again. */
  function ReloadPc(table: map<Slot, Row>, stored: set<Snapshot>, q: Request): Pc
    requires q.slot in table
  {
    var row := table[q.slot];
    if row.canonical != Print(q.body) then Refused(Conflict)
    else match row.progress
      case Processing => Refused(InProgress)
      case Failed => Refused(PreviouslyFailed)
      case Completed(snapshot) =>
        if q.slot.scope.IntentCreation? && snapshot !in stored then Owner else Returned(snapshot, true)
  }

  ghost function Do(s: Sys, x: Action): Sys
    requires Enabled(s, x)
  {
    match x
    case Arrive(r, request) => s.(requests := s.requests[r := request], pcs := s.pcs[r := Arrived])
    case Precheck(r) => s.(pcs := s.pcs[r := PrecheckPc(s.table, s.requests[r])])
    case Reject(r) => s.(pcs := s.pcs[r := Refused(Invalid)])
    case Reserve(r) =>
      var q := s.requests[r];
      if q.slot in s.table then s.(pcs := s.pcs[r := Reloading])
      else s.(table := s.table[q.slot := Row(Print(q.body), Processing)], owners := s.owners[q.slot := r], pcs := s.pcs[r := Owner])
    case Reload(r) => s.(pcs := s.pcs[r := ReloadPc(s.table, s.stored, s.requests[r])])
    case Act(r, outcome) =>
      var s' := s.(effects := s.effects + [r]);
      (match outcome
       case Succeeds(snapshot) =>
         s'.(pcs := s.pcs[r := Acted(snapshot)], results := s.results[r := snapshot],
             stored := if s.requests[r].slot.scope.IntentCreation? then s.stored + {snapshot} else s.stored)
       case Throws => s'.(pcs := s.pcs[r := Spoiled])
       case ThrowsUnstored => s'.(pcs := s.pcs[r := Stopped]))
    case Mark(r) =>
      var slot := s.requests[r].slot;
      if slot !in s.table then s
      else if s.pcs[r].Acted? then
        s.(table := s.table[slot := s.table[slot].(progress := Completed(s.pcs[r].snapshot))],
           pcs := s.pcs[r := Returned(s.pcs[r].snapshot, false)])
      else
        s.(table := s.table[slot := s.table[slot].(progress := Progress.Failed)], pcs := s.pcs[r := Refused(EffectFailed)])
    case Stop(r) => s.(pcs := s.pcs[r := Stopped])
  }

  // ----- the invariant -----

  /** A stored key belongs to the request that inserted it; once completed it holds that request's own result. */
  predicate SlotOk(s: Sys, slot: Slot)
    requires slot in s.table
  {
    && slot in s.owners && At(s, s.owners[slot])
    && s.requests[s.owners[slot]].slot == slot && Print(s.requests[s.owners[slot]].body) == s.table[slot].canonical
    && (s.table[slot].progress.Completed? ==>
          && s.owners[slot] in s.results && s.results[s.owners[slot]] == s.table[slot].progress.snapshot
          && (slot.scope.IntentCreation? ==> s.table[slot].progress.snapshot in s.stored))
    && (!s.table[slot].progress.Processing? ==> Final(s.pcs[s.owners[slot]]))
  }

  predicate Owns(s: Sys, r: RequestId)
    requires r in s.requests
  {
    s.requests[r].slot in s.owners && s.owners[s.requests[r].slot] == r
  }

  predicate RequestOk(s: Sys, r: RequestId)
    requires r in s.pcs && r in s.requests
  {
    var slot := s.requests[r].slot;
    match s.pcs[r]
    case Reloading => slot in s.table
    case Owner => slot in s.table && Owns(s, r) && r !in s.effects
    case Acted(snapshot) =>
      && slot in s.table && Owns(s, r) && r in s.results && s.results[r] == snapshot
      && (slot.scope.IntentCreation? ==> snapshot in s.stored)
    case Spoiled => slot in s.table && Owns(s, r)
    case Returned(snapshot, replay) =>
      slot in s.table && s.table[slot] == Row(Print(s.requests[r].body), Completed(snapshot)) && (replay || Owns(s, r))
    case _ => true
  }

  /** Still before the effect. */
  predicate Before(pc: Pc) { pc.Arrived? || pc.Checked? || pc.Reloading? || pc.Owner? }

  ghost predicate EffectsOk(s: Sys)
  {
    && (forall r :: r in s.effects ==> At(s, r) && Owns(s, r) && !Before(s.pcs[r]))
    && (forall j, k :: 0 <= j < k < |s.effects| ==> s.effects[j] != s.effects[k])
  }

  ghost predicate SlotsOk(s: Sys) { s.owners.Keys == s.table.Keys && forall slot :: slot in s.table ==> SlotOk(s, slot) }

  ghost predicate RequestsOk(s: Sys)
  {
    && s.pcs.Keys == s.requests.Keys
    && (forall r :: r in s.requests ==> WellFormed(s.requests[r].body))
    && (forall r :: r in s.pcs ==> RequestOk(s, r))
  }

  ghost predicate Inv(s: Sys) { SlotsOk(s) && RequestsOk(s) && EffectsOk(s) }

  // ----- every step keeps it -----

  /** What a request's condition depends on. */
  lemma RequestKept(s: Sys, s': Sys, u: RequestId)
    requires u in s.pcs && u in s.requests && RequestOk(s, u)
    requires u in s'.pcs && s'.pcs[u] == s.pcs[u] && u in s'.requests && s'.requests[u] == s.requests[u]
    requires var slot := s.requests[u].slot;
      && (slot in s.table ==> slot in s'.table && s'.table[slot] == s.table[slot])
      && (slot in s.owners ==> slot in s'.owners && s'.owners[slot] == s.owners[slot])
    requires u in s.results ==> u in s'.results && s'.results[u] == s.results[u]
    requires s.stored <= s'.stored && (u in s'.effects ==> u in s.effects)
    ensures RequestOk(s', u)
  {
  }

  lemma SlotKept(s: Sys, s': Sys, slot: Slot)
    requires slot in s.table && SlotOk(s, slot)
    requires slot in s'.table && s'.table[slot] == s.table[slot] && slot in s'.owners && s'.owners[slot] == s.owners[slot]
    requires var o := s.owners[slot];
      && o in s'.requests && s'.requests[o] == s.requests[o]
      && o in s'.pcs && (s'.pcs[o] == s.pcs[o] || !Final(s.pcs[o]))
      && (Final(s.pcs[o]) && o in s.results ==> o in s'.results && s'.results[o] == s.results[o])
    requires s.stored <= s'.stored
    ensures SlotOk(s', slot)
  {
  }

  /** Request `r` moves; every other request is as it was, and nothing is forgotten. */
  ghost predicate OnlyMoves(s: Sys, s': Sys, r: RequestId)
  {
    && (forall u :: u in s.requests ==> u in s'.requests && s'.requests[u] == s.requests[u])
    && (forall u :: u in s.pcs && u != r ==> u in s'.pcs && s'.pcs[u] == s.pcs[u])
    && (forall u :: u in s.results && u != r ==> u in s'.results && s'.results[u] == s.results[u])
    && (forall u :: u != r && u in s'.effects ==> u in s.effects)
    && (r in s.pcs ==> r in s'.pcs && !Final(s.pcs[r]))
    && s.stored <= s'.stored
  }

  lemma SlotsStay(s: Sys, s': Sys, r: RequestId)
    requires SlotsOk(s) && OnlyMoves(s, s', r) && s'.table == s.table && s'.owners == s.owners
    ensures SlotsOk(s')
  {
    forall slot | slot in s'.table
      ensures SlotOk(s', slot)
    {
      SlotKept(s, s', slot);
    }
  }

  /** The other requests keep their condition when no stored key changes. */
  lemma OthersStay(s: Sys, s': Sys, r: RequestId)
    requires RequestsOk(s) && OnlyMoves(s, s', r)
    requires forall slot :: slot in s.table ==> slot in s'.table && s'.table[slot] == s.table[slot]
    requires forall slot :: slot in s.owners ==> slot in s'.owners && s'.owners[slot] == s.owners[slot]
    requires s'.pcs.Keys == s'.requests.Keys == s.pcs.Keys + {r} && WellFormed(s'.requests[r].body) && RequestOk(s', r)
    ensures RequestsOk(s')
  {
    forall u | u in s'.pcs
      ensures RequestOk(s', u)
    {
      if u != r { RequestKept(s, s', u); }
    }
  }

  /** Requests that have had their effect still own their keys; `r` may be one more. */
  lemma EffectsStay(s: Sys, s': Sys, r: RequestId)
    requires EffectsOk(s) && OnlyMoves(s, s', r)
    requires forall slot :: slot in s.owners ==> slot in s'.owners && s'.owners[slot] == s.owners[slot]
    requires s'.effects == s.effects || (s'.effects == s.effects + [r] && r !in s.effects)
    requires r in s'.effects ==> At(s', r) && Owns(s', r) && !Before(s'.pcs[r])
    ensures EffectsOk(s')
  {
    forall u | u in s'.effects
      ensures At(s', u) && Owns(s', u) && !Before(s'.pcs[u])
    {
      if u != r { assert u in s.effects; }
    }
  }

  /** A step in which one request moves and nothing else. */
  lemma PcStep(s: Sys, r: RequestId, pc: Pc)
    requires Inv(s) && r in s.pcs && !Final(s.pcs[r])
    requires RequestOk(s.(pcs := s.pcs[r := pc]), r)
    requires r in s.effects ==> !Before(pc)
    ensures Inv(s.(pcs := s.pcs[r := pc]))
  {
    var s' := s.(pcs := s.pcs[r := pc]);
    PcMoves(s, r, pc);
    SlotsStay(s, s', r);
    OthersStay(s, s', r);
    EffectsStay(s, s', r);
  }

  lemma PcMoves(s: Sys, r: RequestId, pc: Pc)
    requires r in s.pcs && !Final(s.pcs[r])
    ensures OnlyMoves(s, s.(pcs := s.pcs[r := pc]), r)
  {
  }

  lemma ArriveStep(s: Sys, x: Action)
    requires Inv(s) && Enabled(s, x) && x.Arrive?
    ensures Inv(Do(s, x))
  {
    SlotsStay(s, Do(s, x), x.r);
    OthersStay(s, Do(s, x), x.r);
    EffectsStay(s, Do(s, x), x.r);
  }

  /** The insert of a key that nobody has. */
  ghost predicate Reserves(s: Sys, r: RequestId, s': Sys)
  {
    && At(s, r) && Before(s.pcs[r]) && s.requests[r].slot !in s.table && s.owners.Keys == s.table.Keys
    && (var q := s.requests[r];
        s' == s.(table := s.table[q.slot := Row(Print(q.body), Processing)], owners := s.owners[q.slot := r], pcs := s.pcs[r := Owner]))
  }

  lemma ReserveSlots(s: Sys, r: RequestId, s': Sys)
    requires SlotsOk(s) && Reserves(s, r, s')
    ensures SlotsOk(s')
  {
    forall slot | slot in s'.table
      ensures SlotOk(s', slot)
    {
      if slot != s.requests[r].slot { SlotKept(s, s', slot); }
    }
  }

  lemma ReserveRequests(s: Sys, r: RequestId, s': Sys)
    requires RequestsOk(s) && Reserves(s, r, s') && r !in s.effects
    ensures RequestsOk(s')
  {
    assert OnlyMoves(s, s', r);
    OthersStay(s, s', r);
  }

  lemma ReserveEffects(s: Sys, r: RequestId, s': Sys)
    requires EffectsOk(s) && Reserves(s, r, s') && r !in s.effects
    ensures EffectsOk(s')
  {
    assert OnlyMoves(s, s', r);
    EffectsStay(s, s', r);
  }

  lemma ReserveStep(s: Sys, r: RequestId, s': Sys)
    requires Inv(s) && Reserves(s, r, s')
    ensures Inv(s')
  {
    assert r !in s.effects;
    ReserveSlots(s, r, s');
    ReserveRequests(s, r, s');
    ReserveEffects(s, r, s');
  }

  /** The owner has its effect. */
  ghost predicate Acts(s: Sys, r: RequestId, s': Sys)
  {
    && At(s, r) && s.pcs[r].Owner? && r in s'.pcs && s'.pcs == s.pcs[r := s'.pcs[r]] && !Before(s'.pcs[r])
    && s'.effects == s.effects + [r]
    && (s'.results == s.results || (r in s'.results && s'.results == s.results[r := s'.results[r]]))
    && s'.requests == s.requests && s'.table == s.table && s'.owners == s.owners && s.stored <= s'.stored
  }

  lemma ActMoves(s: Sys, r: RequestId, s': Sys)
    requires Acts(s, r, s')
    ensures OnlyMoves(s, s', r)
  {
  }

  lemma ActStep(s: Sys, r: RequestId, s': Sys)
    requires Inv(s) && Acts(s, r, s') && RequestOk(s', r)
    ensures Inv(s')
  {
    assert RequestOk(s, r);
    ActMoves(s, r, s');
    SlotsStay(s, s', r);
    OthersStay(s, s', r);
    EffectsStay(s, s', r);
  }

  /** The owner of a key stores its outcome. */
  ghost predicate Stores(s: Sys, r: RequestId, progress: Progress, pc: Pc, s': Sys)
  {
    && At(s, r) && (s.pcs[r].Acted? || s.pcs[r].Spoiled?) && s.requests[r].slot in s.table
    && (s.pcs[r].Acted? ==> progress == Completed(s.pcs[r].snapshot) && pc == Returned(s.pcs[r].snapshot, false))
    && (s.pcs[r].Spoiled? ==> progress == Progress.Failed && pc == Refused(EffectFailed))
    && (var slot := s.requests[r].slot;
        s' == s.(table := s.table[slot := s.table[slot].(progress := progress)], pcs := s.pcs[r := pc]))
  }

  lemma MarkSlots(s: Sys, r: RequestId, progress: Progress, pc: Pc, s': Sys)
    requires SlotsOk(s) && Stores(s, r, progress, pc, s') && RequestOk(s, r)
    ensures SlotsOk(s')
  {
    var own := s.requests[r].slot;
    assert SlotOk(s, own);
    forall slot | slot in s'.table
      ensures SlotOk(s', slot)
    {
      if slot != own { SlotKept(s, s', slot); }
    }
  }

  /** No other request past its insert has the same key. */
  lemma MarkRequests(s: Sys, r: RequestId, progress: Progress, pc: Pc, s': Sys)
    requires RequestsOk(s) && Stores(s, r, progress, pc, s') && SlotOk(s, s.requests[r].slot)
    ensures RequestsOk(s')
  {
    assert RequestOk(s, r);
    forall u | u in s'.pcs
      ensures RequestOk(s', u)
    {
      assert RequestOk(s, u);
    }
  }

  lemma MarkEffects(s: Sys, r: RequestId, progress: Progress, pc: Pc, s': Sys)
    requires EffectsOk(s) && Stores(s, r, progress, pc, s')
    ensures EffectsOk(s')
  {
    assert OnlyMoves(s, s', r);
    EffectsStay(s, s', r);
  }

  lemma MarkStep(s: Sys, r: RequestId, progress: Progress, pc: Pc, s': Sys)
    requires Inv(s) && Stores(s, r, progress, pc, s')
    ensures Inv(s')
  {
    assert RequestOk(s, r) && SlotOk(s, s.requests[r].slot);
    MarkSlots(s, r, progress, pc, s');
    MarkRequests(s, r, progress, pc, s');
    MarkEffects(s, r, progress, pc, s');
  }

  lemma OutcomeActs(s: Sys, r: RequestId, outcome: Outcome)
    requires Enabled(s, Act(r, outcome)) && RequestOk(s, r)
    ensures Acts(s, r, Do(s, Act(r, outcome))) && RequestOk(Do(s, Act(r, outcome)), r)
  {
  }

  lemma OutcomeStep(s: Sys, r: RequestId, outcome: Outcome)
    requires Inv(s) && Enabled(s, Act(r, outcome))
    ensures Inv(Do(s, Act(r, outcome)))
  {
    OutcomeActs(s, r, outcome);
    ActStep(s, r, Do(s, Act(r, outcome)));
  }

  lemma LookStep(s: Sys, r: RequestId)
    requires Inv(s) && At(s, r) && s.pcs[r].Arrived?
    ensures Inv(s.(pcs := s.pcs[r := PrecheckPc(s.table, s.requests[r])]))
  {
    assert r !in s.effects;
    PcStep(s, r, PrecheckPc(s.table, s.requests[r]));
  }

  lemma LookAgainStep(s: Sys, r: RequestId)
    requires Inv(s) && At(s, r) && s.pcs[r].Reloading? && s.requests[r].slot in s.table
    ensures Inv(s.(pcs := s.pcs[r := ReloadPc(s.table, s.stored, s.requests[r])]))
  {
    assert SlotOk(s, s.requests[r].slot) && r !in s.effects;
    PcStep(s, r, ReloadPc(s.table, s.stored, s.requests[r]));
  }

  lemma StepKeepsInv(s: Sys, x: Action)
    requires Inv(s) && Enabled(s, x)
    ensures Inv(Do(s, x))
  {
    match x
    case Arrive(_, _) => ArriveStep(s, x);
    case Act(r, outcome) => OutcomeStep(s, r, outcome);
    case Mark(r) =>
      assert RequestOk(s, r);
      MarkStep(s, r, Do(s, x).table[s.requests[r].slot].progress, Do(s, x).pcs[r], Do(s, x));
    case Reserve(r) =>
      if s.requests[r].slot in s.table { PcStep(s, r, Reloading); } else { ReserveStep(s, r, Do(s, x)); }
    case Precheck(r) => LookStep(s, r);
    case Reload(r) => LookAgainStep(s, r);
    case Reject(r) => PcStep(s, r, Refused(Invalid));
    case Stop(r) => PcStep(s, r, Stopped);
  }

  // ----- theorems over runs -----

  ghost predicate IsRun(states: seq<Sys>, actions: seq<Action>)
  {
    && |states| == |actions| + 1 && states[0] == Initial
    && forall k :: 0 <= k < |actions| ==> Enabled(states[k], actions[k]) && states[k + 1] == Do(states[k], actions[k])
  }

  lemma {:induction false} RunKeepsInv(states: seq<Sys>, actions: seq<Action>, k: nat)
    requires IsRun(states, actions) && k < |states|
    ensures Inv(states[k])
  {
    if 0 < k {
      RunKeepsInv(states, actions, k - 1);
      StepKeepsInv(states[k - 1], actions[k - 1]);
    }
  }

  /** However many requests race, the provider is called, or an intent created, at most once for each key. */
  lemma AtMostOneEffectPerKey(states: seq<Sys>, actions: seq<Action>, k: nat, a: nat, b: nat)
    requires IsRun(states, actions) && k < |states| && a < |states[k].effects| && b < |states[k].effects|
    requires var s := states[k]; s.effects[a] in s.requests && s.effects[b] in s.requests
    requires states[k].requests[states[k].effects[a]].slot == states[k].requests[states[k].effects[b]].slot
    ensures a == b
  {
    RunKeepsInv(states, actions, k);
  }

  /** A key is absent, then in process, then completed or failed, and there it stays; its request never changes. */
  ghost predicate KeyMoves(s: Sys, s': Sys, slot: Slot)
  {
    slot in s.table ==>
      && slot in s'.table && s'.table[slot].canonical == s.table[slot].canonical
      && (!s.table[slot].progress.Processing? ==> s'.table[slot] == s.table[slot])
  }

  lemma MarkMovesKey(s: Sys, x: Action, slot: Slot)
    requires Inv(s) && Enabled(s, x) && x.Mark?
    ensures KeyMoves(s, Do(s, x), slot) && Do(s, x).table.Keys == s.table.Keys
  {
    assert RequestOk(s, x.r);
    if slot in s.table { assert SlotOk(s, slot); }
  }

  lemma StepMovesKey(s: Sys, x: Action, slot: Slot)
    requires Inv(s) && Enabled(s, x)
    ensures KeyMoves(s, Do(s, x), slot)
    ensures slot !in s.table && slot in Do(s, x).table ==> Do(s, x).table[slot].progress.Processing?
  {
    if x.Mark? { MarkMovesKey(s, x, slot); }
  }

  lemma {:induction false} KeyHistory(states: seq<Sys>, actions: seq<Action>, j: nat, k: nat, slot: Slot)
    requires IsRun(states, actions) && j <= k < |states|
    ensures KeyMoves(states[j], states[k], slot)
    decreases k
  {
    if j < k {
      KeyHistory(states, actions, j, k - 1, slot);
      RunKeepsInv(states, actions, k - 1);
      StepMovesKey(states[k - 1], actions[k - 1], slot);
    }
  }

  /**
   * Whoever is given a response has asked for the same thing as the request whose effect it
   * was, object members in any order, and gets that request's own result.
   */
  lemma ReplayIsTheFirstResponse(states: seq<Sys>, actions: seq<Action>, k: nat, r: RequestId)
    requires IsRun(states, actions) && k < |states|
    requires r in states[k].pcs && r in states[k].requests && states[k].pcs[r].Returned?
    ensures var s := states[k]; var slot := s.requests[r].slot;
      && slot in s.owners && s.owners[slot] in s.requests && s.owners[slot] in s.results
      && s.results[s.owners[slot]] == s.pcs[r].snapshot
      && Same(s.requests[r].body, s.requests[s.owners[slot]].body)
      && (!s.pcs[r].replay ==> s.owners[slot] == r)
  {
    RunKeepsInv(states, actions, k);
    var s := states[k];
    var slot := s.requests[r].slot;
    assert RequestOk(s, r);
    assert SlotOk(s, slot);
    PrintsAlikeExactlyWhenSame(s.requests[r].body, s.requests[s.owners[slot]].body);
  }

  /** A key that has failed refuses every later request: at the first look, or as a conflict when the insert meets it. */
  lemma FailedKeyRefuses(s: Sys, q: Request, first: Request)
    requires Inv(s) && WellFormed(q.body) && q.slot in s.table && s.table[q.slot].progress.Failed?
    requires first == s.requests[s.owners[q.slot]]
    ensures PrecheckPc(s.table, q) == Refused(PreviouslyFailed)
    ensures ReloadPc(s.table, s.stored, q) == Refused(if Same(q.body, first.body) then PreviouslyFailed else Conflict)
  {
    assert SlotOk(s, q.slot);
    PrintsAlikeExactlyWhenSame(q.body, first.body);
  }

  /** A retry under a completed key is answered exactly when it asks for the same thing, and is a conflict otherwise. */
  lemma RetryIsAnswered(s: Sys, q: Request, first: Request)
    requires Inv(s) && WellFormed(q.body) && q.slot in s.table && s.table[q.slot].progress.Completed?
    requires first == s.requests[s.owners[q.slot]]
    ensures PrecheckPc(s.table, q) == ReloadPc(s.table, s.stored, q)
      == if Same(q.body, first.body) then Returned(s.results[s.owners[q.slot]], true) else Refused(Conflict)
  {
    assert SlotOk(s, q.slot);
    PrintsAlikeExactlyWhenSame(q.body, first.body);
  }

  // ----- one gateway payment, alone -----

  /** The key table. */
  class KeyTable {
    var rows: map<Slot, Row>

    constructor ()
      ensures rows == map[]
    {
      rows := map[];
    }

    method Find(slot: Slot) returns (r: Option<Row>)
      ensures r == if slot in rows then Some(rows[slot]) else None
    {
      r := if slot in rows then Some(rows[slot]) else None;
    }

    method ReserveOrGet(slot: Slot, canonical: string) returns (row: Row, reserved: bool)
      modifies this
      ensures reserved <==> slot !in old(rows)
      ensures slot in rows && row == rows[slot]
      ensures rows == if reserved then old(rows)[slot := Row(canonical, Processing)] else old(rows)
    {
      reserved := slot !in rows;
      if reserved { rows := rows[slot := Row(canonical, Processing)]; }
      row := rows[slot];
    }

    method MarkCompleted(slot: Slot, snapshot: Snapshot)
      modifies this
      ensures rows == if slot in old(rows) then old(rows)[slot := old(rows)[slot].(progress := Completed(snapshot))] else old(rows)
    {
      if slot in rows { rows := rows[slot := rows[slot].(progress := Completed(snapshot))]; }
    }

    method MarkFailed(slot: Slot)
      modifies this
      ensures rows == if slot in old(rows) then old(rows)[slot := old(rows)[slot].(progress := Progress.Failed)] else old(rows)
    {
      if slot in rows { rows := rows[slot := rows[slot].(progress := Progress.Failed)]; }
    }
  }

  /** How the outcome of the effect is stored and answered. */
  function Stored(outcome: Outcome): Progress
  {
    match outcome
    case Succeeds(snapshot) => Completed(snapshot)
    case Throws => Progress.Failed
    case ThrowsUnstored => Processing
  }

  function AnswerTo(outcome: Outcome): Pc
  {
    match outcome
    case Succeeds(snapshot) => Returned(snapshot, false)
    case Throws => Refused(EffectFailed)
    case ThrowsUnstored => Stopped
  }

  /** Alone, the method is the protocol's own run: look, insert, effect, and mark unless the effect's failure is not stored. */
  lemma AloneIsARun(s: Sys, r: RequestId, outcome: Outcome)
    requires At(s, r) && s.pcs[r].Arrived? && s.requests[r].slot.scope.GatewayPayments? && s.requests[r].slot !in s.table
    ensures Enabled(s, Precheck(r))
    ensures var s1 := Do(s, Precheck(r));
      Enabled(s1, Reserve(r)) && var s2 := Do(s1, Reserve(r));
      Enabled(s2, Act(r, outcome)) && var s3 := Do(s2, Act(r, outcome));
      (outcome.ThrowsUnstored? || Enabled(s3, Mark(r))) && var s4 := if outcome.ThrowsUnstored? then s3 else Do(s3, Mark(r));
      && s4.effects == s.effects + [r] && r in s4.pcs && s4.pcs[r] == AnswerTo(outcome)
      && s4.table == s.table[s.requests[r].slot := Row(Print(s.requests[r].body), Stored(outcome))]
  {
  }

  /**
   * What a key answers for good. After a success the first response, or a conflict for another
   * request. After a stored failure a refusal, whatever is asked: a failed key is not tried again.
   * After a failure that was not stored a refusal too, as if the first request were still at work.
   */
  lemma RetryAfter(table: map<Slot, Row>, q: Request, outcome: Outcome, again: Request)
    requires again.slot == q.slot && WellFormed(q.body) && WellFormed(again.body)
    requires q.slot in table && table[q.slot] == Row(Print(q.body), Stored(outcome)) && q.slot.scope.GatewayPayments?
    ensures outcome.Succeeds? ==>
      PrecheckPc(table, again) == if Same(again.body, q.body) then Returned(outcome.snapshot, true) else Refused(Conflict)
    ensures outcome.Throws? ==> PrecheckPc(table, again) == Refused(PreviouslyFailed)
    ensures outcome.ThrowsUnstored? ==>
      PrecheckPc(table, again) == Checked && ReloadPc(table, {}, again) == Refused(if Same(again.body, q.body) then InProgress else Conflict)
  {
    PrintsAlikeExactlyWhenSame(again.body, q.body);
  }

  /**
   * A keyed gateway payment that nothing interrupts. A key that is there decides the answer;
   * otherwise the provider is called, unless a check fails first, and the key keeps what came of it.
   */
  method CreateGatewayPayment(table: KeyTable, q: Request, valid: bool, outcome: Outcome) returns (answer: Pc, called: bool)
    requires q.slot.scope.GatewayPayments?
    modifies table
    ensures var rows := old(table.rows);
      if !PrecheckPc(rows, q).Checked? then answer == PrecheckPc(rows, q) && !called && table.rows == rows
      else if !valid then answer == Refused(Invalid) && !called && table.rows == rows
      else if q.slot in rows then answer == ReloadPc(rows, {}, q) && answer.Refused? && !called && table.rows == rows
      else called && answer == AnswerTo(outcome) && table.rows == rows[q.slot := Row(Print(q.body), Stored(outcome))]
    // the provider is called only under a key nobody has used, and the key keeps what came of it
    ensures called <==> q.slot !in old(table.rows) && valid
    ensures called ==>
      && q.slot in table.rows && table.rows == old(table.rows)[q.slot := table.rows[q.slot]]
      && table.rows[q.slot].canonical == Print(q.body)
      && (outcome.Succeeds? ==> table.rows[q.slot].progress == Completed(outcome.snapshot) && answer == Returned(outcome.snapshot, false))
      && (outcome.Throws? ==> table.rows[q.slot].progress == Progress.Failed && answer == Refused(EffectFailed))
      && (outcome.ThrowsUnstored? ==> table.rows[q.slot].progress == Processing && answer == Stopped)
  {
    called := false;
    var canonical := Print(q.body);
    var existing := table.Find(q.slot);
    if existing.Some? && !existing.value.progress.Processing? {
      if existing.value.progress.Failed? { return Refused(PreviouslyFailed), false; }
      if existing.value.canonical != canonical { return Refused(Conflict), false; }
      return Returned(existing.value.progress.snapshot, true), false;
    }
    if !valid { return Refused(Invalid), false; }
    var row, reserved := table.ReserveOrGet(q.slot, canonical);
    if !reserved {
      // nothing has run since the first look, so the key is still being processed
      if row.canonical != canonical { return Refused(Conflict), false; }
      return Refused(InProgress), false;
    }
    called := true;
    match outcome {
      case Succeeds(snapshot) =>
        table.MarkCompleted(q.slot, snapshot);
        answer := Returned(snapshot, false);
      case Throws =>
        table.MarkFailed(q.slot);
        answer := Refused(EffectFailed);
      case ThrowsUnstored =>
        answer := Stopped;
    }
  }
}
