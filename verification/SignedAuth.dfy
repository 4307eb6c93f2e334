/**
 * Verification of signed requests: the checks in order, the nonce store behind them, and how
 * long nonces must be kept for a request to be accepted only once.
 */
module SignedAuth {
  import opened D = Domain

  type KeyId = nat
  type Nonce = string

  /** The unique index of the nonce table. */
  datatype NonceKey = NonceKey(key: KeyId, nonce: Nonce)

  /** The rows left by a cleanup: those not past their expiry. */
  function Unexpired(rows: map<NonceKey, Time>, now: Time): map<NonceKey, Time>
  {
    map n | n in rows && now <= rows[n] :: rows[n]
  }

  class RequestNonceRepository {
    var rows: map<NonceKey, Time>

    constructor ()
      ensures rows == map[]
    {
      rows := map[];
    }

    /** Insert, unless the key has used the nonce. */
    method Consume(n: NonceKey, expiresAt: Time) returns (consumed: bool)
      modifies this
      ensures consumed <==> n !in old(rows)
      ensures rows == if consumed then old(rows)[n := expiresAt] else old(rows)
    {
      consumed := n !in rows;
      if consumed { rows := rows[n := expiresAt]; }
    }

    method CleanupExpired(now: Time) returns (deleted: nat)
      modifies this
      ensures rows == Unexpired(old(rows), now)
      ensures deleted == |old(rows).Keys - rows.Keys|
    {
      var expired := set n | n in rows && rows[n] < now;
      deleted := |expired|;
      assert rows.Keys - Unexpired(rows, now).Keys == expired;
      rows := map n | n in rows && n !in expired :: rows[n];
    }
  }

  // ----- verifySignedRequest -----

  datatype KeyStatus = Active | Revoked | Lapsed

  datatype SigningKey = SigningKey(id: KeyId, client: string, status: KeyStatus, expiresAt: Option<Time>)

  datatype AuthError =
    | HeadersMissing | SignatureInvalid | TimestampInvalid | TimestampExpired | KeyNotFound
    | KeyRevoked | KeyExpired | SecretUnavailable | NonceReplayed

  /** The trimmed headers, an absent one being empty, and the timestamp as a number if it is one. */
  datatype Headers = Headers(client: string, keyPrefix: string, timestamp: string, timestampMs: Option<int>,
                             nonce: Nonce, signature: string, version: string)
  {
    predicate Complete()
    {
      client != "" && keyPrefix != "" && timestamp != "" && nonce != "" && signature != "" && version != ""
    }
  }

  /** What the verifier asks of others: the stored keys, decryption, the signature, the store, the client. */
  datatype World = World(candidates: seq<SigningKey>, secretReadable: bool, signatureMatches: bool,
                         storeAnswers: bool, clientActive: bool)

  datatype Options = Options(maxSkew: int, nonceTtl: int)

  function Distance(a: int, b: int): int { if a < b then b - a else a - b }

  predicate InTime(now: Time, timestamp: Time, maxSkew: int) { Distance(now, timestamp) <= maxSkew }

  function FirstKey(candidates: seq<SigningKey>, client: string): Option<SigningKey>
  {
    if candidates == [] then None
    else if candidates[0].client == client then Some(candidates[0])
    else FirstKey(candidates[1..], client)
  }

  predicate Usable(key: SigningKey, now: Time)
  {
    key.status.Active? && (key.expiresAt.Some? ==> now <= key.expiresAt.value)
  }

  /** Everything that is checked before the nonce is touched. */
  predicate Presentable(h: Headers, o: Options, w: World, now: Time)
  {
    && h.Complete() && h.version == "v1"
    && h.timestampMs.Some? && 0 < h.timestampMs.value && InTime(now, h.timestampMs.value, o.maxSkew)
    && FirstKey(w.candidates, h.client).Some? && Usable(FirstKey(w.candidates, h.client).value, now)
    && w.secretReadable && w.signatureMatches
  }

  /** The first check that fails, in the order they are made. */
  function FirstFailure(h: Headers, o: Options, w: World, now: Time): Option<AuthError>
  {
    var key := FirstKey(w.candidates, h.client);
    if !h.Complete() then Some(HeadersMissing)
    else if h.version != "v1" then Some(SignatureInvalid)
    else if h.timestampMs.None? || h.timestampMs.value <= 0 then Some(TimestampInvalid)
    else if !InTime(now, h.timestampMs.value, o.maxSkew) then Some(TimestampExpired)
    else if key.None? then Some(KeyNotFound)
    else if key.value.status.Revoked? then Some(KeyRevoked)
    else if !Usable(key.value, now) then Some(KeyExpired)
    else if !w.secretReadable then Some(SecretUnavailable)
    else if !w.signatureMatches then Some(SignatureInvalid)
    else None
  }

  /** The order of the checks decides the error, not the verdict. */
  lemma NoFailureMeansPresentable(h: Headers, o: Options, w: World, now: Time)
    ensures FirstFailure(h, o, w, now).None? <==> Presentable(h, o, w, now)
  {
  }

  /** The key looked up is the first candidate of the client. */
  ghost predicate IsFirstKey(candidates: seq<SigningKey>, client: string, k: int)
  {
    0 <= k < |candidates| && candidates[k].client == client && forall j :: 0 <= j < k ==> candidates[j].client != client
  }

  lemma {:induction false} FirstKeyExactly(candidates: seq<SigningKey>, client: string)
    ensures FirstKey(candidates, client).None? <==> forall k :: 0 <= k < |candidates| ==> candidates[k].client != client
    ensures forall k :: IsFirstKey(candidates, client, k) ==> FirstKey(candidates, client) == Some(candidates[k])
    ensures FirstKey(candidates, client).Some? ==> exists k :: IsFirstKey(candidates, client, k)
  {
    if candidates != [] {
      var rest := candidates[1..];
      FirstKeyExactly(rest, client);
      assert forall j :: 0 <= j < |rest| ==> rest[j] == candidates[j + 1];
      if candidates[0].client == client {
        assert IsFirstKey(candidates, client, 0);
      } else if FirstKey(rest, client).Some? {
        var k :| IsFirstKey(rest, client, k);
        assert IsFirstKey(candidates, client, k + 1);
      }
      forall k | IsFirstKey(candidates, client, k)
        ensures FirstKey(candidates, client) == Some(candidates[k])
      {
        if 0 < k { assert IsFirstKey(rest, client, k - 1); }
      }
    }
  }

  /** Who gets as far as the nonce: in terms of headers, clock and the client's key. */
  ghost predicate InOrder(h: Headers, o: Options, w: World, now: Time, k: int)
  {
    && "" !in {h.client, h.keyPrefix, h.timestamp, h.nonce, h.signature} && h.version == "v1"
    && h.timestampMs.Some? && 0 < h.timestampMs.value
    && now - o.maxSkew <= h.timestampMs.value <= now + o.maxSkew
    && IsFirstKey(w.candidates, h.client, k)
    && w.candidates[k].status == Active && (w.candidates[k].expiresAt == None || now <= w.candidates[k].expiresAt.value)
    && w.secretReadable && w.signatureMatches
  }

  lemma PresentableExactly(h: Headers, o: Options, w: World, now: Time)
    ensures Presentable(h, o, w, now) <==> exists k :: InOrder(h, o, w, now, k)
    ensures forall k :: InOrder(h, o, w, now, k) ==> FirstKey(w.candidates, h.client) == Some(w.candidates[k])
  {
    FirstKeyExactly(w.candidates, h.client);
    if Presentable(h, o, w, now) {
      var k :| IsFirstKey(w.candidates, h.client, k);
      assert InOrder(h, o, w, now, k);
    }
  }

  /** Each error in its turn: it is given exactly when its check fails and those before it hold. */
  lemma FailsExactly(h: Headers, o: Options, w: World, now: Time, k: nat)
    ensures var complete := "" !in {h.client, h.keyPrefix, h.timestamp, h.nonce, h.signature, h.version};
      var numbered := h.timestampMs.Some? && 0 < h.timestampMs.value;
      var f := FirstFailure(h, o, w, now);
      && (f == Some(HeadersMissing) <==> !complete)
      && (complete && h.version != "v1" ==> f == Some(SignatureInvalid))
      && (f == Some(TimestampInvalid) <==> complete && h.version == "v1" && !numbered)
      && (f == Some(TimestampExpired) <==>
            complete && h.version == "v1" && numbered
            && (h.timestampMs.value < now - o.maxSkew || now + o.maxSkew < h.timestampMs.value))
    ensures var f := FirstFailure(h, o, w, now);
      var dated := "" !in {h.client, h.keyPrefix, h.timestamp, h.nonce, h.signature} && h.version == "v1"
        && h.timestampMs.Some? && 0 < h.timestampMs.value && now - o.maxSkew <= h.timestampMs.value <= now + o.maxSkew;
      && (f == Some(KeyNotFound) <==> dated && forall j :: 0 <= j < |w.candidates| ==> w.candidates[j].client != h.client)
      && (dated && IsFirstKey(w.candidates, h.client, k) ==>
            var key := w.candidates[k];
            var late := key.expiresAt.Some? && key.expiresAt.value < now;
            && (f == Some(KeyRevoked) <==> key.status == Revoked)
            && (f == Some(KeyExpired) <==> key.status == Lapsed || (key.status == Active && late))
            && (f == Some(SecretUnavailable) <==> key.status == Active && !late && !w.secretReadable)
            && (f == Some(SignatureInvalid) <==> key.status == Active && !late && w.secretReadable && !w.signatureMatches)
            && (f == None <==> key.status == Active && !late && w.secretReadable && w.signatureMatches))
  {
    FirstKeyExactly(w.candidates, h.client);
  }

  method FindKey(candidates: seq<SigningKey>, client: string) returns (key: Option<SigningKey>)
    ensures key == FirstKey(candidates, client)
    ensures key.Some? ==> key.value in candidates && key.value.client == client
    ensures key.None? ==> forall k :: k in candidates ==> k.client != client
  {
    var rest := candidates;
    while rest != []
      invariant |rest| <= |candidates| && rest == candidates[|candidates| - |rest|..]
      invariant FirstKey(rest, client) == FirstKey(candidates, client)
      invariant forall k :: 0 <= k < |candidates| - |rest| ==> candidates[k].client != client
    {
      if rest[0].client == client { return Some(rest[0]); }
      rest := rest[1..];
    }
    key := None;
  }

  /** The nonce is spent exactly when everything before it holds, and a request is let in only if it was fresh. */
  method VerifySignedRequest(store: RequestNonceRepository, h: Headers, o: Options, w: World, now: Time)
    returns (r: Option<AuthError>)
    modifies store
    ensures !Presentable(h, o, w, now) ==> r == FirstFailure(h, o, w, now) && r.Some? && store.rows == old(store.rows)
    ensures Presentable(h, o, w, now) && !w.storeAnswers ==> r == Some(SecretUnavailable) && store.rows == old(store.rows)
    ensures Presentable(h, o, w, now) && w.storeAnswers ==>
      var n := NonceKey(FirstKey(w.candidates, h.client).value.id, h.nonce);
      if n in old(store.rows) then r == Some(NonceReplayed) && store.rows == old(store.rows)
      else
        && store.rows == old(store.rows)[n := h.timestampMs.value + o.nonceTtl]
        && r == if w.clientActive then None else Some(KeyNotFound)
    // let in: a request in order, from an active client, whose nonce its key had not used and now has
    ensures r == None ==>
      && w.storeAnswers && w.clientActive
      && exists k :: InOrder(h, o, w, now, k)
                     && NonceKey(w.candidates[k].id, h.nonce) !in old(store.rows)
                     && store.rows == old(store.rows)[NonceKey(w.candidates[k].id, h.nonce) := h.timestampMs.value + o.nonceTtl]
  {
    PresentableExactly(h, o, w, now);
    NoFailureMeansPresentable(h, o, w, now);
    if h.client == "" || h.keyPrefix == "" || h.timestamp == "" || h.nonce == "" || h.signature == "" || h.version == "" {
      return Some(HeadersMissing);
    }
    if h.version != "v1" { return Some(SignatureInvalid); }
    if h.timestampMs.None? || h.timestampMs.value <= 0 { return Some(TimestampInvalid); }
    var timestamp := h.timestampMs.value;
    if Distance(now, timestamp) > o.maxSkew { return Some(TimestampExpired); }
    var key := FindKey(w.candidates, h.client);
    if key.None? { return Some(KeyNotFound); }
    if key.value.status.Revoked? { return Some(KeyRevoked); }
    if key.value.status.Lapsed? || (key.value.expiresAt.Some? && key.value.expiresAt.value < now) { return Some(KeyExpired); }
    if !w.secretReadable { return Some(SecretUnavailable); }
    if !w.signatureMatches { return Some(SignatureInvalid); }
    if !w.storeAnswers { return Some(SecretUnavailable); }
    var consumed := store.Consume(NonceKey(key.value.id, h.nonce), timestamp + o.nonceTtl);
    if !consumed { return Some(NonceReplayed); }
    if !w.clientActive { return Some(KeyNotFound); }
    r := None;
  }

  // ----- requests in flight -----

  type RequestId = nat

  datatype Token = Token(key: KeyId, timestamp: Time, nonce: Nonce)

  datatype Checked = Checked(token: Token, at: Time)

  /** Between the check of its timestamp and the insert of its nonce a request is in flight, for at most `lag`. */
  datatype Settings = Settings(maxSkew: int, nonceTtl: int, lag: int)

  datatype Sys = Sys(clock: Time, rows: map<NonceKey, Time>, inFlight: map<RequestId, Checked>, accepted: seq<Token>)

  datatype Action = Tick(to: Time) | Check(r: RequestId, token: Token) | Consume(r: RequestId) | Cleanup

  predicate Enabled(c: Settings, s: Sys, x: Action)
  {
    match x
    case Tick(to) => s.clock <= to
    case Check(r, token) => r !in s.inFlight && 0 < token.timestamp && InTime(s.clock, token.timestamp, c.maxSkew)
    case Consume(r) => r in s.inFlight && s.clock <= s.inFlight[r].at + c.lag
    case Cleanup => true
  }

  function Do(c: Settings, s: Sys, x: Action): Sys
    requires Enabled(c, s, x)
  {
    match x
    case Tick(to) => s.(clock := to)
    case Check(r, token) => s.(inFlight := s.inFlight[r := Checked(token, s.clock)])
    case Consume(r) =>
      var t := s.inFlight[r].token;
      var n := NonceKey(t.key, t.nonce);
      if n in s.rows then s.(inFlight := s.inFlight - {r})
      else s.(rows := s.rows[n := t.timestamp + c.nonceTtl], accepted := s.accepted + [t], inFlight := s.inFlight - {r})
    case Cleanup => s.(rows := Unexpired(s.rows, s.clock))
  }

  predicate Step(c: Settings, s: Sys, x: Action, s': Sys) { Enabled(c, s, x) && s' == Do(c, s, x) }

  ghost predicate IsRun(c: Settings, states: seq<Sys>, actions: seq<Action>)
  {
    && |states| == |actions| + 1
    && states[0].rows == map[] && states[0].inFlight == map[] && states[0].accepted == []
    && forall k :: 0 <= k < |actions| ==> Step(c, states[k], actions[k], states[k + 1])
  }

  predicate NoRepeats(tokens: seq<Token>) { forall j, k :: 0 <= j < k < |tokens| ==> tokens[j] != tokens[k] }

  ghost predicate AcceptedAtMostOnce(c: Settings)
  {
    forall states: seq<Sys>, actions: seq<Action>, k: nat :: IsRun(c, states, actions) && k < |states| ==> NoRepeats(states[k].accepted)
  }

  /** An accepted token still has its row, or is too old for any check that is in flight. */
  predicate Remembered(c: Settings, s: Sys, t: Token)
  {
    || (NonceKey(t.key, t.nonce) in s.rows && s.rows[NonceKey(t.key, t.nonce)] == t.timestamp + c.nonceTtl)
    || t.timestamp + c.nonceTtl < s.clock
  }

  ghost predicate Inv(c: Settings, s: Sys)
  {
    && (forall t :: t in s.accepted ==> Remembered(c, s, t))
    && (forall r :: r in s.inFlight ==> s.inFlight[r].at <= s.clock && s.inFlight[r].at <= s.inFlight[r].token.timestamp + c.maxSkew)
    && NoRepeats(s.accepted)
  }

  lemma StepKeepsInv(c: Settings, s: Sys, x: Action)
    requires c.maxSkew + c.lag <= c.nonceTtl
    requires Inv(c, s) && Enabled(c, s, x)
    ensures Inv(c, Do(c, s, x))
  {
    var s' := Do(c, s, x);
    forall t | t in s.accepted
      ensures Remembered(c, s', t)
    {
      assert Remembered(c, s, t);
    }
    if x.Consume? && s'.accepted != s.accepted {
      var t := s.inFlight[x.r].token;
      assert t in s.accepted ==> Remembered(c, s, t);
      assert Remembered(c, s', t);
    }
  }

  lemma {:induction false} RunKeepsInv(c: Settings, states: seq<Sys>, actions: seq<Action>, k: nat)
    requires c.maxSkew + c.lag <= c.nonceTtl
    requires IsRun(c, states, actions) && k < |states|
    ensures Inv(c, states[k])
  {
    if 0 < k {
      RunKeepsInv(c, states, actions, k - 1);
      StepKeepsInv(c, states[k - 1], actions[k - 1]);
    }
  }

  /** A run that accepts one token twice: its nonce is cleaned up while a second copy is in flight. */
  lemma ReplayRun(c: Settings)
    requires 0 <= c.maxSkew && 0 <= c.lag && 0 <= c.nonceTtl < c.maxSkew + c.lag
    ensures !AcceptedAtMostOnce(c)
  {
    var states := ReplayStates(c);
    var check := states[3].clock;
    var t, late := Token(0, 1, "n"), c.nonceTtl + 2;
    var actions := [Check(0, t), Consume(0), Tick(check), Check(1, t), Tick(late), Cleanup, Consume(1)];
    FirstCopy(c);
    SecondCopy(c);
    assert IsRun(c, states, actions);
    assert states[7].accepted[0] == states[7].accepted[1];
  }

  /** Both copies bear timestamp 1; the second is checked as late as the skew allows, and stored when the row has just gone. */
  function ReplayStates(c: Settings): seq<Sys>
  {
    var t, n := Token(0, 1, "n"), NonceKey(0, "n");
    var late, kept := c.nonceTtl + 2, 1 + c.nonceTtl;
    var check := if c.maxSkew + 1 < late then c.maxSkew + 1 else late;
    [Sys(1, map[], map[], []),
     Sys(1, map[], map[0 := Checked(t, 1)], []),
     Sys(1, map[n := kept], map[], [t]),
     Sys(check, map[n := kept], map[], [t]),
     Sys(check, map[n := kept], map[1 := Checked(t, check)], [t]),
     Sys(late, map[n := kept], map[1 := Checked(t, check)], [t]),
     Sys(late, map[], map[1 := Checked(t, check)], [t]),
     Sys(late, map[n := kept], map[], [t, t])]
  }

  lemma FirstCopy(c: Settings)
    requires 0 <= c.maxSkew && 0 <= c.lag && 0 <= c.nonceTtl < c.maxSkew + c.lag
    ensures var s, t := ReplayStates(c), Token(0, 1, "n");
      && Step(c, s[0], Check(0, t), s[1]) && Step(c, s[1], Consume(0), s[2]) && Step(c, s[2], Tick(s[3].clock), s[3])
  {
  }

  lemma SecondCopy(c: Settings)
    requires 0 <= c.maxSkew && 0 <= c.lag && 0 <= c.nonceTtl < c.maxSkew + c.lag
    ensures var s, t := ReplayStates(c), Token(0, 1, "n");
      && Step(c, s[3], Check(1, t), s[4]) && Step(c, s[4], Tick(c.nonceTtl + 2), s[5])
      && Step(c, s[5], Cleanup, s[6]) && Step(c, s[6], Consume(1), s[7])
  {
  }

  /**
   * Over all runs, with cleanup at any moment, a signed request is accepted at most once
   * exactly when nonces are kept for the whole skew plus the longest time a checked request
   * may still be on its way to the store.
   */
  lemma AcceptedAtMostOnceExactly(c: Settings)
    requires 0 <= c.maxSkew && 0 <= c.lag && 0 <= c.nonceTtl
    ensures AcceptedAtMostOnce(c) <==> c.maxSkew + c.lag <= c.nonceTtl
  {
    if c.maxSkew + c.lag <= c.nonceTtl {
      forall states: seq<Sys>, actions: seq<Action>, k: nat | IsRun(c, states, actions) && k < |states|
        ensures NoRepeats(states[k].accepted)
      {
        RunKeepsInv(c, states, actions, k);
      }
    } else {
      ReplayRun(c);
    }
  }

  function ConfiguredTtl(requested: int, maxSkew: int): int { if requested < maxSkew then maxSkew else requested }

  /** What the configuration enforces is enough when checking and consuming are one step, and leaves nothing to spare. */
  lemma ConfigurationIsSafeWithoutLag(requested: int, maxSkew: int, lag: int)
    requires 0 <= maxSkew && 0 <= lag
    ensures AcceptedAtMostOnce(Settings(maxSkew, ConfiguredTtl(requested, maxSkew), 0))
    ensures requested <= maxSkew ==> (AcceptedAtMostOnce(Settings(maxSkew, ConfiguredTtl(requested, maxSkew), lag)) <==> lag == 0)
  {
    AcceptedAtMostOnceExactly(Settings(maxSkew, ConfiguredTtl(requested, maxSkew), 0));
    AcceptedAtMostOnceExactly(Settings(maxSkew, ConfiguredTtl(requested, maxSkew), lag));
  }
}
