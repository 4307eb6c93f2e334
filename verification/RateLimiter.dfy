/** The in-memory fixed-window rate limiter, against the log of all hits it has forgotten. */
module RateLimiter {

  type Key = string
  type Time = int

  datatype Window = Window(count: nat, start: Time)

  datatype Answer = Answer(allowed: bool, limit: int, remaining: int, resetAt: Time, retryAfterSeconds: int)

  /** Windows are aligned to multiples of their length. */
  function Start(now: Time, length: int): (s: Time)
    requires 0 < length
    ensures s <= now < s + length
  {
    now / length * length
  }

  function CeilDiv(x: int, d: int): int
    requires 0 < d
  {
    (x + d - 1) / d
  }

  /** What the hits of a window so far mean for the next answer. */
  function AnswerTo(count: int, limit: int, length: int, now: Time): Answer
    requires 0 < length
  {
    var resetAt := Start(now, length) + length;
    Answer(count <= limit, limit, if limit - count > 0 then limit - count else 0, resetAt,
           if count <= limit then 0 else CeilDiv(resetAt - now, 1000))
  }

  /** The windows after a hit: those of other starts are gone, and the key's own has one more. */
  function After(windows: map<Key, Window>, key: Key, length: int, now: Time): map<Key, Window>
    requires 0 < length
  {
    var start := Start(now, length);
    var kept := map k | k in windows && windows[k].start == start :: windows[k];
    kept[key := Window((if key in kept then kept[key].count else 0) + 1, start)]
  }

  class InMemoryRateLimiterStore {
    var windows: map<Key, Window>

    constructor ()
      ensures windows == map[]
    {
      windows := map[];
    }

    method Prune(start: Time)
      modifies this
      ensures windows == map k | k in old(windows) && old(windows)[k].start == start :: old(windows)[k]
    {
      var rest := windows.Keys;
      ghost var was := windows;
      while rest != {}
        invariant rest <= was.Keys
        invariant forall k :: k in windows <==> k in was && (k in rest || was[k].start == start)
        invariant forall k :: k in windows ==> windows[k] == was[k]
        decreases |rest|
      {
        var k :| k in rest;
        if windows[k].start != start { windows := windows - {k}; }
        rest := rest - {k};
      }
    }

    method Hit(key: Key, length: int, limit: int, now: Time) returns (r: Answer)
      requires 0 < length
      modifies this
      ensures windows == After(old(windows), key, length, now)
      ensures key in windows && r == AnswerTo(windows[key].count, limit, length, now)
    {
      var start := now / length * length;
      var resetAt := start + length;
      Prune(start);
      var entry := if key in windows && windows[key].start == start then windows[key] else Window(0, start);
      entry := entry.(count := entry.count + 1);
      windows := windows[key := entry];
      var allowed := entry.count <= limit;
      var remaining := if limit - entry.count > 0 then limit - entry.count else 0;
      var retryAfterSeconds := if allowed then 0 else CeilDiv(start + length - now, 1000);
      r := Answer(allowed, limit, remaining, resetAt, retryAfterSeconds);
    }
  }

  // ----- the full log -----

  datatype Hit = Hit(key: Key, at: Time)

  predicate InOrder(log: seq<Hit>) { forall j, k :: 0 <= j < k < |log| ==> log[j].at <= log[k].at }

  function IsIn(h: Hit, key: Key, start: Time, length: int): nat
    requires 0 < length
  {
    if h.key == key && Start(h.at, length) == start then 1 else 0
  }

  /** The hits of a key in the aligned window that starts at `start`. */
  function Hits(log: seq<Hit>, key: Key, start: Time, length: int): nat
    requires 0 < length
  {
    if log == [] then 0 else Hits(log[..|log| - 1], key, start, length) + IsIn(log[|log| - 1], key, start, length)
  }

  /** The store after every hit of the log. */
  function Store(log: seq<Hit>, length: int): map<Key, Window>
    requires 0 < length
  {
    if log == [] then map[] else After(Store(log[..|log| - 1], length), log[|log| - 1].key, length, log[|log| - 1].at)
  }

  lemma {:induction false} NoHitsLater(log: seq<Hit>, key: Key, start: Time, length: int)
    requires 0 < length && forall k :: 0 <= k < |log| ==> Start(log[k].at, length) != start
    ensures Hits(log, key, start, length) == 0
  {
    if log != [] { NoHitsLater(log[..|log| - 1], key, start, length); }
  }

  lemma StartsInOrder(a: Time, b: Time, length: int)
    requires 0 < length && a <= b
    ensures Start(a, length) <= Start(b, length)
  {
    Spaced(b / length, a / length, length);
    Spaced(a / length, b / length, length);
  }

  lemma Spaced(m: int, n: int, length: int)
    requires 0 < length
    ensures m < n ==> m * length + length <= n * length
  {
    assert (m + 1) * length == m * length + length;
    Scaled(m + 1, n, length);
  }

  lemma Scaled(m: int, n: int, length: int)
    requires 0 < length
    ensures m <= n ==> m * length <= n * length
  {
  }

  /** With a clock that never goes back, the store holds the keys of the current window, each with its number of hits. */
  lemma {:induction false} StoreCountsTheLog(log: seq<Hit>, length: int, key: Key)
    requires 0 < length && InOrder(log) && log != []
    ensures var start := Start(log[|log| - 1].at, length);
      && (key in Store(log, length) <==> 0 < Hits(log, key, start, length))
      && (key in Store(log, length) ==> Store(log, length)[key] == Window(Hits(log, key, start, length), start))
  {
    var before, last := log[..|log| - 1], log[|log| - 1];
    var start := Start(last.at, length);
    if before == [] {
      assert Hits(before, key, start, length) == 0;
    } else {
      var previous := Start(before[|before| - 1].at, length);
      StoreCountsTheLog(before, length, key);
      if previous != start {
        forall k | 0 <= k < |before|
          ensures Start(before[k].at, length) != start
        {
          StartsInOrder(before[k].at, before[|before| - 1].at, length);
          StartsInOrder(before[|before| - 1].at, last.at, length);
        }
        NoHitsLater(before, key, start, length);
      }
    }
  }

  /** A hit is allowed exactly when the key's hits in its window, this one included, are within the limit: pruning never changes an answer. */
  lemma AllowedByTheLog(log: seq<Hit>, length: int, limit: int)
    requires 0 < length && InOrder(log) && log != []
    ensures var last := log[|log| - 1];
      var start := Start(last.at, length);
      && last.key in Store(log, length)
      && AnswerTo(Store(log, length)[last.key].count, limit, length, last.at)
           == AnswerTo(Hits(log, last.key, start, length), limit, length, last.at)
      && (AnswerTo(Store(log, length)[last.key].count, limit, length, last.at).allowed <==>
            Hits(log, last.key, start, length) <= limit)
  {
    StoreCountsTheLog(log, length, log[|log| - 1].key);
  }

  lemma {:induction false} PrefixHits(log: seq<Hit>, more: seq<Hit>, key: Key, start: Time, length: int)
    requires 0 < length && log <= more
    ensures Hits(log, key, start, length) <= Hits(more, key, start, length)
    decreases |more|
  {
    if |log| < |more| {
      PrefixHits(log, more[..|more| - 1], key, start, length);
    } else {
      assert log == more;
    }
  }

  /**
   * What an answer says remains is what remains: of the key's later hits in the window, exactly
   * that many are allowed, whoever else hits the store in between.
   */
  lemma RemainingIsExact(log: seq<Hit>, more: seq<Hit>, length: int, limit: int)
    requires 0 < length && log != [] && log < more && InOrder(more)
    requires var last, later := log[|log| - 1], more[|more| - 1];
      later.key == last.key && Start(later.at, length) == Start(last.at, length)
    ensures var last, later := log[|log| - 1], more[|more| - 1];
      var start := Start(last.at, length);
      && last.key in Store(log, length) && last.key in Store(more, length)
      && 1 <= Hits(more, last.key, start, length) - Hits(log, last.key, start, length)
      && (AnswerTo(Store(more, length)[last.key].count, limit, length, later.at).allowed <==>
            Hits(more, last.key, start, length) - Hits(log, last.key, start, length)
              <= AnswerTo(Store(log, length)[last.key].count, limit, length, last.at).remaining)
  {
    var last, later := log[|log| - 1], more[|more| - 1];
    assert log <= more[..|more| - 1];
    assert InOrder(log) by {
      assert forall k :: 0 <= k < |log| ==> log[k] == more[k];
    }
    PrefixHits(log, more[..|more| - 1], last.key, Start(last.at, length), length);
    StoreCountsTheLog(log, length, last.key);
    StoreCountsTheLog(more, length, last.key);
  }

  /** The rest of an answer: the limit, no wait for a hit that is allowed, and the reset at the start of the next window. */
  lemma AnswerExactly(count: int, limit: int, length: int, now: Time, at: Time)
    requires 0 < length
    ensures var r := AnswerTo(count, limit, length, now);
      && r.limit == limit && 0 <= r.remaining && (r.allowed ==> r.retryAfterSeconds == 0)
      && now < r.resetAt <= now + length && Start(r.resetAt, length) == r.resetAt
      && (now <= at < r.resetAt ==> Start(at, length) == Start(now, length))
  {
    var n := now / length;
    assert (n + 1) * length == n * length + length;
    StartIsAligned(n * length + length, n + 1, length);
    if now <= at < n * length + length { StartIsAligned(at, n, length); }
  }

  // ----- how many are let through -----

  /** The store lets the last hit of the log through. */
  predicate Passes(log: seq<Hit>, length: int, limit: int)
    requires 0 < length && log != []
  {
    var last := log[|log| - 1];
    last.key in Store(log, length) && AnswerTo(Store(log, length)[last.key].count, limit, length, last.at).allowed
  }

  /** The hits of a key that were let through in one aligned window. */
  function Passed(log: seq<Hit>, key: Key, start: Time, length: int, limit: int): nat
    requires 0 < length
  {
    if log == [] then 0
    else Passed(log[..|log| - 1], key, start, length, limit)
         + (if Passes(log, length, limit) then IsIn(log[|log| - 1], key, start, length) else 0)
  }

  /** The hits of a key that were let through from `from` on, for one window length. */
  function PassedFrom(log: seq<Hit>, key: Key, from: Time, length: int, limit: int): nat
    requires 0 < length
  {
    if log == [] then 0
    else PassedFrom(log[..|log| - 1], key, from, length, limit)
         + (if Passes(log, length, limit) && log[|log| - 1].key == key && from <= log[|log| - 1].at < from + length then 1 else 0)
  }

  lemma {:induction false} WindowIsLimited(log: seq<Hit>, key: Key, start: Time, length: int, limit: int)
    requires 0 < length && InOrder(log)
    ensures var hits := Hits(log, key, start, length);
      Passed(log, key, start, length, limit) == if hits <= limit then hits else if 0 < limit then limit else 0
  {
    if log != [] {
      WindowIsLimited(log[..|log| - 1], key, start, length, limit);
      AllowedByTheLog(log, length, limit);
    }
  }

  lemma StartIsAligned(at: Time, n: int, length: int)
    requires 0 < length && n * length <= at < n * length + length
    ensures Start(at, length) == n * length
  {
    Spaced(at / length, n, length);
    Spaced(n, at / length, length);
  }

  /** An interval of one length meets two aligned windows at most. */
  lemma TwoWindows(at: Time, from: Time, length: int)
    requires 0 < length && from <= at < from + length
    ensures Start(at, length) == Start(from, length) || Start(at, length) == Start(from, length) + length
  {
    var n := from / length;
    assert (n + 1) * length == n * length + length;
    if at < n * length + length { StartIsAligned(at, n, length); } else { StartIsAligned(at, n + 1, length); }
  }

  lemma {:induction false} IntervalWithinWindows(log: seq<Hit>, key: Key, from: Time, length: int, limit: int)
    requires 0 < length
    ensures var first := Start(from, length);
      PassedFrom(log, key, from, length, limit) <= Passed(log, key, first, length, limit) + Passed(log, key, first + length, length, limit)
  {
    if log != [] {
      var last := log[|log| - 1];
      IntervalWithinWindows(log[..|log| - 1], key, from, length, limit);
      if from <= last.at < from + length { TwoWindows(last.at, from, length); }
    }
  }

  /** Any interval of one window length, aligned or not, lets at most twice the limit through. */
  lemma IntervalIsLimited(log: seq<Hit>, key: Key, from: Time, length: int, limit: nat)
    requires 0 < length && InOrder(log)
    ensures PassedFrom(log, key, from, length, limit) <= 2 * limit
  {
    var first := Start(from, length);
    IntervalWithinWindows(log, key, from, length, limit);
    WindowIsLimited(log, key, first, length, limit);
    WindowIsLimited(log, key, first + length, length, limit);
  }

  /** Waiting as told always reaches the reset, by less than a second, and lands in a later window. */
  lemma RetryAfterReachesReset(count: int, limit: int, length: int, now: Time)
    requires 0 < length && limit < count
    ensures var r := AnswerTo(count, limit, length, now);
      && 1 <= r.retryAfterSeconds
      && r.resetAt <= now + 1000 * r.retryAfterSeconds < r.resetAt + 1000
      && Start(now, length) < Start(now + 1000 * r.retryAfterSeconds, length)
  {
    var r := AnswerTo(count, limit, length, now);
    var n := now / length;
    assert (n + 1) * length == n * length + length == r.resetAt;
    StartIsAligned(r.resetAt, n + 1, length);
    StartsInOrder(r.resetAt, now + 1000 * r.retryAfterSeconds, length);
  }

  /**
   * A hit keeps another key's count, as it is, exactly when that key's window starts where the
   * hit's own does: always with one length in one window, and with two lengths only by chance.
   */
  lemma OtherCountsKeptExactly(windows: map<Key, Window>, other: Key, key: Key, length: int, now: Time)
    requires 0 < length && other in windows && other != key
    ensures var after := After(windows, key, length, now);
      && (other in after && after[other] == windows[other] <==> windows[other].start == Start(now, length))
      && (other in after <==> windows[other].start == Start(now, length))
  {
  }
}
