/** The fixed-window rate limiter (backend/src/services/rate-limit.ts): a map
    from key to a counter of calls in the current window. The clock is the `now`
    parameter, in milliseconds. */
module RateLimit {
  import opened Common

  /** A window: the calls counted so far and the time it ends. */
  datatype Counter = Counter(count: int, resetAt: int)

  const RATE_LIMIT_MESSAGE := "Rate limit exceeded"

  /** RateLimitError: the fixed message and the seconds to wait. */
  datatype RateLimitError = RateLimitError(message: string, retryAfter: int)

  /** Math.ceil(a / b) for a positive divisor. */
  function CeilDiv(a: int, b: int): (q: int)
    requires b > 0
    ensures (q - 1) * b < a <= q * b
  {
    -((-a) / b)
  }

  /** The counter a call works with: the stored one, or a fresh window when
      there is none or the stored one has ended. */
  function Window(windows: map<string, Counter>, key: string, now: int, windowMs: int): Counter {
    if key !in windows || now >= windows[key].resetAt then Counter(0, now + windowMs)
    else windows[key]
  }

  /** Math.max(1, Math.ceil(retryAfterMs / 1000)): whole seconds, at least one. */
  function RetryAfter(retryAfterMs: int): (s: int)
    ensures s >= 1
    ensures retryAfterMs > 0 ==> (s - 1) * 1000 < retryAfterMs <= s * 1000
    ensures retryAfterMs <= 1000 ==> s == 1
  {
    var q := CeilDiv(retryAfterMs, 1000);
    if q < 1 then 1 else q
  }

  /** One assertRateLimit call: the new map and its outcome. */
  function Step(windows: map<string, Counter>, key: string, limit: int, windowMs: int, now: int)
    : (map<string, Counter>, Result<(), RateLimitError>)
  {
    var c := Window(windows, key, now, windowMs);
    if c.count >= limit then (windows, Failure(RateLimitError(RATE_LIMIT_MESSAGE, RetryAfter(c.resetAt - now))))
    else (windows[key := Counter(c.count + 1, c.resetAt)], Success(()))
  }

  class RateLimiter {
    /** windowStore. */
    var windows: map<string, Counter>

    constructor ()
      ensures windows == map[]
    {
      windows := map[];
    }

    /** assertRateLimit: counts the call in the key's window, or rejects it
        when the window already holds `limit` calls. */
    method AssertRateLimit(key: string, limit: int, windowMs: int, now: int)
      returns (outcome: Result<(), RateLimitError>)
      modifies this
      ensures (windows, outcome) == Step(old(windows), key, limit, windowMs, now)
      ensures outcome.Failure? ==> windows == old(windows) && outcome.error.retryAfter >= 1
      ensures forall k :: k != key ==> (k in windows <==> k in old(windows))
      ensures forall k :: k != key && k in windows ==> windows[k] == old(windows)[k]
    {
      var counter: Counter;
      if key !in windows || now >= windows[key].resetAt {
        counter := Counter(0, now + windowMs);
      } else {
        counter := windows[key];
      }
      if counter.count >= limit {
        var retryAfterMs := counter.resetAt - now;
        outcome := Failure(RateLimitError(RATE_LIMIT_MESSAGE, RetryAfter(retryAfterMs)));
      } else {
        counter := counter.(count := counter.count + 1);
        windows := windows[key := counter];
        outcome := Success(());
      }
    }
  }

  /** A call is rejected exactly when its window is full; a rejection keeps the
      map, and an accepted call adds exactly one to the window's count. */
  lemma StepOutcome(windows: map<string, Counter>, key: string, limit: int, windowMs: int, now: int)
    ensures var (w, r) := Step(windows, key, limit, windowMs, now);
            var c := Window(windows, key, now, windowMs);
            && (r.Failure? <==> c.count >= limit)
            && (r.Failure? ==> w == windows && r.error.retryAfter >= 1 && r.error.message == RATE_LIMIT_MESSAGE)
            && (r.Success? ==> key in w && w[key] == Counter(c.count + 1, c.resetAt))
  {
  }

  /** A missing or ended window restarts at zero and ends `windowMs` from now. */
  lemma WindowRestarts(windows: map<string, Counter>, key: string, now: int, windowMs: int)
    requires key !in windows || now >= windows[key].resetAt
    ensures Window(windows, key, now, windowMs) == Counter(0, now + windowMs)
  {
  }

  /** Counters of other keys are never touched. */
  lemma StepOtherKeys(windows: map<string, Counter>, key: string, limit: int, windowMs: int, now: int, other: string)
    requires other != key
    ensures var w := Step(windows, key, limit, windowMs, now).0;
            (other in w <==> other in windows) && (other in w ==> w[other] == windows[other])
  {
  }

  /** A sequence of calls on one key at the given times: the final map and the
      outcomes, in call order. */
  function Calls(windows: map<string, Counter>, key: string, limit: int, windowMs: int, times: seq<int>)
    : (map<string, Counter>, seq<Result<(), RateLimitError>>)
  {
    if times == [] then (windows, [])
    else
      var (w, rs) := Calls(windows, key, limit, windowMs, times[..|times| - 1]);
      var (w', r) := Step(w, key, limit, windowMs, times[|times| - 1]);
      (w', rs + [r])
  }

  /** For a fresh key, the first k <= limit calls inside the first call's window
      all succeed and leave the count at k. */
  lemma {:induction false} FreshKeyPrefix(windows: map<string, Counter>, key: string, limit: int, windowMs: int,
                                          times: seq<int>, k: nat)
    requires key !in windows
    requires 1 <= k <= |times| && k <= limit
    requires forall i :: 0 <= i < |times| ==> times[i] < times[0] + windowMs
    ensures var (w, rs) := Calls(windows, key, limit, windowMs, times[..k]);
            && key in w && w[key] == Counter(k, times[0] + windowMs)
            && |rs| == k && forall i :: 0 <= i < k ==> rs[i].Success?
  {
    assert times[..k][..k - 1] == times[..k - 1];
    if k == 1 {
      assert times[..0] == [];
    } else {
      FreshKeyPrefix(windows, key, limit, windowMs, times, k - 1);
    }
  }

  /** For a fresh key, the first `limit` calls inside one window succeed and
      the next one is rejected. */
  lemma FreshKeyWindow(windows: map<string, Counter>, key: string, limit: int, windowMs: int, times: seq<int>)
    requires key !in windows
    requires limit >= 1 && |times| == limit + 1
    requires forall i :: 0 <= i < |times| ==> times[i] < times[0] + windowMs
    ensures var rs := Calls(windows, key, limit, windowMs, times).1;
            |rs| == limit + 1 && (forall i :: 0 <= i < limit ==> rs[i].Success?) && rs[limit].Failure?
  {
    FreshKeyPrefix(windows, key, limit, windowMs, times, limit);
    assert times[..limit + 1] == times;
    assert times[..limit + 1][..limit] == times[..limit];
  }
}
