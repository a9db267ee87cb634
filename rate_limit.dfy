/** The in-memory fixed-window rate limiter (lib/rate-limit.ts).

    Times are milliseconds, as `Date.now()` returns them; the clock reading is a
    parameter. The `setInterval` timer that runs the sweep every five minutes is
    not modelled: the sweep is a method called with the current time. */
module RateLimit {
  import opened Wrappers

  /** A stored window: calls counted so far and the instant the window closes. */
  datatype Entry = Entry(count: int, resetTime: int)

  /** What `check` returns. */
  datatype Decision = Decision(allowed: bool, remaining: int, resetTime: int)

  /** The entry stored after a call, with the call's decision. */
  datatype StepResult = StepResult(entry: Entry, decision: Decision)

  /** `checkRateLimit`'s defaults: 60 calls per minute. */
  const DefaultLimit: int := 60
  const DefaultWindowMs: int := 60 * 1000

  /** A window has expired only once its reset instant lies strictly before `now`. */
  predicate Expired(e: Entry, now: int)
  {
    e.resetTime < now
  }

  /** One `check` call, given the entry stored for the identifier (if any). */
  function Step(stored: Option<Entry>, limit: int, windowMs: int, now: int): StepResult
  {
    if stored.None? || Expired(stored.value, now) then
      StepResult(Entry(1, now + windowMs), Decision(true, limit - 1, now + windowMs))
    else if stored.value.count < limit then
      var e := stored.value;
      StepResult(Entry(e.count + 1, e.resetTime), Decision(true, limit - (e.count + 1), e.resetTime))
    else
      StepResult(stored.value, Decision(false, 0, stored.value.resetTime))
  }

  /** The three cases of `check`: a missing or expired entry opens a new window
      with count 1; inside the window and under the limit the count grows by one
      and the reset instant stays; at the limit the call is denied and the entry
      is left as it was. `remaining` is always the limit minus the new count,
      or 0 on denial. */
  lemma StepCases(stored: Option<Entry>, limit: int, windowMs: int, now: int)
    ensures var r := Step(stored, limit, windowMs, now);
      && (stored.None? || Expired(stored.value, now) ==>
            r.entry == Entry(1, now + windowMs) && r.decision.allowed)
      && (stored.Some? && !Expired(stored.value, now) ==>
            r.entry.resetTime == stored.value.resetTime
            && (r.decision.allowed <==> stored.value.count < limit)
            && (r.decision.allowed ==> r.entry.count == stored.value.count + 1)
            && (!r.decision.allowed ==> r.entry == stored.value && r.decision.remaining == 0))
      && r.decision.resetTime == r.entry.resetTime
      && (r.decision.allowed ==> r.decision.remaining == limit - r.entry.count)
  {
  }

  /** An entry whose reset instant equals `now` is still inside its window. */
  lemma ResetInstantIsInsideWindow(e: Entry, limit: int, windowMs: int)
    requires e.count < limit
    ensures Step(Some(e), limit, windowMs, e.resetTime).entry == Entry(e.count + 1, e.resetTime)
  {
  }

  /** For a limit of at least 1, a count between 1 and the limit stays there. */
  lemma StepKeepsCountInRange(stored: Option<Entry>, limit: int, windowMs: int, now: int)
    requires limit >= 1
    requires stored.Some? ==> 1 <= stored.value.count <= limit
    ensures 1 <= Step(stored, limit, windowMs, now).entry.count <= limit
  {
  }

  /** The number of calls allowed when calls arrive at the given times. */
  function AllowedCount(stored: Option<Entry>, limit: int, windowMs: int, times: seq<int>): nat
    decreases |times|
  {
    if times == [] then 0
    else
      var r := Step(stored, limit, windowMs, times[0]);
      (if r.decision.allowed then 1 else 0) + AllowedCount(Some(r.entry), limit, windowMs, times[1..])
  }

  /** Inside an open window, no more calls are allowed than the limit leaves. */
  lemma {:induction false} WithinWindowBound(e: Entry, limit: int, windowMs: int, times: seq<int>)
    requires e.count <= limit
    requires forall i :: 0 <= i < |times| ==> times[i] <= e.resetTime
    ensures AllowedCount(Some(e), limit, windowMs, times) <= limit - e.count
    decreases |times|
  {
    if times != [] {
      var r := Step(Some(e), limit, windowMs, times[0]);
      assert r.entry.resetTime == e.resetTime;
      WithinWindowBound(r.entry, limit, windowMs, times[1..]);
    }
  }

  /** At most `limit` calls per window per identifier: a call that opens a window
      at `t0`, followed by any calls up to `t0 + windowMs`, is allowed at most
      `limit` times in all. */
  lemma AtMostLimitPerWindow(stored: Option<Entry>, limit: int, windowMs: int, t0: int, times: seq<int>)
    requires limit >= 1
    requires stored.None? || Expired(stored.value, t0)
    requires forall i :: 0 <= i < |times| ==> times[i] <= t0 + windowMs
    ensures AllowedCount(stored, limit, windowMs, [t0] + times) <= limit
  {
    assert ([t0] + times)[1..] == times;
    WithinWindowBound(Entry(1, t0 + windowMs), limit, windowMs, times);
  }

  /** The entries the sweep keeps: those whose window has not expired. */
  function Unexpired(requests: map<string, Entry>, now: int): (kept: map<string, Entry>)
    ensures forall k :: k in kept <==> k in requests && !Expired(requests[k], now)
    ensures forall k :: k in kept ==> kept[k] == requests[k]
  {
    map k | k in requests && !Expired(requests[k], now) :: requests[k]
  }

  /** Every stored count lies between 1 and `limit`. */
  ghost predicate CountsWithin(requests: map<string, Entry>, limit: int)
  {
    forall k :: k in requests ==> 1 <= requests[k].count <= limit
  }

  class RateLimiter {
    var requests: map<string, Entry>

    constructor ()
      ensures requests == map[]
    {
      requests := map[];
    }

    /** `check(identifier, limit, windowMs)` at time `now`: only the entry of
        `identifier` is read or written. */
    method Check(identifier: string, limit: int, windowMs: int, now: int) returns (d: Decision)
      modifies this
      ensures var stored := if identifier in old(requests) then Some(old(requests)[identifier]) else None;
        var r := Step(stored, limit, windowMs, now);
        d == r.decision && requests == old(requests)[identifier := r.entry]
      ensures limit >= 1 && CountsWithin(old(requests), limit) ==> CountsWithin(requests, limit)
    {
      if identifier !in requests || requests[identifier].resetTime < now {
        var resetTime := now + windowMs;
        requests := requests[identifier := Entry(1, resetTime)];
        return Decision(true, limit - 1, resetTime);
      }
      var entry := requests[identifier];
      if entry.count < limit {
        entry := entry.(count := entry.count + 1);
        requests := requests[identifier := entry];
        return Decision(true, limit - entry.count, entry.resetTime);
      }
      return Decision(false, 0, entry.resetTime);
    }

    /** The expiry sweep: deletes exactly the entries whose window has expired. */
    method Sweep(now: int)
      modifies this
      ensures requests == Unexpired(old(requests), now)
    {
      ghost var original := requests;
      var pending := requests.Keys;
      while pending != {}
        invariant pending <= original.Keys
        invariant forall k :: k in requests <==> k in original && (k in pending || !Expired(original[k], now))
        invariant forall k :: k in requests ==> requests[k] == original[k]
        decreases pending
      {
        var key :| key in pending;
        if requests[key].resetTime < now {
          requests := requests - {key};
        }
        pending := pending - {key};
      }
    }
  }

  /** `checkRateLimit(identifier, limit = 60, windowMs = 60000)` on the shared limiter. */
  method CheckRateLimit(
    limiter: RateLimiter, identifier: string, limit: Option<int>, windowMs: Option<int>, now: int)
    returns (d: Decision)
    modifies limiter
    ensures var stored := if identifier in old(limiter.requests) then Some(old(limiter.requests)[identifier]) else None;
      var r := Step(stored, limit.GetOr(DefaultLimit), windowMs.GetOr(DefaultWindowMs), now);
      d == r.decision && limiter.requests == old(limiter.requests)[identifier := r.entry]
  {
    d := limiter.Check(identifier, limit.GetOr(DefaultLimit), windowMs.GetOr(DefaultWindowMs), now);
  }
}
