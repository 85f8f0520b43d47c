// The in-memory sliding-window rate limiter of the backend
// (backend/services/rate_limit.py): one queue of request times per key,
// trimmed to the window on every call, and the key and the HTTP rejection
// built around it. The clock is a parameter (`now`, in seconds), the lock is
// left out (calls are sequential) and the request is reduced to its client
// host.
module RateLimit {
  import opened Wrappers
  import opened Text
  import opened Numbers

  // ---------------------------------------------------------------------
  // One key's queue
  // ---------------------------------------------------------------------

  /**
   * The `while queue and queue[0] <= window_start: popleft()` loop: the
   * longest prefix of times inside `window_start` or earlier is dropped,
   * and the first time kept is later than `window_start`.
   */
  function DropExpired(queue: seq<real>, windowStart: real): (kept: seq<real>)
    ensures |kept| <= |queue| && kept == queue[|queue| - |kept|..]
    ensures forall i :: 0 <= i < |queue| - |kept| ==> queue[i] <= windowStart
    ensures kept == [] || kept[0] > windowStart
  {
    if queue != [] && queue[0] <= windowStart then DropExpired(queue[1..], windowStart) else queue
  }

  /** What `allow` decides. `IndexError` is the crash of `queue[0]` on an empty queue with a limit of 0 or less. */
  datatype Decision = Allowed | Denied(retryAfter: int) | IndexError

  /** The decision and the key's queue afterwards. */
  datatype Outcome = Outcome(decision: Decision, queue: seq<real>)

  /**
   * `allow(key, limit, window_seconds)` on the key's queue at time `now`:
   * the expired times are dropped; with room left the call is allowed and
   * `now` appended, otherwise it is denied for the time until the oldest
   * kept request leaves the window, but at least one second. Only an
   * allowed call adds to the queue.
   */
  function Allow(queue: seq<real>, limit: int, windowSeconds: int, now: real): (o: Outcome)
    ensures o.decision.Allowed? ==> |o.queue| <= |queue| + 1 && o.queue != [] && o.queue[|o.queue| - 1] == now
    ensures !o.decision.Allowed? ==> |o.queue| <= |queue|
    ensures o.decision.Denied? ==> o.decision.retryAfter >= 1
  {
    var kept := DropExpired(queue, now - windowSeconds as real);
    if |kept| >= limit then
      if kept == [] then Outcome(IndexError, kept)
      else Outcome(Denied(RetryAfter(kept[0], windowSeconds, now)), kept)
    else Outcome(Allowed, kept + [now])
  }

  /**
   * `max(1, int(oldest + window_seconds - now))`: the whole seconds until
   * the oldest request leaves the window, at least one.
   */
  function RetryAfter(oldest: real, windowSeconds: int, now: real): (wait: int)
    ensures wait >= 1
    ensures oldest + windowSeconds as real - now >= 1.0 ==>
      wait as real <= oldest + windowSeconds as real - now < wait as real + 1.0
  {
    var whole := Truncate(oldest + windowSeconds as real - now);
    if 1 < whole then whole else 1
  }

  /**
   * A call is allowed exactly when fewer than `limit` requests remain in the
   * window, and only an allowed call adds to the queue; a denied one waits
   * at least a second.
   */
  lemma AllowDecides(queue: seq<real>, limit: int, windowSeconds: int, now: real)
    ensures var o := Allow(queue, limit, windowSeconds, now);
      var kept := DropExpired(queue, now - windowSeconds as real);
      && (o.decision.Allowed? <==> |kept| < limit)
      && (o.decision.Allowed? ==> o.queue == kept + [now])
      && (!o.decision.Allowed? ==> o.queue == kept)
      && (o.decision.IndexError? <==> |kept| >= limit && kept == [])
      && (o.decision.Denied? ==> o.decision.retryAfter >= 1)
  {
  }

  /** Every time in `queue` is later than `start`. */
  predicate AllAfter(queue: seq<real>, start: real)
  {
    forall i :: 0 <= i < |queue| ==> queue[i] > start
  }

  /** Every time in `queue` is `now` or earlier. */
  predicate NoneAfter(queue: seq<real>, now: real)
  {
    forall i :: 0 <= i < |queue| ==> queue[i] <= now
  }

  predicate Sorted(queue: seq<real>)
  {
    forall i, j :: 0 <= i <= j < |queue| ==> queue[i] <= queue[j]
  }

  /**
   * With a clock that never runs backwards, the queue stays sorted, and
   * after any call it holds no time at or before the start of the window
   * and none after `now`.
   */
  lemma AllowKeepsWindow(queue: seq<real>, limit: int, windowSeconds: int, now: real)
    requires windowSeconds > 0
    requires Sorted(queue) && NoneAfter(queue, now)
    ensures Sorted(Allow(queue, limit, windowSeconds, now).queue)
    ensures AllAfter(Allow(queue, limit, windowSeconds, now).queue, now - windowSeconds as real)
    ensures NoneAfter(Allow(queue, limit, windowSeconds, now).queue, now)
  {
    var start := now - windowSeconds as real;
    KeptInWindow(queue, start, now);
    NextQueue(queue, limit, windowSeconds, now);
    NextQueueInWindow(DropExpired(queue, start), Allow(queue, limit, windowSeconds, now).queue,
      |DropExpired(queue, start)| < limit, start, now);
  }

  /** The queue after a call is the kept times, with `now` appended when the call is allowed. */
  lemma NextQueue(queue: seq<real>, limit: int, windowSeconds: int, now: real)
    ensures var kept := DropExpired(queue, now - windowSeconds as real);
      Allow(queue, limit, windowSeconds, now).queue == if |kept| < limit then kept + [now] else kept
  {
  }

  /** The queue after a call, `kept` with or without `now`, stays sorted, inside the window and none after `now`. */
  lemma NextQueueInWindow(kept: seq<real>, next: seq<real>, allowed: bool, start: real, now: real)
    requires start < now
    requires Sorted(kept) && AllAfter(kept, start) && NoneAfter(kept, now)
    requires next == if allowed then kept + [now] else kept
    ensures Sorted(next) && AllAfter(next, start) && NoneAfter(next, now)
  {
    if allowed {
      AppendNowInWindow(kept, start, now);
    }
  }

  /** The times kept after dropping the expired ones are sorted, inside the window and none after `now`. */
  lemma KeptInWindow(queue: seq<real>, start: real, now: real)
    requires Sorted(queue) && NoneAfter(queue, now)
    ensures Sorted(DropExpired(queue, start))
    ensures AllAfter(DropExpired(queue, start), start)
    ensures NoneAfter(DropExpired(queue, start), now)
  {
    var kept := DropExpired(queue, start);
    SuffixKeepsOrder(queue, |queue| - |kept|, now);
    if kept != [] {
      assert forall i :: 0 <= i < |kept| ==> kept[0] <= kept[i];
    }
  }

  /** Appending `now` to such a queue keeps it sorted, inside the window and none after `now`. */
  lemma AppendNowInWindow(kept: seq<real>, start: real, now: real)
    requires start < now
    requires Sorted(kept) && AllAfter(kept, start) && NoneAfter(kept, now)
    ensures Sorted(kept + [now]) && AllAfter(kept + [now], start) && NoneAfter(kept + [now], now)
  {
  }

  /** A suffix of a sorted queue of past times is one too. */
  lemma SuffixKeepsOrder(queue: seq<real>, from: nat, now: real)
    requires from <= |queue| && Sorted(queue) && NoneAfter(queue, now)
    ensures Sorted(queue[from..]) && NoneAfter(queue[from..], now)
  {
    var kept := queue[from..];
    assert forall i :: 0 <= i < |kept| ==> kept[i] == queue[from + i];
  }

  /** With the same limit on every call, the queue never grows past the limit. */
  lemma AllowKeepsBound(queue: seq<real>, limit: int, windowSeconds: int, now: real)
    requires |queue| <= limit
    ensures |Allow(queue, limit, windowSeconds, now).queue| <= limit
  {
  }

  /**
   * A denied call appends nothing: the queue only loses expired times. Its
   * wait is at most the window when the oldest kept request is not in the
   * future.
   */
  lemma DeniedAddsNothing(queue: seq<real>, limit: int, windowSeconds: int, now: real)
    requires Allow(queue, limit, windowSeconds, now).decision.Denied?
    ensures var o := Allow(queue, limit, windowSeconds, now);
      && |o.queue| <= |queue|
      && o.queue == queue[|queue| - |o.queue|..]
      && (NoneAfter(queue, now) ==> o.decision.retryAfter <= if windowSeconds > 1 then windowSeconds else 1)
  {
    var kept := DropExpired(queue, now - windowSeconds as real);
    if NoneAfter(queue, now) {
      assert kept[0] == queue[|queue| - |kept|];
    }
  }

  /**
   * Times that fit in one window: in order, and the last less than
   * `windowSeconds` after the first.
   */
  predicate WithinOneWindow(times: seq<real>, windowSeconds: int)
  {
    forall i, j :: 0 <= i <= j < |times| ==> times[i] <= times[j] && times[j] - times[i] < windowSeconds as real
  }

  /** The decisions of successive calls on one key at the given times. */
  function Run(queue: seq<real>, times: seq<real>, limit: int, windowSeconds: int): (decisions: seq<Decision>)
    ensures |decisions| == |times|
    decreases |times|
  {
    if times == [] then []
    else
      var o := Allow(queue, limit, windowSeconds, times[0]);
      [o.decision] + Run(o.queue, times[1..], limit, windowSeconds)
  }

  /**
   * Calls that all fall in one window are allowed while the queue has room
   * and denied once it is full: nothing expires in between.
   */
  lemma {:induction false} RunWithinOneWindow(queue: seq<real>, times: seq<real>, limit: int, windowSeconds: int)
    requires limit >= 1 && |queue| + |times| <= limit + 1
    requires WithinOneWindow(queue + times, windowSeconds)
    ensures forall i :: 0 <= i < |times| ==> (Run(queue, times, limit, windowSeconds)[i].Allowed? <==> |queue| + i < limit)
    ensures forall i :: 0 <= i < |times| ==> (Run(queue, times, limit, windowSeconds)[i].Denied? <==> |queue| + i >= limit)
    decreases |times|
  {
    if times != [] {
      var t := times[0];
      NothingExpiresWithinOneWindow(queue, times, windowSeconds);
      AllowWithNothingExpired(queue, limit, windowSeconds, t);
      var o := Allow(queue, limit, windowSeconds, t);
      var run := Run(queue, times, limit, windowSeconds);
      var rest := Run(o.queue, times[1..], limit, windowSeconds);
      RunStep(queue, times, limit, windowSeconds);
      if |queue| < limit {
        assert o.queue + times[1..] == queue + times;
        RunWithinOneWindow(o.queue, times[1..], limit, windowSeconds);
        forall i | 1 <= i < |times|
          ensures (run[i].Allowed? <==> |queue| + i < limit) && (run[i].Denied? <==> |queue| + i >= limit)
        {
          assert run[i] == rest[i - 1];
        }
      } else {
        assert |times| == 1;
      }
    }
  }

  /** When no time expires, a call is allowed, and appended, exactly while the queue has room. */
  lemma AllowWithNothingExpired(queue: seq<real>, limit: int, windowSeconds: int, now: real)
    requires limit >= 1 && DropExpired(queue, now - windowSeconds as real) == queue
    ensures var o := Allow(queue, limit, windowSeconds, now);
      && (o.decision.Allowed? <==> |queue| < limit)
      && (o.decision.Denied? <==> |queue| >= limit)
      && (|queue| < limit ==> o.queue == queue + [now])
  {
  }

  /** The first call decides first, and the rest run on the queue it leaves. */
  lemma RunStep(queue: seq<real>, times: seq<real>, limit: int, windowSeconds: int)
    requires times != []
    ensures var o := Allow(queue, limit, windowSeconds, times[0]);
      && Run(queue, times, limit, windowSeconds)[0] == o.decision
      && forall i :: 1 <= i < |times| ==>
           Run(queue, times, limit, windowSeconds)[i] == Run(o.queue, times[1..], limit, windowSeconds)[i - 1]
  {
    var o := Allow(queue, limit, windowSeconds, times[0]);
    var rest := Run(o.queue, times[1..], limit, windowSeconds);
    assert Run(queue, times, limit, windowSeconds) == [o.decision] + rest;
  }

  /** Inside one window, a call expires none of the earlier calls. */
  lemma NothingExpiresWithinOneWindow(queue: seq<real>, times: seq<real>, windowSeconds: int)
    requires times != [] && WithinOneWindow(queue + times, windowSeconds)
    ensures DropExpired(queue, times[0] - windowSeconds as real) == queue
  {
    if queue != [] {
      var all := queue + times;
      assert all[0] == queue[0] && all[|queue|] == times[0];
    }
  }

  /**
   * The signup limit (10 calls per 600 seconds for one key): of eleven
   * calls within ten minutes, the first ten pass and the eleventh is denied.
   */
  lemma EleventhSignupDenied(times: seq<real>)
    requires |times| == 11 && WithinOneWindow(times, 600)
    ensures forall i :: 0 <= i < 10 ==> Run([], times, 10, 600)[i].Allowed?
    ensures Run([], times, 10, 600)[10].Denied?
  {
    assert [] + times == times;
    RunWithinOneWindow([], times, 10, 600);
  }

  // ---------------------------------------------------------------------
  // The limiter object
  // ---------------------------------------------------------------------

  /** `InMemoryRateLimiter`: the queue of each key seen so far. */
  class RateLimiter {
    var events: map<string, seq<real>>

    /** A fresh limiter knows no key. */
    constructor ()
      ensures events == map[]
    {
      events := map[];
    }

    /** `self._events[key]`: the queue, empty for a key never seen. */
    function QueueOf(key: string): seq<real>
      reads this
    {
      if key in events then events[key] else []
    }

    /**
     * `allow`: pops the expired times off the front of the key's queue, then
     * either appends `now` or reports how long to wait. The key is recorded
     * even when the call fails, and no other key's queue changes.
     */
    method AllowCall(key: string, limit: int, windowSeconds: int, now: real) returns (decision: Decision)
      modifies this
      ensures var o := Allow(old(QueueOf(key)), limit, windowSeconds, now);
        && decision == o.decision
        && events == old(events)[key := o.queue]
    {
      var queue := PopExpired(QueueOf(key), now - windowSeconds as real);
      if |queue| >= limit {
        events := events[key := queue];
        if queue == [] {
          decision := IndexError;
        } else {
          decision := Denied(RetryAfter(queue[0], windowSeconds, now));
        }
      } else {
        events := events[key := queue + [now]];
        decision := Allowed;
      }
    }
  }

  /** The `popleft` loop of `allow`: the times of the queue left once the expired ones are popped. */
  method PopExpired(queue: seq<real>, windowStart: real) returns (kept: seq<real>)
    ensures kept == DropExpired(queue, windowStart)
  {
    kept := queue;
    while kept != [] && kept[0] <= windowStart
      invariant DropExpired(kept, windowStart) == DropExpired(queue, windowStart)
      decreases |kept|
    {
      kept := kept[1..];
    }
  }

  // ---------------------------------------------------------------------
  // Keys and enforcement
  // ---------------------------------------------------------------------

  /**
   * `build_rate_limit_key`: `<action>:<actor>`, where the actor is the user
   * id when given, else the stripped, lower-cased e-mail when non-empty,
   * else the stripped, lower-cased client host (`unknown` without one).
   */
  function BuildKey(action: string, clientHost: Option<string>, userId: Option<int>, email: Option<string>): (key: string)
    ensures |key| > |action| + 1 && key[..|action| + 1] == action + ":"
  {
    var ip := Lower(Trim(clientHost.GetOr("unknown")));
    var actor :=
      if userId.Some? then "user:" + IntToString(userId.value)
      else if email.Some? && email.value != "" then "email:" + Lower(Trim(email.value))
      else "ip:" + ip;
    action + ":" + actor
  }

  /**
   * A user id outranks the e-mail and the host, and distinct users never
   * share a bucket.
   */
  lemma UserKeys(action: string, hostA: Option<string>, hostB: Option<string>, a: int, b: int,
                 emailA: Option<string>, emailB: Option<string>)
    ensures BuildKey(action, hostA, Some(a), emailA) == BuildKey(action, hostB, Some(a), emailB)
    ensures a != b ==> BuildKey(action, hostA, Some(a), emailA) != BuildKey(action, hostB, Some(b), emailB)
  {
    var keyA := BuildKey(action, hostA, Some(a), emailA);
    var keyB := BuildKey(action, hostB, Some(b), emailB);
    if keyA == keyB {
      DropPrefix(action + ":", "user:" + IntToString(a));
      DropPrefix(action + ":", "user:" + IntToString(b));
      DropPrefix("user:", IntToString(a));
      DropPrefix("user:", IntToString(b));
      IntToStringInjective(a, b);
    }
  }

  /**
   * Without a user id, e-mails that differ only in letter case and
   * surrounding whitespace share one bucket, whatever the host; without an
   * e-mail either, the bucket is the host's.
   */
  lemma EmailKeys(action: string, hostA: Option<string>, hostB: Option<string>, emailA: string, emailB: string)
    requires emailA != "" && emailB != ""
    requires Lower(Trim(emailA)) == Lower(Trim(emailB))
    ensures BuildKey(action, hostA, None, Some(emailA)) == BuildKey(action, hostB, None, Some(emailB))
    ensures BuildKey(action, hostA, None, None) == BuildKey(action, hostA, None, Some(""))
  {
  }

  lemma DropPrefix(prefix: string, rest: string)
    ensures (prefix + rest)[|prefix|..] == rest
  {
  }

  /** What `enforce_rate_limit` does with the decision. */
  datatype Enforcement =
    | Passed
    | TooManyRequests(status: int, detail: string, retryAfterHeader: string)
    | Crashed

  /** An HTTP 429 (Too Many Requests, section 4 of RFC 6585). */
  const TooManyRequestsStatus: int := 429

  /** The message of a rejection. */
  function RejectionDetail(action: string, retryAfter: int): string
  {
    "Rate limit exceeded for " + action + ". Try again in " + IntToString(retryAfter) + " seconds."
  }

  /**
   * `enforce_rate_limit`: passes an allowed call, and rejects a denied one
   * with 429 and a `Retry-After` header holding the wait in delay-seconds
   * (section 10.2.3 of RFC 9110): a positive whole number of seconds.
   */
  method Enforce(limiter: RateLimiter, clientHost: Option<string>, action: string, limit: int, windowSeconds: int,
                 userId: Option<int>, email: Option<string>, now: real) returns (r: Enforcement)
    modifies limiter
    ensures var key := BuildKey(action, clientHost, userId, email);
      var o := Allow(old(limiter.QueueOf(key)), limit, windowSeconds, now);
      && limiter.events == old(limiter.events)[key := o.queue]
      && (r.Passed? <==> o.decision.Allowed?)
      && (r.Crashed? <==> o.decision.IndexError?)
      && (r.TooManyRequests? ==>
            && o.decision.Denied?
            && r.status == TooManyRequestsStatus
            && r.detail == RejectionDetail(action, o.decision.retryAfter)
            && r.retryAfterHeader == IntToString(o.decision.retryAfter))
    ensures r.TooManyRequests? ==> r.retryAfterHeader != [] && r.retryAfterHeader[0] != '-'
  {
    var key := BuildKey(action, clientHost, userId, email);
    var decision := limiter.AllowCall(key, limit, windowSeconds, now);
    match decision {
      case Allowed => r := Passed;
      case IndexError => r := Crashed;
      case Denied(retryAfter) =>
        r := TooManyRequests(TooManyRequestsStatus, RejectionDetail(action, retryAfter), IntToString(retryAfter));
    }
  }
}
