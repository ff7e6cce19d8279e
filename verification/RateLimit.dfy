/**
 The fixed-window rate limiter: one bucket row per key, overwritten by an upsert.
 Times are integer milliseconds.
 */
module RateLimit {
  import opened Wrappers

  datatype Bucket = Bucket(windowStart: int, count: nat)

  datatype Verdict = Verdict(allowed: bool, remaining: nat)

  /**
   A call reads the clock twice: `asked` before it waits for a connection and its transaction begins, for the end of
   a window, and `now` inside the transaction, for the row.
   */
  datatype Call = Call(asked: int, now: int)

  /** The upsert: a bucket whose window is over starts again at one, any other counts one more. */
  function Hit(b: Option<Bucket>, windowMs: int, c: Call): Bucket {
    if b.None? || b.value.windowStart <= c.asked - windowMs then Bucket(c.now, 1)
    else Bucket(b.value.windowStart, b.value.count + 1)
  }

  function Judge(count: nat, limit: int): Verdict {
    Verdict(count <= limit, if limit > count then limit - count else 0)
  }

  class RateLimiter {
    var buckets: map<string, Bucket>

    constructor ()
      ensures buckets == map[]
    {
      buckets := map[];
    }

    /** `asked` and `now` are what the clock shows at the two places that read it. */
    method Consume(key: string, limit: int, windowMs: int, asked: int, now: int) returns (reply: Reply<Verdict>)
      modifies this
      ensures limit < 1 || windowMs < 1 ==> reply == Refused(ConfigInvalid) && buckets == old(buckets)
      ensures limit >= 1 && windowMs >= 1 ==>
                var before := if key in old(buckets) then Some(old(buckets)[key]) else None;
                var after := Hit(before, windowMs, Call(asked, now));
                buckets == old(buckets)[key := after] && reply == Ok(Judge(after.count, limit))
    {
      if limit < 1 || windowMs < 1 {
        return Refused(ConfigInvalid);
      }
      var boundary := asked - windowMs;
      if key !in buckets {
        buckets := buckets[key := Bucket(now, 1)];
      } else if buckets[key].windowStart <= boundary {
        buckets := buckets[key := Bucket(now, 1)];
      } else {
        buckets := buckets[key := buckets[key].(count := buckets[key].count + 1)];
      }
      var count := buckets[key].count;
      reply := Ok(Verdict(count <= limit, if limit > count then limit - count else 0));
    }
  }

  /******* One bucket over a whole run *******/

  /** Between its two readings a call can wait for any time, but the clock does not go back. */
  predicate Forward(calls: seq<Call>) {
    forall i | 0 <= i < |calls| :: calls[i].asked <= calls[i].now
  }

  /** Nor from one update of the row to the next. */
  predicate Monotone(calls: seq<Call>) {
    Forward(calls) && forall i, j | 0 <= i < j < |calls| :: calls[i].now <= calls[j].now
  }

  /** The bucket after these calls, in the order in which they update its row. */
  function After(windowMs: int, calls: seq<Call>): Option<Bucket> {
    if calls == [] then None else Some(Hit(After(windowMs, calls[..|calls| - 1]), windowMs, calls[|calls| - 1]))
  }

  /** Whether the last of these calls is allowed. */
  predicate LastAllowed(limit: int, windowMs: int, calls: seq<Call>)
    requires calls != []
  {
    After(windowMs, calls).value.count <= limit
  }

  /** How many allowed calls fall in the half-open interval from `x` of length `windowMs`. */
  function AllowedIn(limit: int, windowMs: int, calls: seq<Call>, x: int): nat {
    if calls == [] then 0
    else AllowedIn(limit, windowMs, calls[..|calls| - 1], x)
         + (if x <= calls[|calls| - 1].now < x + windowMs && LastAllowed(limit, windowMs, calls) then 1 else 0)
  }

  function Min(a: int, b: int): int {
    if a < b then a else b
  }

  /** What one run of calls leaves behind, for any interval start `x`. */
  ghost predicate Bounded(limit: int, windowMs: int, calls: seq<Call>, x: int)
    requires calls != []
  {
    var b := After(windowMs, calls).value;
    var n := AllowedIn(limit, windowMs, calls, x);
    var here := Min(b.count, limit);
    && b.count >= 1
    && b.windowStart <= calls[|calls| - 1].now
    && n <= 2 * limit - 1
    && (calls[|calls| - 1].now < x ==> n == 0)
    && (b.windowStart < x ==> n <= here - 1)
    && (b.windowStart >= x ==> n <= limit - 1 + here || x + windowMs <= b.windowStart)
  }

  lemma {:induction false} BoundedAlways(limit: int, windowMs: int, calls: seq<Call>, x: int)
    requires limit >= 1 && windowMs >= 1 && calls != [] && Monotone(calls)
    ensures Bounded(limit, windowMs, calls, x)
    decreases |calls|
  {
    var init := calls[..|calls| - 1];
    if init != [] {
      BoundedAlways(limit, windowMs, init, x);
      assert init[|init| - 1].now <= calls[|calls| - 1].now;
    }
  }

  /**
   The limiter's real guarantee: however the calls fall and however long they wait between their readings, no interval
   of one window's length holds more than 2 * limit - 1 allowed calls.
   */
  lemma TraceBound(limit: int, windowMs: int, calls: seq<Call>, x: int)
    requires limit >= 1 && windowMs >= 1 && Monotone(calls)
    ensures AllowedIn(limit, windowMs, calls, x) <= 2 * limit - 1
  {
    if calls != [] { BoundedAlways(limit, windowMs, calls, x); }
  }

  /******* One window of the bucket *******/

  /** How many allowed calls the window that began at `start` has counted. */
  function AllowedOf(limit: int, windowMs: int, calls: seq<Call>, start: int): nat {
    if calls == [] then 0
    else AllowedOf(limit, windowMs, calls[..|calls| - 1], start)
         + (if After(windowMs, calls).value.windowStart == start && LastAllowed(limit, windowMs, calls) then 1 else 0)
  }

  lemma {:induction false} WindowCounts(limit: int, windowMs: int, calls: seq<Call>, start: int)
    requires limit >= 1 && windowMs >= 1 && Forward(calls) && calls != []
    ensures var b := After(windowMs, calls).value;
            && b.count >= 1
            && (start > b.windowStart ==> AllowedOf(limit, windowMs, calls, start) == 0)
            && (start == b.windowStart ==> AllowedOf(limit, windowMs, calls, start) == Min(b.count, limit))
            && (start < b.windowStart ==> AllowedOf(limit, windowMs, calls, start) <= limit)
    decreases |calls|
  {
    var init := calls[..|calls| - 1];
    if init != [] {
      WindowCounts(limit, windowMs, init, start);
    }
  }

  /** Each window allows at most `limit` calls, even those that are late for it. */
  lemma WindowBound(limit: int, windowMs: int, calls: seq<Call>, start: int)
    requires limit >= 1 && windowMs >= 1 && Forward(calls)
    ensures AllowedOf(limit, windowMs, calls, start) <= limit
  {
    if calls != [] { WindowCounts(limit, windowMs, calls, start); }
  }

  /** A call is refused exactly when the window that counts it has already allowed its whole limit. */
  lemma WindowFill(limit: int, windowMs: int, calls: seq<Call>)
    requires limit >= 1 && windowMs >= 1 && Forward(calls) && calls != []
    ensures !LastAllowed(limit, windowMs, calls) <==>
            AllowedOf(limit, windowMs, calls[..|calls| - 1], After(windowMs, calls).value.windowStart) == limit
  {
    var init := calls[..|calls| - 1];
    if init != [] { WindowCounts(limit, windowMs, init, After(windowMs, calls).value.windowStart); }
  }

  /** `n` more calls that ask at `c.asked`. */
  function Again(calls: seq<Call>, c: Call, n: nat): seq<Call> {
    if n == 0 then calls else Again(calls, c, n - 1) + [c]
  }

  lemma {:induction false} AgainCounts(windowMs: int, calls: seq<Call>, c: Call, n: nat)
    requires calls != [] && c.asked < After(windowMs, calls).value.windowStart + windowMs
    ensures Again(calls, c, n) != []
    ensures var b := After(windowMs, calls).value;
            After(windowMs, Again(calls, c, n)) == Some(Bucket(b.windowStart, b.count + n))
  {
    if n > 0 {
      AgainCounts(windowMs, calls, c, n - 1);
      assert Again(calls, c, n)[..|Again(calls, c, n)| - 1] == Again(calls, c, n - 1);
    }
  }

  /** `remaining` is how many further calls the same window will allow: the n-th exactly for n <= remaining. */
  lemma RemainingIsLeft(limit: int, windowMs: int, calls: seq<Call>, c: Call, n: nat)
    requires limit >= 1 && calls != [] && n >= 1
    requires c.asked < After(windowMs, calls).value.windowStart + windowMs
    ensures Again(calls, c, n) != []
    ensures var verdict := Judge(After(windowMs, calls).value.count, limit);
            && (LastAllowed(limit, windowMs, Again(calls, c, n)) <==> n <= verdict.remaining)
            && (verdict.allowed <==> LastAllowed(limit, windowMs, calls))
  {
    AgainCounts(windowMs, calls, c, n);
  }

  /** After a window has started, the bucket is still in it or in one that starts a full window later. */
  lemma {:induction false} WindowsApart(windowMs: int, calls: seq<Call>, k: nat)
    requires windowMs >= 1 && Forward(calls) && k < |calls|
    ensures var s, b := After(windowMs, calls[..k + 1]).value.windowStart, After(windowMs, calls).value;
            b.windowStart == s || s + windowMs <= b.windowStart
    decreases |calls|
  {
    var last := |calls| - 1;
    if k < last {
      assert calls[..last][..k + 1] == calls[..k + 1];
      WindowsApart(windowMs, calls[..last], k);
    } else {
      assert calls[..k + 1] == calls;
    }
  }

  /******* How tight the bound is *******/

  /**
   One call at 0, then `limit - 1` calls that ask just before its window is over and are counted just after, and
   `limit` calls that ask just after.
   */
  function Burst(limit: int, windowMs: int, m: nat): seq<Call>
    ensures |Burst(limit, windowMs, m)| == m
  {
    if m == 0 then []
    else Burst(limit, windowMs, m - 1)
         + [if m == 1 then Call(0, 0) else Call(if m <= limit then windowMs - 1 else windowMs, windowMs)]
  }

  lemma {:induction false} BurstMonotone(limit: int, windowMs: int, m: nat)
    requires limit >= 1 && windowMs >= 1
    ensures Monotone(Burst(limit, windowMs, m))
    ensures forall i | 0 <= i < m :: Burst(limit, windowMs, m)[i].now <= windowMs
    ensures m <= 1 ==> forall i | 0 <= i < m :: Burst(limit, windowMs, m)[i].now == 0
  {
    if m > 0 { BurstMonotone(limit, windowMs, m - 1); }
  }

  lemma {:induction false} BurstAfter(limit: int, windowMs: int, m: nat)
    requires limit >= 1 && windowMs >= 1 && 1 <= m
    ensures After(windowMs, Burst(limit, windowMs, m)).value ==
            (if m <= limit then Bucket(0, m) else Bucket(windowMs, m - limit))
    decreases m
  {
    assert Burst(limit, windowMs, m)[..m - 1] == Burst(limit, windowMs, m - 1);
    if m > 1 { BurstAfter(limit, windowMs, m - 1); }
  }

  lemma {:induction false} BurstAllowed(limit: int, windowMs: int, m: nat)
    requires limit >= 1 && windowMs >= 1 && 1 <= m <= 2 * limit
    ensures AllowedIn(limit, windowMs, Burst(limit, windowMs, m), windowMs) == m - 1
    decreases m
  {
    var calls := Burst(limit, windowMs, m);
    assert calls[..m - 1] == Burst(limit, windowMs, m - 1);
    BurstAfter(limit, windowMs, m);
    if m > 1 {
      BurstAllowed(limit, windowMs, m - 1);
    } else {
      assert calls[0] == Call(0, 0) && AllowedIn(limit, windowMs, calls[..0], windowMs) == 0;
    }
  }

  /** The bound is exact for every policy. */
  lemma TraceBoundTight(limit: int, windowMs: int)
    requires limit >= 1 && windowMs >= 1
    ensures exists calls, x :: Monotone(calls) && AllowedIn(limit, windowMs, calls, x) == 2 * limit - 1
  {
    BurstMonotone(limit, windowMs, 2 * limit);
    BurstAllowed(limit, windowMs, 2 * limit);
    assert AllowedIn(limit, windowMs, Burst(limit, windowMs, 2 * limit), windowMs) == 2 * limit - 1;
  }

  ghost predicate NeverOverLimit(limit: int, windowMs: int) {
    forall calls, x | Monotone(calls) :: AllowedIn(limit, windowMs, calls, x) <= limit
  }

  /**
   The policy's own promise, `limit` calls in any interval of the window's length, holds only for a limit of one,
   whatever the window.
   */
  lemma NeverOverLimitExactlyIf(limit: int, windowMs: int)
    requires limit >= 1 && windowMs >= 1
    ensures NeverOverLimit(limit, windowMs) <==> limit == 1
  {
    if limit == 1 {
      forall calls, x | Monotone(calls) ensures AllowedIn(limit, windowMs, calls, x) <= limit {
        TraceBound(limit, windowMs, calls, x);
      }
    } else {
      TraceBoundTight(limit, windowMs);
      var calls, x :| Monotone(calls) && AllowedIn(limit, windowMs, calls, x) == 2 * limit - 1;
    }
  }

  /******* Calls whose readings are out of order *******/

  /** `m` windows of two calls each; the second one of each reads `late` inside its transaction. */
  function Skewed(windowMs: int, late: int, m: nat): seq<Call>
    ensures |Skewed(windowMs, late, m)| == 2 * m
  {
    if m == 0 then []
    else
      var start := (m - 1) * windowMs;
      Skewed(windowMs, late, m - 1) + [Call(start, start)] + [Call(start, late)]
  }

  lemma OneMore(limit: int, windowMs: int, calls: seq<Call>, c: Call, x: int)
    ensures var b := Hit(After(windowMs, calls), windowMs, c);
            && After(windowMs, calls + [c]) == Some(b)
            && AllowedIn(limit, windowMs, calls + [c], x) ==
               AllowedIn(limit, windowMs, calls, x) + (if x <= c.now < x + windowMs && b.count <= limit then 1 else 0)
  {
    assert (calls + [c])[..|calls|] == calls;
  }

  lemma {:induction false} SkewedCounts(limit: int, windowMs: int, late: int, m: nat)
    requires limit >= 2 && windowMs >= 1 && m * windowMs <= late
    ensures m > 0 ==> After(windowMs, Skewed(windowMs, late, m)) == Some(Bucket((m - 1) * windowMs, 2))
    ensures Forward(Skewed(windowMs, late, m))
    ensures AllowedIn(limit, windowMs, Skewed(windowMs, late, m), late) == m
  {
    if m > 0 {
      var start, init := (m - 1) * windowMs, Skewed(windowMs, late, m - 1);
      assert start + windowMs == m * windowMs;
      assert (m - 2) * windowMs + windowMs == start;
      SkewedCounts(limit, windowMs, late, m - 1);
      OneMore(limit, windowMs, init, Call(start, start), late);
      OneMore(limit, windowMs, init + [Call(start, start)], Call(start, late), late);
    }
  }

  /**
   The order of the readings is needed: when the row can be updated against it, any number of calls can be allowed
   within one window's length, for every limit of two or more.
   */
  lemma OutOfOrderUnbounded(limit: int, windowMs: int, n: nat)
    requires limit >= 2 && windowMs >= 1
    ensures exists calls, x :: Forward(calls) && AllowedIn(limit, windowMs, calls, x) == n
  {
    SkewedCounts(limit, windowMs, n * windowMs, n);
    assert AllowedIn(limit, windowMs, Skewed(windowMs, n * windowMs, n), n * windowMs) == n;
  }
}
