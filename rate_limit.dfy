/** internal/middleware/ratelimiter.go: a per-IP token bucket limiter in front of
    the authentication endpoints. */
module RateLimit {
  import opened Wrappers
  import opened AppErrors
  import opened Responses

  /** `IPTokenBucket`: the current fill level and when it was last refilled
      (seconds on the process's monotonic clock). */
  datatype Bucket = Bucket(tokens: real, lastRefillTime: real)

  /** `ratelimitRoutes`: the only paths that are throttled (exact match). */
  const RateLimitRoutes: set<string> := {
    "/api/auth/login",
    "/api/auth/forgot-password",
    "/api/auth/reset-password",
    "/api/auth/verify-email",
    "/api/auth/resend-verification"
  }

  const TooManyRequestsText: string := "Too Many requests"

  /** What the limiter does with one request. */
  datatype Outcome =
    | CallNext              // next.ServeHTTP ran, once
    | Replied(reply: Reply) // a response was written and next was not called
    | Silent                // neither: nothing written, next not called

  /** Go's built-in `min` on two float64s (no NaNs here). */
  function Min(a: real, b: real): (m: real)
    ensures m <= a && m <= b && (m == a || m == b)
  {
    if a <= b then a else b
  }

  /** The refill step: `tokens := min(cap, tokens + elapsed*rate)` and the stamp
      moves to `now`. Elapsed time is not clamped. */
  function Refill(b: Bucket, now: real, rate: real, cap: real): (r: Bucket)
    ensures r.lastRefillTime == now
    ensures r.tokens <= cap && r.tokens <= b.tokens + (now - b.lastRefillTime) * rate
    ensures r.tokens == cap || r.tokens == b.tokens + (now - b.lastRefillTime) * rate
  {
    Bucket(Min(cap, b.tokens + (now - b.lastRefillTime) * rate), now)
  }

  /** Refill, then admit and take one token when at least one is there. */
  function Take(b: Bucket, now: real, rate: real, cap: real): (r: (Bucket, bool))
  {
    var refilled := Refill(b, now, rate, cap);
    if refilled.tokens >= 1.0 then (refilled.(tokens := refilled.tokens - 1.0), true)
    else (refilled, false)
  }

  /** The bucket an IP has, if any. */
  function BucketOf(ips: map<string, Bucket>, ip: string): Option<Bucket> {
    if ip in ips then Some(ips[ip]) else None
  }

  /** One request through `LimitMiddleware`: the new bucket map and the outcome.
      `ip` is the host part of `RemoteAddr`, or None when net.SplitHostPort
      fails; the Go code then builds an Internal error but discards it. */
  function Serve(ips: map<string, Bucket>, path: string, ip: Option<string>, now: real, rate: real, cap: real)
    : (r: (map<string, Bucket>, Outcome))
    ensures forall k :: k in ips && ip != Some(k) ==> k in r.0 && r.0[k] == ips[k]
    ensures r.0.Keys == if path in RateLimitRoutes && ip.Some? then ips.Keys + {ip.value} else ips.Keys
  {
    if path !in RateLimitRoutes then (ips, CallNext)
    else if ip.None? then (ips, Silent)
    else
      var key := ip.value;
      var bucket := if key in ips then ips[key] else Bucket(cap, now);
      var (after, admitted) := Take(bucket, now, rate, cap);
      (ips[key := after], if admitted then CallNext else Replied(HttpError(TooManyRequestsText, StatusTooManyRequests)))
  }

  /** Every bucket holds between 0 and `cap` tokens. */
  ghost predicate Bounded(ips: map<string, Bucket>, cap: real) {
    forall k :: k in ips ==> 0.0 <= ips[k].tokens <= cap
  }

  /** No bucket was stamped after `now`: the clock has not run backwards. */
  ghost predicate StampsAtMost(ips: map<string, Bucket>, now: real) {
    forall k :: k in ips ==> ips[k].lastRefillTime <= now
  }

  /** Refill-and-take keeps a bucket's tokens in [0, cap] when time moves forward. */
  lemma TakeBounded(b: Bucket, now: real, rate: real, cap: real)
    requires rate >= 0.0 && cap >= 0.0
    requires 0.0 <= b.tokens <= cap && b.lastRefillTime <= now
    ensures 0.0 <= Take(b, now, rate, cap).0.tokens <= cap
  {
    var elapsed := now - b.lastRefillTime;
    assert elapsed * rate >= 0.0;
    var sum := b.tokens + elapsed * rate;
    assert sum >= 0.0;
    assert Refill(b, now, rate, cap).tokens == Min(cap, sum);
  }

  /** The request is admitted iff the refilled bucket holds at least one token;
      exactly one token is then removed, and on rejection the refilled level stays. */
  lemma TakeAdmitsIff(b: Bucket, now: real, rate: real, cap: real)
    ensures var refilled := Min(cap, b.tokens + (now - b.lastRefillTime) * rate);
            var (after, admitted) := Take(b, now, rate, cap);
            && (admitted <==> refilled >= 1.0)
            && after.lastRefillTime == now
            && after.tokens == (if admitted then refilled - 1.0 else refilled)
  {
  }

  /** The first limited request from an unseen IP starts from a full bucket. */
  lemma FirstRequestStartsFull(ips: map<string, Bucket>, path: string, ip: string, now: real, rate: real, cap: real)
    requires path in RateLimitRoutes && ip !in ips && rate >= 0.0
    ensures var (m, outcome) := Serve(ips, path, Some(ip), now, rate, cap);
            && (outcome == CallNext <==> cap >= 1.0)
            && m[ip] == if cap >= 1.0 then Bucket(cap - 1.0, now) else Bucket(cap, now)
  {
    assert Refill(Bucket(cap, now), now, rate, cap) == Bucket(cap, now);
  }

  /** A rejected request gets 429 "Too Many requests" as plain text. */
  lemma RejectionIs429(ips: map<string, Bucket>, path: string, ip: string, now: real, rate: real, cap: real)
    requires Serve(ips, path, Some(ip), now, rate, cap).1 != CallNext
    ensures Serve(ips, path, Some(ip), now, rate, cap).1 == Replied(Text(429, "Too Many requests\n"))
  {
  }

  lemma ServeBounded(ips: map<string, Bucket>, path: string, ip: Option<string>, now: real, rate: real, cap: real)
    requires rate >= 0.0 && cap >= 0.0
    requires Bounded(ips, cap) && StampsAtMost(ips, now)
    ensures Bounded(Serve(ips, path, ip, now, rate, cap).0, cap)
    ensures StampsAtMost(Serve(ips, path, ip, now, rate, cap).0, now)
  {
    if path in RateLimitRoutes && ip.Some? {
      var bucket := if ip.value in ips then ips[ip.value] else Bucket(cap, now);
      TakeBounded(bucket, now, rate, cap);
    }
  }

  /** `RateLimiter`: the bucket map and the configuration fixed at start-up. */
  class RateLimiter {
    var ips: map<string, Bucket>
    const rate: real
    const maxCapacity: real

    /** A sensibly configured limiter whose buckets are all in range. */
    ghost predicate Valid()
      reads this
    {
      rate >= 0.0 && maxCapacity >= 0.0 && Bounded(ips, maxCapacity)
    }

    /** `NewRateLimiter(limit, ratePerSecond)`. */
    constructor (limit: int, ratePerSecond: real)
      ensures ips == map[] && rate == ratePerSecond && maxCapacity == limit as real
      ensures limit >= 0 && ratePerSecond >= 0.0 ==> Valid()
    {
      ips := map[];
      rate := ratePerSecond;
      maxCapacity := limit as real;
    }

    /** The handler `LimitMiddleware(next)` returns, run on one request at time
        `now`; the mutex makes each call one atomic step. */
    method LimitMiddleware(path: string, ip: Option<string>, now: real) returns (outcome: Outcome)
      modifies this
      ensures (ips, outcome) == Serve(old(ips), path, ip, now, rate, maxCapacity)
      ensures path !in RateLimitRoutes ==> outcome == CallNext && ips == old(ips)
      ensures path in RateLimitRoutes && ip.None? ==> outcome == Silent && ips == old(ips)
      ensures forall k :: k in old(ips) && ip != Some(k) ==> k in ips && ips[k] == old(ips)[k]
      ensures old(Valid()) && StampsAtMost(old(ips), now) ==> Valid() && StampsAtMost(ips, now)
    {
      if path !in RateLimitRoutes {
        return CallNext;
      }
      if ip.None? {
        return Silent;
      }
      var key := ip.value;
      if key !in ips {
        ips := ips[key := Bucket(maxCapacity, now)];
      }
      var bucket := ips[key];
      ghost var start := bucket;
      assert start == if key in old(ips) then old(ips)[key] else Bucket(maxCapacity, now);
      var elapsed := now - bucket.lastRefillTime;
      bucket := bucket.(tokens := Min(maxCapacity, bucket.tokens + elapsed * rate));
      bucket := bucket.(lastRefillTime := now);
      assert bucket == Refill(start, now, rate, maxCapacity);
      if bucket.tokens >= 1.0 {
        bucket := bucket.(tokens := bucket.tokens - 1.0);
        ips := ips[key := bucket];
        outcome := CallNext;
      } else {
        ips := ips[key := bucket];
        outcome := Replied(HttpError(TooManyRequestsText, StatusTooManyRequests));
      }
      assert (bucket, outcome == CallNext) == Take(start, now, rate, maxCapacity);
      assert ips == old(ips)[key := bucket];
      if old(Valid()) && StampsAtMost(old(ips), now) {
        ServeBounded(old(ips), path, ip, now, rate, maxCapacity);
      }
    }
  }

  // ---------------------------------------------------------------------------
  // Sequences of requests
  // ---------------------------------------------------------------------------

  datatype Request = Request(path: string, ip: Option<string>, now: real)

  /** The limiter's state and outcomes after a sequence of requests, one at a time. */
  function Run(ips: map<string, Bucket>, reqs: seq<Request>, rate: real, cap: real)
    : (r: (map<string, Bucket>, seq<Outcome>))
    ensures |r.1| == |reqs|
    decreases |reqs|
  {
    if reqs == [] then (ips, [])
    else
      var (m, o) := Serve(ips, reqs[0].path, reqs[0].ip, reqs[0].now, rate, cap);
      var (last, os) := Run(m, reqs[1..], rate, cap);
      (last, [o] + os)
  }

  ghost predicate NonDecreasingClock(reqs: seq<Request>) {
    forall i, j :: 0 <= i < j < |reqs| ==> reqs[i].now <= reqs[j].now
  }

  /** Every bucket stays within [0, cap] through any sequence of requests, given
      a non-negative rate and capacity and a clock that never runs backwards. */
  lemma {:induction false} RunBounded(ips: map<string, Bucket>, reqs: seq<Request>, rate: real, cap: real)
    requires rate >= 0.0 && cap >= 0.0 && Bounded(ips, cap)
    requires NonDecreasingClock(reqs)
    requires reqs != [] ==> StampsAtMost(ips, reqs[0].now)
    ensures Bounded(Run(ips, reqs, rate, cap).0, cap)
    decreases |reqs|
  {
    if reqs != [] {
      var r := reqs[0];
      ServeBounded(ips, r.path, r.ip, r.now, rate, cap);
      var m := Serve(ips, r.path, r.ip, r.now, rate, cap).0;
      if |reqs| > 1 {
        assert r.now <= reqs[1].now;
      }
      RunBounded(m, reqs[1..], rate, cap);
    }
  }

  /** Requests to paths that are not throttled always pass and touch no bucket. */
  lemma {:induction false} UnlimitedPathsAlwaysPass(ips: map<string, Bucket>, reqs: seq<Request>, rate: real, cap: real)
    requires forall i :: 0 <= i < |reqs| ==> reqs[i].path !in RateLimitRoutes
    ensures Run(ips, reqs, rate, cap).0 == ips
    ensures forall i :: 0 <= i < |reqs| ==> Run(ips, reqs, rate, cap).1[i] == CallNext
    decreases |reqs|
  {
    if reqs != [] {
      UnlimitedPathsAlwaysPass(ips, reqs[1..], rate, cap);
    }
  }

  /** The requests that come from `ip`, in order. */
  function From(reqs: seq<Request>, ip: string): (r: seq<Request>)
    ensures |r| <= |reqs|
  {
    if reqs == [] then []
    else if reqs[0].ip == Some(ip) then [reqs[0]] + From(reqs[1..], ip)
    else From(reqs[1..], ip)
  }

  /** The outcomes of the requests that come from `ip`, in order. */
  function OutcomesFrom(reqs: seq<Request>, outs: seq<Outcome>, ip: string): seq<Outcome>
    requires |outs| == |reqs|
  {
    if reqs == [] then []
    else if reqs[0].ip == Some(ip) then [outs[0]] + OutcomesFrom(reqs[1..], outs[1..], ip)
    else OutcomesFrom(reqs[1..], outs[1..], ip)
  }

  /** One request's outcome, and what it does to its own IP's bucket, depend only
      on that bucket; a request from another IP leaves the bucket alone. */
  lemma ServeLocal(m1: map<string, Bucket>, m2: map<string, Bucket>, r: Request, ip: string, rate: real, cap: real)
    requires BucketOf(m1, ip) == BucketOf(m2, ip)
    ensures r.ip == Some(ip) ==>
              Serve(m1, r.path, r.ip, r.now, rate, cap).1 == Serve(m2, r.path, r.ip, r.now, rate, cap).1 &&
              BucketOf(Serve(m1, r.path, r.ip, r.now, rate, cap).0, ip) ==
              BucketOf(Serve(m2, r.path, r.ip, r.now, rate, cap).0, ip)
    ensures r.ip != Some(ip) ==>
              BucketOf(Serve(m1, r.path, r.ip, r.now, rate, cap).0, ip) == BucketOf(m1, ip)
  {
  }

  /** Isolation: what one IP's requests get, and where its bucket ends up, is the
      same as if no other IP had sent anything. */
  lemma {:induction false} RunIsolated(m1: map<string, Bucket>, m2: map<string, Bucket>, reqs: seq<Request>,
                                       ip: string, rate: real, cap: real)
    requires BucketOf(m1, ip) == BucketOf(m2, ip)
    ensures BucketOf(Run(m1, reqs, rate, cap).0, ip) == BucketOf(Run(m2, From(reqs, ip), rate, cap).0, ip)
    ensures OutcomesFrom(reqs, Run(m1, reqs, rate, cap).1, ip) == Run(m2, From(reqs, ip), rate, cap).1
    decreases |reqs|
  {
    if reqs != [] {
      var r := reqs[0];
      ServeLocal(m1, m2, r, ip, rate, cap);
      var n1 := Serve(m1, r.path, r.ip, r.now, rate, cap).0;
      if r.ip == Some(ip) {
        var n2 := Serve(m2, r.path, r.ip, r.now, rate, cap).0;
        assert From(reqs, ip) == [r] + From(reqs[1..], ip);
        assert From(reqs, ip)[1..] == From(reqs[1..], ip);
        RunIsolated(n1, n2, reqs[1..], ip, rate, cap);
      } else {
        RunIsolated(n1, m2, reqs[1..], ip, rate, cap);
      }
    }
  }

  // ---------------------------------------------------------------------------
  // Worked scenarios
  // ---------------------------------------------------------------------------

  const Login: string := "/api/auth/login"

  /** One step of `Run`, for the worked scenarios below. */
  lemma RunStep(ips: map<string, Bucket>, r: Request, rest: seq<Request>, rate: real, cap: real,
                after: map<string, Bucket>, outcome: Outcome)
    requires Serve(ips, r.path, r.ip, r.now, rate, cap) == (after, outcome)
    ensures Run(ips, [r] + rest, rate, cap) ==
            (Run(after, rest, rate, cap).0, [outcome] + Run(after, rest, rate, cap).1)
  {
    assert ([r] + rest)[0] == r && ([r] + rest)[1..] == rest;
  }

  /** The production setting `NewRateLimiter(1, 2.0)`: a burst of one, then one
      request per half second. */
  lemma BurstThenThrottle()
    ensures Run(map[], [Request(Login, Some("10.0.0.1"), 5.0), Request(Login, Some("10.0.0.1"), 5.0),
                        Request(Login, Some("10.0.0.1"), 5.5)], 2.0, 1.0).1
            == [CallNext, Replied(HttpError(TooManyRequestsText, 429)), CallNext]
  {
    var ip := "10.0.0.1";
    var r1, r2, r3 := Request(Login, Some(ip), 5.0), Request(Login, Some(ip), 5.0), Request(Login, Some(ip), 5.5);
    var empty := Bucket(0.0, 5.0);
    var m1 := map[ip := empty];
    var m3 := map[ip := Bucket(0.0, 5.5)];
    var reject := Replied(HttpError(TooManyRequestsText, 429));
    assert Take(Bucket(1.0, 5.0), 5.0, 2.0, 1.0) == (empty, true);
    assert Take(empty, 5.0, 2.0, 1.0) == (empty, false);
    assert Take(empty, 5.5, 2.0, 1.0) == (Bucket(0.0, 5.5), true);
    assert m1[ip := empty] == m1 && m1[ip := Bucket(0.0, 5.5)] == m3;
    RunStep(m1, r3, [], 2.0, 1.0, m3, CallNext);
    RunStep(m1, r2, [r3], 2.0, 1.0, m1, reject);
    RunStep(map[], r1, [r2, r3], 2.0, 1.0, m1, CallNext);
    assert [r1, r2, r3] == [r1] + [r2, r3] && [r2, r3] == [r2] + [r3] && [r3] == [r3] + [];
  }

  /** Capacity 2 and one token per second: two quick requests pass, the third is
      refused, and two seconds later one passes again with a token to spare. */
  lemma RefillAfterPause()
    ensures var reqs := [Request(Login, Some("10.0.0.1"), 0.0), Request(Login, Some("10.0.0.1"), 0.1),
                         Request(Login, Some("10.0.0.1"), 0.2), Request(Login, Some("10.0.0.1"), 2.2)];
            var (m, outs) := Run(map[], reqs, 1.0, 2.0);
            outs == [CallNext, CallNext, Replied(HttpError(TooManyRequestsText, 429)), CallNext] &&
            m == map["10.0.0.1" := Bucket(1.0, 2.2)]
  {
    var ip := "10.0.0.1";
    var r1, r2 := Request(Login, Some(ip), 0.0), Request(Login, Some(ip), 0.1);
    var r3, r4 := Request(Login, Some(ip), 0.2), Request(Login, Some(ip), 2.2);
    var reject := Replied(HttpError(TooManyRequestsText, 429));
    assert Take(Bucket(2.0, 0.0), 0.0, 1.0, 2.0) == (Bucket(1.0, 0.0), true);
    assert Take(Bucket(1.0, 0.0), 0.1, 1.0, 2.0) == (Bucket(0.1, 0.1), true);
    assert Take(Bucket(0.1, 0.1), 0.2, 1.0, 2.0) == (Bucket(0.2, 0.2), false);
    assert Take(Bucket(0.2, 0.2), 2.2, 1.0, 2.0) == (Bucket(1.0, 2.2), true);
    var m1 := map[ip := Bucket(1.0, 0.0)];
    var m2 := map[ip := Bucket(0.1, 0.1)];
    var m3 := map[ip := Bucket(0.2, 0.2)];
    var m4 := map[ip := Bucket(1.0, 2.2)];
    assert m1[ip := Bucket(0.1, 0.1)] == m2;
    assert m2[ip := Bucket(0.2, 0.2)] == m3;
    assert m3[ip := Bucket(1.0, 2.2)] == m4;
    RunStep(m3, r4, [], 1.0, 2.0, m4, CallNext);
    RunStep(m2, r3, [r4], 1.0, 2.0, m3, reject);
    RunStep(m1, r2, [r3, r4], 1.0, 2.0, m2, CallNext);
    RunStep(map[], r1, [r2, r3, r4], 1.0, 2.0, m1, CallNext);
    assert [r1, r2, r3, r4] == [r1] + [r2, r3, r4] && [r2, r3, r4] == [r2] + [r3, r4];
    assert [r3, r4] == [r3] + [r4] && [r4] == [r4] + [];
  }
}
