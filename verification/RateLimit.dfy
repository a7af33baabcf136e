/**
 The sliding-window limiters: `RateLimiter` and `TenantRateLimiters` of
 `bets/b-mcp-gateway/src/policy.js`, and `SlidingWindowRateLimiter` of
 `bets/e-otel-ai-cost/src/rate-limit.js`. Times are milliseconds.
 */
module RateLimit {
  import opened Wrappers
  import opened Numbers

  const WINDOW_MS: nat := 60_000

  /** The hits at or after `since`, in order. */
  function Since(hits: seq<int>, since: int): (r: seq<int>)
    ensures |r| <= |hits|
  {
    if hits == [] then []
    else
      var last := hits[|hits| - 1];
      Since(hits[..|hits| - 1], since) + if last >= since then [last] else []
  }

  function SecondsUntil(moment: int, now: int): (n: int)
    ensures n >= 1
  {
    var seconds := CeilDiv(moment - now, 1000);
    if seconds < 1 then 1 else seconds
  }

  // ----- One limiter -----

  datatype Limiter = Limiter(limit: int, hits: seq<int>)

  function CheckStep(l: Limiter, now: int): (Limiter, bool) {
    var recent := Since(l.hits, now - WINDOW_MS);
    if |recent| >= l.limit then (l.(hits := recent), false) else (l.(hits := recent + [now]), true)
  }

  function RetryStep(l: Limiter, now: int): (Limiter, int) {
    var recent := Since(l.hits, now - WINDOW_MS);
    (l.(hits := recent), if recent == [] then 1 else SecondsUntil(recent[0] + WINDOW_MS, now))
  }

  class RateLimiter {
    const limit: int
    var hits: seq<int>

    ghost function Model(): Limiter
      reads this
    {
      Limiter(limit, hits)
    }

    constructor (limitPerMinute: int)
      ensures Model() == Limiter(limitPerMinute, [])
    {
      limit := limitPerMinute;
      hits := [];
    }

    method Prune(now: int)
      modifies this
      ensures Model() == Limiter(limit, Since(old(hits), now - WINDOW_MS))
    {
      var kept: seq<int> := [];
      for k := 0 to |hits|
        invariant hits == old(hits) && kept == Since(hits[..k], now - WINDOW_MS)
      {
        assert hits[..k + 1][..k] == hits[..k];
        if hits[k] >= now - WINDOW_MS {
          kept := kept + [hits[k]];
        }
      }
      assert hits[..|hits|] == hits;
      hits := kept;
    }

    method Check(now: int) returns (admitted: bool)
      modifies this
      ensures (Model(), admitted) == CheckStep(old(Model()), now)
    {
      Prune(now);
      if |hits| >= limit {
        return false;
      }
      hits := hits + [now];
      admitted := true;
    }

    method RetryAfterSeconds(now: int) returns (seconds: int)
      modifies this
      ensures (Model(), seconds) == RetryStep(old(Model()), now)
    {
      Prune(now);
      if |hits| == 0 {
        return 1;
      }
      var whole := CeilDiv(hits[0] + WINDOW_MS - now, 1000);
      seconds := if whole > 1 then whole else 1;
    }
  }

  // ----- The specification over the whole history -----

  ghost predicate Ordered(times: seq<int>) {
    forall i, j :: 0 <= i < j < |times| ==> times[i] <= times[j]
  }

  /** How many of the times lie in the closed interval. */
  function CountIn(times: seq<int>, low: int, high: int): nat {
    if times == [] then 0
    else CountIn(times[..|times| - 1], low, high) + if low <= times[|times| - 1] <= high then 1 else 0
  }

  /** The admitted calls when nothing is ever forgotten. */
  function Admitted(limit: int, calls: seq<int>): seq<int> {
    if calls == [] then []
    else
      var before, now := Admitted(limit, calls[..|calls| - 1]), calls[|calls| - 1];
      if CountIn(before, now - WINDOW_MS, now) < limit then before + [now] else before
  }

  function RunLimiter(limit: int, calls: seq<int>): Limiter {
    if calls == [] then Limiter(limit, [])
    else CheckStep(RunLimiter(limit, calls[..|calls| - 1]), calls[|calls| - 1]).0
  }

  ghost predicate UpTo(times: seq<int>, now: int) {
    forall i :: 0 <= i < |times| ==> times[i] <= now
  }

  lemma OrderedParts(times: seq<int>)
    requires times != [] && Ordered(times)
    ensures Ordered(times[..|times| - 1]) && UpTo(times, times[|times| - 1])
    ensures |times| > 1 ==> times[|times| - 2] <= times[|times| - 1]
  {
  }

  lemma SinceSnoc(hits: seq<int>, t: int, since: int)
    ensures Since(hits + [t], since) == Since(hits, since) + if t >= since then [t] else []
  {
    assert (hits + [t])[..|hits|] == hits;
  }

  lemma {:induction false} SinceTwice(hits: seq<int>, early: int, late: int)
    requires early <= late
    ensures Since(Since(hits, early), late) == Since(hits, late)
  {
    if hits != [] {
      var before, last := hits[..|hits| - 1], hits[|hits| - 1];
      SinceTwice(before, early, late);
      if last >= early {
        SinceSnoc(Since(before, early), last, late);
      } else {
        assert Since(before, early) + [] == Since(before, early);
      }
    }
  }

  lemma {:induction false} SinceCounts(times: seq<int>, since: int, now: int)
    requires UpTo(times, now)
    ensures |Since(times, since)| == CountIn(times, since, now)
  {
    if times != [] {
      SinceCounts(times[..|times| - 1], since, now);
    }
  }

  lemma {:induction false} SinceUpTo(times: seq<int>, since: int, now: int)
    requires UpTo(times, now)
    ensures UpTo(Since(times, since), now)
  {
    if times != [] {
      SinceUpTo(times[..|times| - 1], since, now);
    }
  }

  lemma {:induction false} AdmittedUpTo(limit: int, calls: seq<int>, now: int)
    requires UpTo(calls, now)
    ensures UpTo(Admitted(limit, calls), now)
  {
    if calls != [] {
      AdmittedUpTo(limit, calls[..|calls| - 1], now);
    }
  }

  /** The pruned hit list is the tail of the full history that the window can still see. */
  ghost predicate HitsAreTail(limit: int, calls: seq<int>) {
    && RunLimiter(limit, calls).limit == limit
    && (calls != [] ==>
          RunLimiter(limit, calls).hits == Since(Admitted(limit, calls), calls[|calls| - 1] - WINDOW_MS))
    && (calls == [] ==> RunLimiter(limit, calls).hits == Admitted(limit, calls) == [])
  }

  lemma {:induction false} HitsAreRecentHistory(limit: int, calls: seq<int>)
    requires Ordered(calls)
    ensures HitsAreTail(limit, calls)
    decreases |calls|
  {
    hide *;
    if calls == [] {
      NoCalls(limit);
    } else {
      OrderedParts(calls);
      HitsAreRecentHistory(limit, calls[..|calls| - 1]);
      HistoryStep(limit, calls[..|calls| - 1], calls[|calls| - 1]);
      RunStep(limit, calls);
    }
  }

  lemma NoCalls(limit: int)
    ensures HitsAreTail(limit, [])
  {
  }

  lemma RunStep(limit: int, calls: seq<int>)
    requires calls != []
    requires var before, now := calls[..|calls| - 1], calls[|calls| - 1];
             var full := Admitted(limit, before);
             && RunLimiter(limit, before).limit == limit
             && Since(RunLimiter(limit, before).hits, now - WINDOW_MS) == Since(full, now - WINDOW_MS)
             && |Since(full, now - WINDOW_MS)| == CountIn(full, now - WINDOW_MS, now)
             && Since(full + [now], now - WINDOW_MS) == Since(full, now - WINDOW_MS) + [now]
    ensures HitsAreTail(limit, calls)
  {
    hide Since, CountIn;
  }

  lemma HistoryStep(limit: int, before: seq<int>, now: int)
    requires UpTo(before, now) && HitsAreTail(limit, before)
    ensures RunLimiter(limit, before).limit == limit
    ensures var full := Admitted(limit, before);
            && Since(RunLimiter(limit, before).hits, now - WINDOW_MS) == Since(full, now - WINDOW_MS)
            && |Since(full, now - WINDOW_MS)| == CountIn(full, now - WINDOW_MS, now)
            && Since(full + [now], now - WINDOW_MS) == Since(full, now - WINDOW_MS) + [now]
  {
    var full := Admitted(limit, before);
    AdmittedUpTo(limit, before, now);
    SinceCounts(full, now - WINDOW_MS, now);
    SinceSnoc(full, now, now - WINDOW_MS);
    if before != [] {
      SinceTwice(full, before[|before| - 1] - WINDOW_MS, now - WINDOW_MS);
    }
  }

  /** Main result: the limiter, which forgets old hits, decides each call as a count over everything it
      ever admitted would. */
  lemma DecidesByFullHistory(limit: int, calls: seq<int>, now: int)
    requires Ordered(calls) && UpTo(calls, now)
    ensures CheckStep(RunLimiter(limit, calls), now).1
       <==> CountIn(Admitted(limit, calls), now - WINDOW_MS, now) < limit
  {
    HitsAreRecentHistory(limit, calls);
    HistoryStep(limit, calls, now);
  }

  lemma {:induction false} CountWithin(times: seq<int>, low: int, high: int, low': int, high': int)
    requires low' <= low && high <= high'
    ensures CountIn(times, low, high) <= CountIn(times, low', high')
  {
    if times != [] {
      CountWithin(times[..|times| - 1], low, high, low', high');
    }
  }

  lemma {:induction false} CountUpTo(times: seq<int>, low: int, high: int, high': int)
    requires high <= high' && UpTo(times, high)
    ensures CountIn(times, low, high) == CountIn(times, low, high')
  {
    if times != [] {
      CountUpTo(times[..|times| - 1], low, high, high');
    }
  }

  /** Main result: no closed window of sixty seconds, wherever it starts, holds more admitted calls than
      the limit. */
  lemma {:induction false} NoWindowExceedsLimit(limit: nat, calls: seq<int>, start: int)
    requires Ordered(calls)
    ensures CountIn(Admitted(limit, calls), start, start + WINDOW_MS) <= limit
    decreases |calls|
  {
    hide *;
    if calls == [] {
      NothingAdmitted(limit, start);
    } else {
      var before, now := calls[..|calls| - 1], calls[|calls| - 1];
      OrderedParts(calls);
      NoWindowExceedsLimit(limit, before, start);
      AdmittedUpTo(limit, before, now);
      WindowStep(limit, Admitted(limit, before), now, start);
      AdmittedStep(limit, calls);
    }
  }

  lemma NothingAdmitted(limit: int, start: int)
    ensures CountIn(Admitted(limit, []), start, start + WINDOW_MS) == 0
  {
  }

  lemma AdmittedStep(limit: int, calls: seq<int>)
    requires calls != []
    ensures var before, now := Admitted(limit, calls[..|calls| - 1]), calls[|calls| - 1];
            Admitted(limit, calls) == if CountIn(before, now - WINDOW_MS, now) < limit then before + [now] else before
  {
  }

  lemma WindowStep(limit: nat, full: seq<int>, now: int, start: int)
    requires UpTo(full, now) && CountIn(full, start, start + WINDOW_MS) <= limit
    ensures var next := if CountIn(full, now - WINDOW_MS, now) < limit then full + [now] else full;
            CountIn(next, start, start + WINDOW_MS) <= limit
  {
    assert (full + [now])[..|full|] == full;
    if CountIn(full, now - WINDOW_MS, now) < limit && start <= now <= start + WINDOW_MS {
      CountUpTo(full, start, now, start + WINDOW_MS);
      CountWithin(full, start, now, now - WINDOW_MS, now);
    }
  }

  // ----- Retry-After -----

  lemma {:induction false} HitsWithinLimit(limit: nat, calls: seq<int>)
    ensures RunLimiter(limit, calls).limit == limit && |RunLimiter(limit, calls).hits| <= limit
    decreases |calls|
  {
    if calls != [] {
      HitsWithinLimit(limit, calls[..|calls| - 1]);
    }
  }

  lemma {:induction false} SinceKeepsOrder(hits: seq<int>, since: int)
    requires Ordered(hits)
    ensures Ordered(Since(hits, since))
    ensures Since(hits, since) != [] ==> Since(hits, since)[0] >= since
  {
    if hits != [] {
      OrderedParts(hits);
      var before := hits[..|hits| - 1];
      SinceKeepsOrder(before, since);
      SinceUpTo(before, since, hits[|hits| - 1]);
    }
  }

  lemma CheckKeepsOrder(l: Limiter, now: int, later: int)
    requires Ordered(l.hits) && UpTo(l.hits, now) && now <= later
    ensures var next := CheckStep(l, now).0; Ordered(next.hits) && UpTo(next.hits, later)
  {
    SinceKeepsOrder(l.hits, now - WINDOW_MS);
    SinceUpTo(l.hits, now - WINDOW_MS, now);
  }

  lemma {:induction false} RunIsOrdered(limit: int, calls: seq<int>, now: int)
    requires Ordered(calls) && UpTo(calls, now)
    ensures var hits := RunLimiter(limit, calls).hits; Ordered(hits) && UpTo(hits, now)
    decreases |calls|
  {
    if calls != [] {
      hide CheckStep;
      var before, last := calls[..|calls| - 1], calls[|calls| - 1];
      OrderedParts(calls);
      RunIsOrdered(limit, before, last);
      CheckKeepsOrder(RunLimiter(limit, before), last, now);
    }
  }

  lemma {:induction false} SinceDropsOldest(hits: seq<int>, since: int)
    requires hits != [] && hits[0] < since
    ensures |Since(hits, since)| < |hits|
  {
    if |hits| > 1 {
      SinceDropsOldest(hits[..|hits| - 1], since);
    }
  }

  lemma {:induction false} SinceKeepsAll(hits: seq<int>, since: int)
    requires Ordered(hits) && hits != [] && hits[0] >= since
    ensures Since(hits, since) == hits
  {
    OrderedParts(hits);
    var before, last := hits[..|hits| - 1], hits[|hits| - 1];
    assert hits == before + [last];
    if |hits| > 1 {
      SinceKeepsAll(before, since);
    }
  }

  ghost predicate Refused(limit: nat, calls: seq<int>, now: int) {
    limit > 0 && Ordered(calls) && UpTo(calls, now) && !CheckStep(RunLimiter(limit, calls), now).1
  }

  /** What a refusing limiter keeps: exactly `limit` hits, in order, none of which has left the window. */
  lemma RefusedHits(limit: nat, calls: seq<int>, now: int)
    requires Refused(limit, calls, now)
    ensures var refused := CheckStep(RunLimiter(limit, calls), now).0;
            && refused.limit == limit == |refused.hits| && Ordered(refused.hits)
            && now - WINDOW_MS <= refused.hits[0] <= now
            && RetryStep(refused, now) == (refused, SecondsUntil(refused.hits[0] + WINDOW_MS, now))
  {
    hide Since, RunLimiter;
    var l := RunLimiter(limit, calls);
    HitsWithinLimit(limit, calls);
    RunIsOrdered(limit, calls, now);
    SinceKeepsOrder(l.hits, now - WINDOW_MS);
    SinceUpTo(l.hits, now - WINDOW_MS, now);
    SinceTwice(l.hits, now - WINDOW_MS, now - WINDOW_MS);
  }

  /** Main result: when a call is refused and nothing else is admitted, a later call is admitted exactly
      when it comes strictly after the oldest hit in the window has become sixty seconds old. */
  lemma AdmittedAgainAfterOldest(limit: nat, calls: seq<int>, now: int, later: int)
    requires Refused(limit, calls, now) && now <= later
    ensures var refused := CheckStep(RunLimiter(limit, calls), now).0;
            refused.hits != [] && (CheckStep(refused, later).1 <==> later > refused.hits[0] + WINDOW_MS)
  {
    hide Ordered, UpTo, RunLimiter;
    RefusedHits(limit, calls, now);
    var hits := CheckStep(RunLimiter(limit, calls), now).0.hits;
    if later > hits[0] + WINDOW_MS {
      SinceDropsOldest(hits, later - WINDOW_MS);
    } else {
      SinceKeepsAll(hits, later - WINDOW_MS);
    }
  }

  /** Main result: the announced Retry-After is the least whole number of seconds, at least one, after
      which the oldest hit is sixty seconds old. Waiting exactly that long is enough if and only if the
      age of the oldest hit is no whole number of seconds or is already sixty seconds: at exactly sixty
      seconds the hit still counts. One millisecond more is always enough. */
  lemma RetryAfterBoundary(limit: nat, calls: seq<int>, now: int)
    requires Refused(limit, calls, now)
    ensures var refused := CheckStep(RunLimiter(limit, calls), now).0;
            && refused.hits != []
            && var n := RetryStep(refused, now).1;
               var age := now - refused.hits[0];
               && 1000 * n >= WINDOW_MS - age && (n > 1 ==> 1000 * (n - 1) < WINDOW_MS - age)
               && (CheckStep(refused, now + 1000 * n).1 <==> age % 1000 != 0 || age == WINDOW_MS)
               && CheckStep(refused, now + 1000 * n + 1).1
  {
    hide CheckStep, RetryStep, RunLimiter, Ordered;
    RefusedHits(limit, calls, now);
    var refused := CheckStep(RunLimiter(limit, calls), now).0;
    var n := RetryStep(refused, now).1;
    AdmittedAgainAfterOldest(limit, calls, now, now + 1000 * n);
    AdmittedAgainAfterOldest(limit, calls, now, now + 1000 * n + 1);
    WholeSeconds(WINDOW_MS - (now - refused.hits[0]), n);
  }

  lemma WholeSeconds(left: int, n: int)
    requires left >= 0 && n == if CeilDiv(left, 1000) < 1 then 1 else CeilDiv(left, 1000)
    ensures 1000 * n >= left && (n > 1 ==> 1000 * (n - 1) < left)
    ensures 1000 * n > left <==> (WINDOW_MS - left) % 1000 != 0 || left == 0
  {
    assert 1000 * CeilDiv(left, 1000) >= left > 1000 * (CeilDiv(left, 1000) - 1);
    assert (WINDOW_MS - left) % 1000 == 0 <==> left % 1000 == 0;
  }

  /** The oldest of the admitted calls that the window still holds. */
  ghost predicate OldestIn(granted: seq<int>, now: int, t: int) {
    t in granted && now - WINDOW_MS <= t && forall u :: u in granted && now - WINDOW_MS <= u ==> t <= u
  }

  lemma {:induction false} SinceMembers(times: seq<int>, since: int)
    ensures forall t :: t in Since(times, since) <==> t in times && since <= t
  {
    if times != [] {
      var before, last := times[..|times| - 1], times[|times| - 1];
      assert times == before + [last];
      SinceMembers(before, since);
    }
  }

  /** The seconds that a refusal announces, told by the admitted calls. */
  lemma RetryByFullHistory(limit: int, calls: seq<int>, now: int)
    requires Ordered(calls) && UpTo(calls, now) && !CheckStep(RunLimiter(limit, calls), now).1
    ensures var granted := Admitted(limit, calls);
            var n := RetryStep(CheckStep(RunLimiter(limit, calls), now).0, now).1;
            && (limit <= 0 ==> n == 1)
            && (limit > 0 ==> exists t :: OldestIn(granted, now, t) && n == SecondsUntil(t + WINDOW_MS, now))
  {
    hide *;
    var granted := Admitted(limit, calls);
    RefusedRecent(limit, calls, now);
    if limit > 0 {
      AdmittedIsOrdered(limit, calls);
      OldestOfRecent(granted, now);
    } else {
      NothingAdmittedAtAll(limit, calls);
      NothingRecent(now);
    }
  }

  lemma NothingRecent(now: int)
    ensures Since([], now - WINDOW_MS) == []
  {
  }

  lemma RefusedRecent(limit: int, calls: seq<int>, now: int)
    requires Ordered(calls) && UpTo(calls, now) && !CheckStep(RunLimiter(limit, calls), now).1
    ensures var recent := Since(Admitted(limit, calls), now - WINDOW_MS);
            && RetryStep(CheckStep(RunLimiter(limit, calls), now).0, now).1
               == (if recent == [] then 1 else SecondsUntil(recent[0] + WINDOW_MS, now))
            && (limit > 0 ==> recent != [])
  {
    hide RunLimiter, Admitted, Since, SecondsUntil, CountIn, UpTo, Ordered;
    HitsAreRecentHistory(limit, calls);
    HistoryStep(limit, calls, now);
    SinceTwice(Admitted(limit, calls), now - WINDOW_MS, now - WINDOW_MS);
  }

  lemma OldestOfRecent(granted: seq<int>, now: int)
    requires Ordered(granted) && Since(granted, now - WINDOW_MS) != []
    ensures OldestIn(granted, now, Since(granted, now - WINDOW_MS)[0])
  {
    hide Since;
    var recent := Since(granted, now - WINDOW_MS);
    SinceKeepsOrder(granted, now - WINDOW_MS);
    SinceMembers(granted, now - WINDOW_MS);
    assert recent[0] in recent;
    forall u | u in recent ensures recent[0] <= u {
      var k :| 0 <= k < |recent| && recent[k] == u;
    }
  }

  lemma {:induction false} NothingAdmittedAtAll(limit: int, calls: seq<int>)
    requires limit <= 0
    ensures Admitted(limit, calls) == []
  {
    if calls != [] {
      NothingAdmittedAtAll(limit, calls[..|calls| - 1]);
    }
  }

  lemma {:induction false} AdmittedIsOrdered(limit: int, calls: seq<int>)
    requires Ordered(calls)
    ensures Ordered(Admitted(limit, calls))
    decreases |calls|
  {
    if calls != [] {
      OrderedParts(calls);
      AdmittedIsOrdered(limit, calls[..|calls| - 1]);
      AdmittedUpTo(limit, calls[..|calls| - 1], calls[|calls| - 1]);
    }
  }

  /** The least whole number of seconds, at least one, in which so many milliseconds pass. */
  predicate LeastSeconds(n: int, left: int) {
    n >= 1 && 1000 * n >= left && (n > 1 ==> 1000 * (n - 1) < left)
  }

  lemma SecondsAreLeast(moment: int, now: int)
    ensures LeastSeconds(SecondsUntil(moment, now), moment - now)
  {
  }

  // ----- One limiter a key -----

  /** `SlidingWindowRateLimiter`: a hit list a key. */
  type KeyedHits = map<string, seq<int>>

  datatype Request = Request(key: string, limit: Option<int>, at: int)

  datatype Verdict = Verdict(allowed: bool, retryAfter: int)

  function HitsOf(m: KeyedHits, key: string): seq<int> {
    if key in m then m[key] else []
  }

  function KeyedStep(m: KeyedHits, windowMs: nat, r: Request): (KeyedHits, Verdict) {
    if r.limit.None? || r.limit.value <= 0 then (m, Verdict(true, 0))
    else
      var recent := Since(HitsOf(m, r.key), r.at - windowMs);
      if |recent| >= r.limit.value then
        (m[r.key := recent], Verdict(false, SecondsUntil(recent[0] + windowMs, r.at)))
      else (m[r.key := recent + [r.at]], Verdict(true, 0))
  }

  class SlidingWindowRateLimiter {
    const windowMs: nat
    var hits: KeyedHits

    constructor (windowSeconds: nat)
      ensures windowMs == windowSeconds * 1000 && hits == map[]
    {
      windowMs := windowSeconds * 1000;
      hits := map[];
    }

    method Check(key: string, limit: Option<int>, now: int) returns (verdict: Verdict)
      modifies this
      ensures (hits, verdict) == KeyedStep(old(hits), windowMs, Request(key, limit, now))
    {
      if limit.None? || limit.value <= 0 {
        return Verdict(true, 0);
      }
      var before := if key in hits then hits[key] else [];
      var kept: seq<int> := [];
      for k := 0 to |before|
        invariant hits == old(hits) && kept == Since(before[..k], now - windowMs)
      {
        assert before[..k + 1][..k] == before[..k];
        if before[k] >= now - windowMs {
          kept := kept + [before[k]];
        }
      }
      assert before[..|before|] == before;
      if |kept| >= limit.value {
        var whole := CeilDiv(kept[0] + windowMs - now, 1000);
        hits := hits[key := kept];
        return Verdict(false, if whole > 1 then whole else 1);
      }
      hits := hits[key := kept + [now]];
      verdict := Verdict(true, 0);
    }
  }

  function RunKeyed(windowMs: nat, trace: seq<Request>): KeyedHits {
    if trace == [] then map[]
    else KeyedStep(RunKeyed(windowMs, trace[..|trace| - 1]), windowMs, trace[|trace| - 1]).0
  }

  /** The requests of one key. */
  function Only(trace: seq<Request>, key: string): seq<Request> {
    if trace == [] then []
    else
      var last := trace[|trace| - 1];
      Only(trace[..|trace| - 1], key) + if last.key == key then [last] else []
  }

  lemma RunKeyedSnoc(windowMs: nat, trace: seq<Request>, r: Request)
    ensures RunKeyed(windowMs, trace + [r]) == KeyedStep(RunKeyed(windowMs, trace), windowMs, r).0
    ensures RunKeyed(windowMs, []) == map[]
  {
    assert (trace + [r])[..|trace|] == trace;
  }

  lemma OnlySnoc(trace: seq<Request>, r: Request, key: string)
    ensures Only(trace + [r], key) == if r.key == key then Only(trace, key) + [r] else Only(trace, key)
    ensures Only([], key) == []
  {
    assert (trace + [r])[..|trace|] == trace;
    assert Only(trace, key) + [] == Only(trace, key);
  }

  /** A step reads and writes the hits of its own key only. */
  lemma StepIsLocal(m1: KeyedHits, m2: KeyedHits, windowMs: nat, r: Request, key: string)
    requires HitsOf(m1, key) == HitsOf(m2, key)
    ensures r.key == key ==>
              && HitsOf(KeyedStep(m1, windowMs, r).0, key) == HitsOf(KeyedStep(m2, windowMs, r).0, key)
              && KeyedStep(m1, windowMs, r).1 == KeyedStep(m2, windowMs, r).1
    ensures r.key != key ==> HitsOf(KeyedStep(m1, windowMs, r).0, key) == HitsOf(m1, key)
  {
  }

  lemma {:induction false} KeyHitsDependOnKeyOnly(windowMs: nat, trace: seq<Request>, key: string)
    ensures HitsOf(RunKeyed(windowMs, trace), key) == HitsOf(RunKeyed(windowMs, Only(trace, key)), key)
    decreases |trace|
  {
    hide *;
    if trace == [] {
      OnlySnoc([], Request(key, None, 0), key);
    } else {
      var before, last := trace[..|trace| - 1], trace[|trace| - 1];
      assert before + [last] == trace;
      KeyHitsDependOnKeyOnly(windowMs, before, key);
      RunKeyedSnoc(windowMs, before, last);
      RunKeyedSnoc(windowMs, Only(before, key), last);
      OnlySnoc(before, last, key);
      StepIsLocal(RunKeyed(windowMs, before), RunKeyed(windowMs, Only(before, key)), windowMs, last, key);
    }
  }

  /** Main result: whatever other keys do, and whatever limit each request carries, a key's verdicts
      and retry values are those of a limiter that sees that key's requests alone. */
  lemma KeysAreIsolated(windowMs: nat, trace: seq<Request>, next: Request)
    ensures KeyedStep(RunKeyed(windowMs, trace), windowMs, next).1
         == KeyedStep(RunKeyed(windowMs, Only(trace, next.key)), windowMs, next).1
  {
    hide *;
    KeyHitsDependOnKeyOnly(windowMs, trace, next.key);
    StepIsLocal(RunKeyed(windowMs, trace), RunKeyed(windowMs, Only(trace, next.key)), windowMs, next, next.key);
  }

  ghost predicate SameKeyAndLimit(trace: seq<Request>, key: string, limit: int) {
    forall i :: 0 <= i < |trace| ==> trace[i].key == key && trace[i].limit == Some(limit)
  }

  function Times(trace: seq<Request>): seq<int> {
    if trace == [] then [] else Times(trace[..|trace| - 1]) + [trace[|trace| - 1].at]
  }

  lemma TimesSnoc(trace: seq<Request>, r: Request)
    ensures Times(trace + [r]) == Times(trace) + [r.at] && Times([]) == []
  {
    assert (trace + [r])[..|trace|] == trace;
  }

  lemma RunLimiterSnoc(limit: int, calls: seq<int>, now: int)
    ensures RunLimiter(limit, calls + [now]) == CheckStep(RunLimiter(limit, calls), now).0
    ensures RunLimiter(limit, []) == Limiter(limit, [])
  {
    assert (calls + [now])[..|calls|] == calls;
  }

  lemma SingleStep(m: KeyedHits, l: Limiter, r: Request)
    requires r.limit == Some(l.limit) && l.limit > 0 && HitsOf(m, r.key) == l.hits
    ensures var (m', v) := KeyedStep(m, WINDOW_MS, r);
            var (l', ok) := CheckStep(l, r.at);
            && HitsOf(m', r.key) == l'.hits && l'.limit == l.limit
            && v.allowed == ok && v.retryAfter == if ok then 0 else RetryStep(l', r.at).1
  {
    SinceTwice(l.hits, r.at - WINDOW_MS, r.at - WINDOW_MS);
  }

  lemma {:induction false} SingleKeyIsLimiter(trace: seq<Request>, key: string, limit: int)
    requires limit > 0 && SameKeyAndLimit(trace, key, limit)
    ensures HitsOf(RunKeyed(WINDOW_MS, trace), key) == RunLimiter(limit, Times(trace)).hits
    ensures RunLimiter(limit, Times(trace)).limit == limit
    decreases |trace|
  {
    hide RunKeyed, RunLimiter, Times, KeyedStep, CheckStep, RetryStep;
    if trace == [] {
      RunKeyedSnoc(WINDOW_MS, [], Request(key, None, 0));
      RunLimiterSnoc(limit, [], 0);
      TimesSnoc([], Request(key, None, 0));
    } else {
      var before, last := trace[..|trace| - 1], trace[|trace| - 1];
      assert before + [last] == trace;
      SingleKeyIsLimiter(before, key, limit);
      RunKeyedSnoc(WINDOW_MS, before, last);
      TimesSnoc(before, last);
      RunLimiterSnoc(limit, Times(before), last.at);
      SingleStep(RunKeyed(WINDOW_MS, before), RunLimiter(limit, Times(before)), last);
    }
  }

  /** Main result: on one key with one positive limit the two limiters of the repository agree, verdict
      for verdict and retry value for retry value. */
  lemma LimitersAgree(trace: seq<Request>, key: string, limit: int, now: int)
    requires limit > 0 && SameKeyAndLimit(trace, key, limit)
    ensures var l := CheckStep(RunLimiter(limit, Times(trace)), now);
            var v := KeyedStep(RunKeyed(WINDOW_MS, trace), WINDOW_MS, Request(key, Some(limit), now)).1;
            v.allowed == l.1 && v.retryAfter == if v.allowed then 0 else RetryStep(l.0, now).1
  {
    hide *;
    SingleKeyIsLimiter(trace, key, limit);
    SingleStep(RunKeyed(WINDOW_MS, trace), RunLimiter(limit, Times(trace)), Request(key, Some(limit), now));
  }

  /** Requests without a positive limit are always admitted, and leave every later answer as it would have been. */
  lemma NoLimitAdmits(windowMs: nat, trace: seq<Request>, r: Request, next: Request)
    requires r.limit.None? || r.limit.value <= 0
    ensures KeyedStep(RunKeyed(windowMs, trace), windowMs, r).1 == Verdict(true, 0)
    ensures KeyedStep(RunKeyed(windowMs, trace + [r]), windowMs, next).1
         == KeyedStep(RunKeyed(windowMs, trace), windowMs, next).1
  {
    RunKeyedSnoc(windowMs, trace, r);
  }

  // ----- One limiter a tenant -----

  type TenantLimiters = map<string, Limiter>

  const GLOBAL_ID := "_global"

  function TenantKey(tenantId: Option<string>): string {
    if tenantId.None? || tenantId.value == "" then GLOBAL_ID else tenantId.value
  }

  /** `TenantRateLimiters.get`: a changed limit starts a new limiter. */
  function GetLimiter(m: TenantLimiters, tenantId: Option<string>, limit: int): Limiter {
    var id := TenantKey(tenantId);
    if id in m && m[id].limit == limit then m[id] else Limiter(limit, [])
  }

  function TenantCheck(m: TenantLimiters, tenantId: Option<string>, limit: int, now: int): (TenantLimiters, bool) {
    var (next, ok) := CheckStep(GetLimiter(m, tenantId, limit), now);
    (m[TenantKey(tenantId) := next], ok)
  }

  class TenantRateLimiters {
    var limiters: map<string, RateLimiter>

    /** No two tenants share a limiter. */
    ghost predicate Valid()
      reads this
    {
      forall i, j :: i in limiters && j in limiters && limiters[i] == limiters[j] ==> i == j
    }

    ghost function Model(): TenantLimiters
      reads this, limiters.Values
    {
      map id | id in limiters :: limiters[id].Model()
    }

    constructor ()
      ensures Valid() && limiters == map[] && Model() == map[]
    {
      limiters := map[];
    }

    method Get(tenantId: Option<string>, limitPerMinute: int) returns (rl: RateLimiter)
      requires Valid()
      modifies this
      ensures Valid() && fresh(limiters.Values - old(limiters.Values))
      ensures TenantKey(tenantId) in limiters && rl == limiters[TenantKey(tenantId)]
      ensures Model() == old(Model())[TenantKey(tenantId) := GetLimiter(old(Model()), tenantId, limitPerMinute)]
    {
      var id := TenantKey(tenantId);
      if id in limiters && limiters[id].limit == limitPerMinute {
        rl := limiters[id];
      } else {
        rl := new RateLimiter(limitPerMinute);
        limiters := limiters[id := rl];
      }
    }

    method Clear()
      modifies this
      ensures Valid() && limiters == map[] && Model() == map[]
    {
      limiters := map[];
    }
  }

  datatype TenantCall = TenantCall(tenantId: Option<string>, limit: int, at: int)

  function RunTenants(calls: seq<TenantCall>): TenantLimiters {
    if calls == [] then map[]
    else
      var last := calls[|calls| - 1];
      TenantCheck(RunTenants(calls[..|calls| - 1]), last.tenantId, last.limit, last.at).0
  }

  function TimesOf(calls: seq<TenantCall>, id: string): seq<int> {
    if calls == [] then []
    else
      var last := calls[|calls| - 1];
      TimesOf(calls[..|calls| - 1], id) + if TenantKey(last.tenantId) == id then [last.at] else []
  }

  ghost predicate TenantLimitIs(calls: seq<TenantCall>, id: string, limit: int) {
    forall i :: 0 <= i < |calls| && TenantKey(calls[i].tenantId) == id ==> calls[i].limit == limit
  }

  /** The times of a tenant's calls since its limit last changed. */
  function Streak(calls: seq<TenantCall>, id: string, limit: int): seq<int> {
    if calls == [] then []
    else
      var before, last := Streak(calls[..|calls| - 1], id, limit), calls[|calls| - 1];
      if TenantKey(last.tenantId) != id then before
      else if last.limit == limit then before + [last.at]
      else []
  }

  lemma StreakSnoc(calls: seq<TenantCall>, call: TenantCall, id: string, limit: int)
    ensures Streak(calls + [call], id, limit)
         == if TenantKey(call.tenantId) != id then Streak(calls, id, limit)
            else if call.limit == limit then Streak(calls, id, limit) + [call.at]
            else []
    ensures Streak([], id, limit) == []
  {
    assert (calls + [call])[..|calls|] == calls;
  }

  /** Whatever limits its calls carried, a tenant has the limiter of its own calls since its limit changed. */
  lemma {:induction false} LimiterOfStreak(calls: seq<TenantCall>, tenantId: Option<string>, limit: int)
    ensures GetLimiter(RunTenants(calls), tenantId, limit)
         == RunLimiter(limit, Streak(calls, TenantKey(tenantId), limit))
    decreases |calls|
  {
    hide *;
    var id := TenantKey(tenantId);
    if calls == [] {
      StreakSnoc([], TenantCall(None, 0, 0), id, limit);
      NoTenants(tenantId, limit);
    } else {
      var before, last := calls[..|calls| - 1], calls[|calls| - 1];
      assert calls == before + [last];
      LimiterOfStreak(before, tenantId, limit);
      StreakSnoc(before, last, id, limit);
      RunLimiterSnoc(limit, Streak(before, id, limit), last.at);
      TenantStep(calls, tenantId, limit);
    }
  }

  lemma NoTenants(tenantId: Option<string>, limit: int)
    ensures GetLimiter(RunTenants([]), tenantId, limit) == RunLimiter(limit, []) == Limiter(limit, [])
  {
  }

  /** What one more call does to the limiter that a tenant would get. */
  lemma TenantStep(calls: seq<TenantCall>, tenantId: Option<string>, limit: int)
    requires calls != []
    ensures var before, last := RunTenants(calls[..|calls| - 1]), calls[|calls| - 1];
            GetLimiter(RunTenants(calls), tenantId, limit)
            == if TenantKey(last.tenantId) != TenantKey(tenantId) then GetLimiter(before, tenantId, limit)
               else if last.limit == limit then CheckStep(GetLimiter(before, tenantId, limit), last.at).0
               else RunLimiter(limit, [])
  {
    hide CheckStep, TenantKey;
    var before, last := RunTenants(calls[..|calls| - 1]), calls[|calls| - 1];
    CheckKeepsLimit(GetLimiter(before, last.tenantId, last.limit), last.at);
    assert GetLimiter(before, last.tenantId, last.limit).limit == last.limit;
  }

  lemma CheckKeepsLimit(l: Limiter, now: int)
    ensures CheckStep(l, now).0.limit == l.limit
  {
  }

  lemma {:induction false} StreakIsTimes(calls: seq<TenantCall>, id: string, limit: int)
    requires TenantLimitIs(calls, id, limit)
    ensures Streak(calls, id, limit) == TimesOf(calls, id)
    decreases |calls|
  {
    if calls != [] {
      var before, last := calls[..|calls| - 1], calls[|calls| - 1];
      StreakIsTimes(before, id, limit);
      assert calls[|calls| - 1] == last;
      assert TimesOf(before, id) + [] == TimesOf(before, id);
    }
  }

  /** Main result: as long as a tenant's limit does not change, its limiter is the limiter of that
      tenant's own calls, whatever the other tenants do and however their limits change. */
  lemma TenantsAreIsolated(calls: seq<TenantCall>, tenantId: Option<string>, limit: int)
    requires TenantLimitIs(calls, TenantKey(tenantId), limit)
    ensures GetLimiter(RunTenants(calls), tenantId, limit) == RunLimiter(limit, TimesOf(calls, TenantKey(tenantId)))
  {
    hide *;
    LimiterOfStreak(calls, tenantId, limit);
    StreakIsTimes(calls, TenantKey(tenantId), limit);
  }
}
