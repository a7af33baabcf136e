/** What the callers of a run are answered and what is recorded of them, told by the steps before. */
module ToolCallReplies {
  import opened Wrappers
  import opened Breakers
  import opened RateLimit
  import opened AuditRing
  import opened ToolCalls
  import opened ToolCallRuns
  import opened ToolCallBreaker
  import opened ToolCallAdmission
  import History = BreakerHistory

  // ----- Calls in flight -----

  /** Step `k` began call `c`, the steps before it let its tool be called, and it has not ended since. */
  ghost predicate InFlightSince(start: Start, steps: seq<Step>, k: int, c: nat) {
    && 0 <= k < |steps| && steps[k].Begin? && Begun(steps[..k]) == c
    && Passes(start, steps[..k], steps[k].tenant, steps[k].tool, steps[k].now)
    && forall m :: k < m < |steps| && steps[m].End? ==> steps[m].call != c
  }

  function CallBegunBy(steps: seq<Step>, k: nat): Call
    requires k < |steps| && steps[k].Begin?
  {
    Call(NameOf(steps[k].tenant), steps[k].tool, GoesUpstream(steps[..k], steps[k].tool))
  }

  lemma {:induction false} BegunGrows(steps: seq<Step>, k: nat)
    requires k < |steps| && steps[k].Begin?
    ensures Begun(steps[..k]) < Begun(steps)
    decreases |steps|
  {
    if k < |steps| - 1 {
      BegunGrows(steps[..|steps| - 1], k);
      assert steps[..|steps| - 1][..k] == steps[..k];
    }
  }

  lemma InFlightBefore(start: Start, steps: seq<Step>, k: int, c: nat)
    requires steps != [] && k < |steps| - 1
    ensures InFlightSince(start, steps, k, c)
       <==> InFlightSince(start, steps[..|steps| - 1], k, c)
            && !(steps[|steps| - 1].End? && steps[|steps| - 1].call == c)
  {
    hide Passes, Begun;
    var before := steps[..|steps| - 1];
    if 0 <= k {
      assert before[..k] == steps[..k];
      assert forall m :: k < m < |before| ==> before[m] == steps[m];
    }
  }

  lemma InFlightRange(start: Start, steps: seq<Step>, c: nat)
    ensures forall k :: InFlightSince(start, steps, k, c) ==>
      0 <= k < |steps| && steps[k].Begin? && Begun(steps[..k]) == c
  {
    hide Passes, Begun;
  }

  lemma JustBegun(start: Start, steps: seq<Step>, c: nat)
    requires steps != []
    ensures var before, s := steps[..|steps| - 1], steps[|steps| - 1];
            InFlightSince(start, steps, |steps| - 1, c)
            <==> s.Begin? && Passes(start, before, s.tenant, s.tool, s.now) && c == Begun(before)
  {
    hide Passes, Begun;
  }

  /** What `CallsOpen` says: the calls that were let through and have not ended, each as it began. */
  lemma {:induction false} OpenMeans(start: Start, steps: seq<Step>, c: nat)
    ensures c in CallsOpen(start, steps) <==> exists k :: InFlightSince(start, steps, k, c)
    ensures forall k :: InFlightSince(start, steps, k, c) ==>
      && 0 <= k < |steps| && steps[k].Begin?
      && c in CallsOpen(start, steps) && CallsOpen(start, steps)[c] == CallBegunBy(steps, k)
    decreases |steps|
  {
    hide Passes, Begun, GoesUpstream, InFlightSince, CallsOpen;
    InFlightRange(start, steps, c);
    if steps == [] {
      NothingOpen(start);
    } else {
      var last := |steps| - 1;
      var before := steps[..last];
      OpenMeans(start, before, c);
      OpenStep(start, steps);
      JustBegun(start, steps, c);
      forall k | k < last
        ensures InFlightSince(start, steps, k, c)
           <==> InFlightSince(start, before, k, c) && !(steps[last].End? && steps[last].call == c)
        ensures InFlightSince(start, before, k, c) ==> c < Begun(before) && before[..k] == steps[..k]
      {
        InFlightBefore(start, steps, k, c);
        InFlightRange(start, before, c);
        if InFlightSince(start, before, k, c) {
          BegunGrows(before, k);
          assert before[..k] == steps[..k];
        }
      }
      if k :| InFlightSince(start, before, k, c) {
        InFlightRange(start, before, c);
        assert InFlightSince(start, steps, k, c) || (steps[last].End? && steps[last].call == c);
      }
    }
  }

  lemma NothingOpen(start: Start)
    ensures CallsOpen(start, []) == map[]
  {
  }

  // ----- Replies of one step -----

  /** The status tells the gate: 403 is the policy, 429 the limiter, 503 the shutdown or the breaker. Limiter
      and breaker announce a Retry-After. A refusal for the shutdown leaves no trace in counters, ring
      and file; any other one whose audit row cannot be written is answered with 500. */
  lemma RefusalsTellTheGate(g: Gateway, id: nat, tenant: Option<Tenant>, tool: string, now: int, writes: bool)
    ensures var (g', reply) := BeginStep(g, id, tenant, tool, now, writes);
            match Gates(g, tenant, tool, now).1
            case Passed(_) => reply.Started?
            case Stopping =>
              reply == Answered(503, None) && g'.counters == g.counters && g'.ring == g.ring && g'.file == g.file
            case Refused(reason, _, _) =>
              if !writes then reply == Answered(500, None) && g'.file == g.file
              else
                && reply.Answered?
                && reply.status == (if reason.RateLimited? then 429 else if reason.CircuitOpen? then 503 else 403)
                && reply.retryAfter == Gates(g, tenant, tool, now).1.retryAfter
                && g'.file == g.file + [RowFor(IdOf(tenant), tool, reason, now)]
  {
    hide TenantCheck, AllowStep, EffectivePolicy, RetryStep, RetrySeconds, CountStep, LabelsFor;
  }

  /** The other end: a result is answered with 200 even when it reports a failure that the breaker counts, an
      upstream timeout with 504, and any other error with 500 and without a row. */
  lemma EndsTellTheOutcome(g: Gateway, id: nat, outcome: Outcome, now: int, writes: bool)
    requires id in g.calls
    ensures var (g', reply) := EndStep(g, id, outcome, now, writes);
            var call := g.calls[id];
            var reason := if outcome.TimedOut? then UpstreamTimeout else Permitted;
            if outcome.Threw? || (outcome.TimedOut? && !call.proxied) then
              reply == Answered(500, None) && g'.file == g.file && g'.counters == g.counters
            else if !writes then reply == Answered(500, None) && g'.file == g.file
            else
              && reply == Answered(if outcome.TimedOut? then 504 else 200, None)
              && g'.file == g.file + [RowFor(call.tenantId, call.tool, reason, now)]
  {
    hide RecordStep, CountStep, LabelsFor;
  }

  // ----- Replies of a run -----

  datatype Verdict = Turned(reason: Reason) | Closing | Through

  /** What the steps so far have in store for a call: the first thing that stands against it, in the order of
      policy, rate, shutdown and circuit. */
  function VerdictOn(start: Start, before: seq<Step>, tenant: Option<Tenant>, tool: string, now: int): Verdict {
    var rules := RulesInForce(start, before);
    if Passes(start, before, tenant, tool, now) then Through
    else if Denies(rules, tenant, tool) then Turned(Denied)
    else if !Allows(rules, tenant, tool) then Turned(NotInAllowlist)
    else if !HasRoom(start, before, tenant, now) then Turned(RateLimited)
    else if Stop in before then Closing
    else Turned(CircuitOpen)
  }

  lemma RulingTold(start: Start, before: seq<Step>, tenant: Option<Tenant>, tool: string, now: int)
    requires InTime(before) && NoLater(before, now)
    ensures var ruling := Gates(Run(Fresh(start), before).g, tenant, tool, now).1;
            match VerdictOn(start, before, tenant, tool, now)
            case Through => ruling == Passed(GoesUpstream(before, tool))
            case Closing => ruling.Stopping?
            case Turned(reason) => ruling.Refused? && ruling.reason == reason
  {
    hide Run, Fresh, Gates, HasRoom, GoesUpstream, CircuitLets, RulesInForce, InTime, NoLater, TaleOf, Story, CallsOpen,
         AllowStep, CheckStep, GetLimiter, EffectivePolicy, EvaluatePolicy, Allows, Denies, IdOf;
    RunTold(start, before);
    PartsTold(start, before, tenant, tool, now);
    GatesByParts(Run(Fresh(start), before).g, tenant, tool, now);
  }

  /** What the gates say to a refused call. */
  lemma RefusalsSaySeconds(g: Gateway, tenant: Option<Tenant>, tool: string, now: int)
    ensures var rules, ruling := EffectivePolicy(g.rules, tenant), Gates(g, tenant, tool, now).1;
            ruling.Refused? ==>
              match ruling.reason
              case RateLimited =>
                ruling.retryAfter == Some(RetryStep(CheckStep(GetLimiter(g.limiters, IdOf(tenant), LimitOf(rules)),
                                                              now).0, now).1)
              case CircuitOpen => ruling.retryAfter == Some(RetrySeconds(AllowStep(g.breaker, now).0, now))
              case _ => ruling.retryAfter == None
  {
    hide CheckStep, AllowStep, GetLimiter, RetryStep, RetrySeconds, EffectivePolicy;
  }

  lemma RefusedBreakerSays(b: Breaker, now: int)
    ensures RetrySeconds(AllowStep(b, now).0, now) == RetrySeconds(b, now)
  {
  }

  /** The seconds announced to a tenant without room: until the oldest call granted to it in the window is sixty
      seconds old, at least one. */
  ghost predicate RateWait(start: Start, before: seq<Step>, tenant: Option<Tenant>, now: int, n: int) {
    if LimitFor(RulesInForce(start, before), tenant) <= 0 then n == 1
    else exists t :: OldestIn(GrantedTo(start, before, tenant), now, t) && LeastSeconds(n, t + 60_000 - now)
  }

  /** The seconds announced while the circuit refuses calls: until the pause since the last failure is over, or one
      when another call is being let through. */
  predicate CircuitWait(start: Start, before: seq<Step>, now: int, n: int) {
    var tale := Story(start, before);
    LeastSeconds(n, History.LastFailure(tale.events) + PauseOf(tale.upstream) - now)
  }

  lemma RateWaitTold(start: Start, before: seq<Step>, tenant: Option<Tenant>, tool: string, now: int)
    requires InTime(before) && NoLater(before, now) && !HasRoom(start, before, tenant, now)
    ensures var g := Run(Fresh(start), before).g;
            var limiter := GetLimiter(g.limiters, IdOf(tenant), LimitOf(EffectivePolicy(g.rules, tenant)));
            RateWait(start, before, tenant, now, RetryStep(CheckStep(limiter, now).0, now).1)
  {
    hide Run, Fresh, InTime, NoLater, RulesInForce, PassedBy, Link, CountIn, Admitted, CheckStep, GetLimiter, RetryStep,
         EffectivePolicy, LimitOf, LimitFor, Streak, Ordered, UpTo, RunTenants, RunLimiter, SecondsUntil, OldestIn,
         IdOf, NameOf, KeyOf, TenantKey, EvaluatePolicy, Allows, Denies, LeastSeconds;
    var w := Run(Fresh(start), before);
    var limit := LimitFor(RulesInForce(start, before), tenant);
    RunFollows(start, before);
    RunLimitersMatch(start, before);
    PolicyAgrees(w.g.rules, tenant, tool);
    var times := Streak(w.passed, KeyOf(tenant), limit);
    PassedInTime(start, before, KeyOf(tenant), limit, now);
    LimiterOfStreak(w.passed, IdOf(tenant), limit);
    DecidesByFullHistory(limit, times, now);
    RetryByFullHistory(limit, times, now);
    if t :| OldestIn(Admitted(limit, times), now, t)
            && RetryStep(CheckStep(RunLimiter(limit, times), now).0, now).1 == SecondsUntil(t + WINDOW_MS, now) {
      SecondsAreLeast(t + WINDOW_MS, now);
    }
  }

  lemma CircuitWaitTold(start: Start, before: seq<Step>, now: int)
    requires InTime(before) && NoLater(before, now) && !CircuitLets(start, before, now)
    ensures CircuitWait(start, before, now, RetrySeconds(AllowStep(Run(Fresh(start), before).g.breaker, now).0, now))
  {
    hide Run, TaleOf, Story, AllowStep, RetrySeconds, History.Run, History.Ordered, ResolveConfig, Create, SwitchedOn,
         ThresholdOf, PauseOf, InTime, NoLater, CallsOpen, History.GrantedSinceFailure, History.FailuresSinceSuccess,
         History.LastFailure;
    var tale := TaleOf(start, before);
    RunTold(start, before);
    TaleInTime(start, before, now);
    BreakerFollowsTale(start, before);
    RefusedBreakerSays(Run(Fresh(start), before).g.breaker, now);
    History.RetryByHistory(tale.upstream, tale.events, now);
  }

  function TextOf(reason: Reason): string {
    match reason
    case Denied => "denied"
    case NotInAllowlist => "not-in-allowlist"
    case RateLimited => "rate-limit"
    case CircuitOpen => "circuit_open"
    case UpstreamTimeout => "upstream_timeout"
    case Permitted => "ok"
  }

  lemma RowSays(tenantId: Option<string>, tool: string, reason: Reason, now: int)
    ensures RowFor(tenantId, tool, reason, now) == Row(tenantId, Some(tool), Some(now), Some(TextOf(reason)))
  {
  }

  /** Main result: in every run the answer to a call that does not start, and the row about it, are told by the
      steps before it: 403 when the policy in force is against it, 429 when its tenant has no room, 503 when
      the shutdown or the circuit is. The limiter and the circuit announce how long to wait; the shutdown
      leaves no row; and where a row cannot be written the answer is 500. */
  lemma AnsweredByHistory(start: Start, steps: seq<Step>, tenant: Option<Tenant>, tool: string, now: int, writes: bool)
    requires InTime(steps) && NoLater(steps, now)
    ensures var w := Run(Fresh(start), steps);
            var (g, reply) := BeginStep(w.g, w.next, tenant, tool, now, writes);
            match VerdictOn(start, steps, tenant, tool, now)
            case Through => reply.Started?
            case Closing => reply == Answered(503, None) && g.file == w.g.file && g.counters == w.g.counters
            case Turned(reason) =>
              if !writes then reply == Answered(500, None) && g.file == w.g.file
              else
                && reply.Answered?
                && g.file == w.g.file + [Row(NameOf(tenant), Some(tool), Some(now), Some(TextOf(reason)))]
                && match reason
                   case RateLimited =>
                     reply.status == 429 && reply.retryAfter.Some?
                     && RateWait(start, steps, tenant, now, reply.retryAfter.value)
                   case CircuitOpen =>
                     reply.status == 503 && reply.retryAfter.Some?
                     && CircuitWait(start, steps, now, reply.retryAfter.value)
                   case _ => reply.status == 403 && reply.retryAfter == None
  {
    hide *;
    var w := Run(Fresh(start), steps);
    var verdict := VerdictOn(start, steps, tenant, tool, now);
    RulingTold(start, steps, tenant, tool, now);
    RefusalsTellTheGate(w.g, w.next, tenant, tool, now, writes);
    RefusalsSaySeconds(w.g, tenant, tool, now);
    PolicyAgrees(w.g.rules, tenant, tool);
    VerdictMeans(start, steps, tenant, tool, now);
    if verdict.Turned? {
      RowSays(NameOf(tenant), tool, verdict.reason, now);
      if verdict.reason == RateLimited {
        RateWaitTold(start, steps, tenant, tool, now);
      } else if verdict.reason == CircuitOpen {
        CircuitWaitTold(start, steps, now);
      }
    }
  }

  lemma VerdictMeans(start: Start, steps: seq<Step>, tenant: Option<Tenant>, tool: string, now: int)
    ensures var verdict := VerdictOn(start, steps, tenant, tool, now);
            && (verdict == Turned(RateLimited) ==> !HasRoom(start, steps, tenant, now))
            && (verdict == Turned(CircuitOpen) ==> !CircuitLets(start, steps, now))
            && (verdict.Turned? ==> verdict.reason in {Denied, NotInAllowlist, RateLimited, CircuitOpen})
  {
    hide HasRoom, CircuitLets, Allows, Denies, RulesInForce, GoesUpstream;
  }

  /** Main result: in every run a call that some step began, that was let through and has not ended is in flight
      with the tenant and the tool of that step. At its end it is answered and recorded under these: 200 even
      for a result that reports a failure, 504 for a timeout of the upstream, and 500 without a row for any
      other error. */
  lemma EndsByHistory(start: Start, steps: seq<Step>, k: nat, c: nat, outcome: Outcome, now: int, writes: bool)
    requires InTime(steps) && InFlightSince(start, steps, k, c)
    ensures k < |steps| && steps[k].Begin? && c in Run(Fresh(start), steps).g.calls
    ensures var g := Run(Fresh(start), steps).g;
            var (g', reply) := EndStep(g, c, outcome, now, writes);
            var (tenantId, tool, upstream) :=
              (NameOf(steps[k].tenant), steps[k].tool, GoesUpstream(steps[..k], steps[k].tool));
            if outcome.Threw? || (outcome.TimedOut? && !upstream) then
              reply == Answered(500, None) && g'.file == g.file && g'.counters == g.counters
            else if !writes then reply == Answered(500, None) && g'.file == g.file
            else
              && reply == Answered(if outcome.TimedOut? then 504 else 200, None)
              && g'.file == g.file + [Row(tenantId, Some(tool), Some(now),
                                          Some(if outcome.TimedOut? then "upstream_timeout" else "ok"))]
  {
    hide *;
    CallOfRun(start, steps, k, c);
    EndsTellTheOutcome(Run(Fresh(start), steps).g, c, outcome, now, writes);
    EndRow(NameOf(steps[k].tenant), steps[k].tool, outcome, now);
  }

  lemma EndRow(tenantId: Option<string>, tool: string, outcome: Outcome, now: int)
    ensures RowFor(tenantId, tool, if outcome.TimedOut? then UpstreamTimeout else Permitted, now)
         == Row(tenantId, Some(tool), Some(now), Some(if outcome.TimedOut? then "upstream_timeout" else "ok"))
  {
  }

  lemma CallOfRun(start: Start, steps: seq<Step>, k: nat, c: nat)
    requires InTime(steps) && InFlightSince(start, steps, k, c)
    ensures k < |steps| && steps[k].Begin? && c in Run(Fresh(start), steps).g.calls
    ensures var call := Run(Fresh(start), steps).g.calls[c];
            && call.tenantId == NameOf(steps[k].tenant) && call.tool == steps[k].tool
            && call.proxied == GoesUpstream(steps[..k], steps[k].tool)
  {
    hide Run, Fresh, InTime, GoesUpstream, NameOf, InFlightSince, CallsOpen, TaleOf, Story;
    RunTold(start, steps);
    OpenMeans(start, steps, c);
  }
}
