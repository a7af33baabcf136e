/** What the circuit breaker does to the calls of a whole run. */
module ToolCallBreaker {
  import opened Wrappers
  import opened Breakers
  import opened RateLimit
  import opened ToolCalls
  import opened ToolCallRuns
  import History = BreakerHistory

  /** A call that the policy and the limiter let pass and that is meant for a connected upstream, while the
      server is not shutting down, asks the breaker. */
  predicate Asks(g: Gateway, tenant: Option<Tenant>, tool: string, now: int) {
    var rules := EffectivePolicy(g.rules, tenant);
    && EvaluatePolicy(rules, tool).Permitted?
    && TenantCheck(g.limiters, IdOf(tenant), LimitOf(rules), now).1
    && g.connected && ShouldProxy(tool, g.upstreamTools) && !g.shuttingDown
  }

  /** What a step is to the breaker: a question, a success, a failure, a look, or nothing. A result that
      reports a lost connection or a 5xx, a timeout and any other error are failures. */
  function EventOf(g: Gateway, s: Step): seq<History.Timed> {
    match s
    case Begin(tenant, tool, now, _) => if Asks(g, tenant, tool, now) then [History.Timed(now, History.Asked)] else []
    case End(call, outcome, now, _) =>
      if call !in g.calls || !g.calls[call].proxied then []
      else if outcome == Returned(false) then [History.Timed(now, History.Succeeded)]
      else [History.Timed(now, History.Failed)]
    case Look(now) => [History.Timed(now, History.Observed)]
    case _ => []
  }

  /** The settings of the breaker in use, and what happened since it was put in place. */
  datatype Tale = Tale(upstream: RawConfig, events: seq<History.Timed>)

  function TaleOf(start: Start, steps: seq<Step>): Tale {
    if steps == [] then Tale(start.upstream, [])
    else
      var before, last := steps[..|steps| - 1], steps[|steps| - 1];
      if last.Connect? then Tale(last.upstream, [])
      else
        var tale := TaleOf(start, before);
        tale.(events := tale.events + EventOf(Run(Fresh(start), before).g, last))
  }

  lemma GatesMoveBreaker(g: Gateway, tenant: Option<Tenant>, tool: string, now: int)
    ensures Gates(g, tenant, tool, now).0.breaker
         == if Asks(g, tenant, tool, now) then AllowStep(g.breaker, now).0 else g.breaker
  {
    hide TenantCheck, AllowStep, EffectivePolicy, RetryStep, RetrySeconds;
  }

  lemma BreakerMoves(w: World, s: Step)
    requires !s.Connect?
    ensures var events := EventOf(w.g, s);
            && |events| <= 1
            && Next(w, s).g.breaker == if events == [] then w.g.breaker else History.Step(w.g.breaker, events[0])
  {
    hide BeginStep, EndStep, Asks, AllowStep, SuccessStep, FailureStep, Observe, Recorded, Passing, EntersUpstream;
    match s
    case Begin(tenant, tool, now, writes) =>
      BeginFrame(w.g, w.next, tenant, tool, now, writes);
      GatesMoveBreaker(w.g, tenant, tool, now);
    case End(call, outcome, now, writes) =>
      if call in w.g.calls {
        EndFrame(w.g, call, outcome, now, writes);
      }
    case _ =>
  }

  lemma HistoryRunSnoc(b: Breaker, h: seq<History.Timed>, e: History.Timed)
    ensures History.Run(b, h + [e]) == History.Step(History.Run(b, h), e) && History.Run(b, []) == b
  {
    assert (h + [e])[..|h|] == h;
  }

  lemma TaleStep(start: Start, steps: seq<Step>)
    requires steps != []
    ensures var before, last := steps[..|steps| - 1], steps[|steps| - 1];
            TaleOf(start, steps) ==
            if last.Connect? then Tale(last.upstream, [])
            else
              var tale := TaleOf(start, before);
              tale.(events := tale.events + EventOf(Run(Fresh(start), before).g, last))
  {
    hide EventOf, Run;
  }

  lemma ConnectReplaces(w: World, s: Step)
    requires s.Connect?
    ensures Next(w, s).g.breaker == Create(ResolveConfig(s.upstream))
  {
    hide Create, ResolveConfig;
  }

  lemma FreshBreaker(start: Start)
    ensures TaleOf(start, []) == Tale(start.upstream, [])
    ensures Run(Fresh(start), []).g.breaker == Create(ResolveConfig(start.upstream))
  {
    hide Create, ResolveConfig;
  }

  lemma {:induction false} BreakerFollowsTale(start: Start, steps: seq<Step>)
    ensures var tale := TaleOf(start, steps);
            Run(Fresh(start), steps).g.breaker == History.Run(Create(ResolveConfig(tale.upstream)), tale.events)
    decreases |steps|
  {
    hide *;
    if steps == [] {
      FreshBreaker(start);
      HistoryRunSnoc(Create(ResolveConfig(start.upstream)), [], History.Timed(0, History.Observed));
    } else {
      var before, last := steps[..|steps| - 1], steps[|steps| - 1];
      var w, tale := Run(Fresh(start), before), TaleOf(start, before);
      BreakerFollowsTale(start, before);
      ToolCallRuns.RunStep(Fresh(start), steps);
      TaleStep(start, steps);
      if last.Connect? {
        ConnectReplaces(w, last);
        HistoryRunSnoc(Create(ResolveConfig(last.upstream)), [], History.Timed(0, History.Observed));
      } else {
        BreakerMoves(w, last);
        var events := EventOf(w.g, last);
        if events == [] {
          assert tale.events + [] == tale.events;
        } else {
          assert events == [events[0]];
          HistoryRunSnoc(Create(ResolveConfig(tale.upstream)), tale.events, events[0]);
        }
      }
    }
  }

  /** Main result: in every run a call that gets as far as the breaker is refused with `circuit_open` exactly
      when, since that breaker was put in place, its threshold of upstream failures was reached after the
      last success and the pause since the last failure is running or another call was let through since
      that failure. Results of calls that an earlier breaker let through count like any other. */
  lemma CircuitFollowsHistory(start: Start, steps: seq<Step>, tenant: Option<Tenant>, tool: string, now: int)
    requires var tale := TaleOf(start, steps);
             && SwitchedOn(tale.upstream) && History.Ordered(tale.events)
             && (tale.events != [] ==> tale.events[|tale.events| - 1].at <= now)
    ensures var (tale, g) := (TaleOf(start, steps), Run(Fresh(start), steps).g);
            var (threshold, pause) := (ThresholdOf(tale.upstream), PauseOf(tale.upstream));
            var ruling := Gates(g, tenant, tool, now).1;
            ruling.Refused? && ruling.reason.CircuitOpen?
            <==> Asks(g, tenant, tool, now) && !History.Granted(threshold, pause, tale.events, now)
  {
    hide *;
    BreakerFollowsTale(start, steps);
    var (tale, g) := (TaleOf(start, steps), Run(Fresh(start), steps).g);
    History.BreakerRefinesHistory(tale.upstream, tale.events, now);
    RefusalIsBreakers(g, tenant, tool, now);
  }

  lemma RefusalIsBreakers(g: Gateway, tenant: Option<Tenant>, tool: string, now: int)
    ensures var ruling := Gates(g, tenant, tool, now).1;
            ruling.Refused? && ruling.reason.CircuitOpen?
            <==> Asks(g, tenant, tool, now) && !AllowStep(g.breaker, now).1
  {
    hide TenantCheck, AllowStep, EffectivePolicy, RetryStep, RetrySeconds;
  }

  // ----- What a refused caller is told -----

  /** Main result: the Retry-After of an open circuit is exact. When nothing else happens, the next call that
      asks after a whole number of seconds is let through if and only if that number is at least the
      announced one. While a probe is in flight the announced second promises nothing. */
  lemma CircuitRetryIsExact(g: Gateway, tenant: Option<Tenant>, tool: string, now: int, later: nat)
    requires var ruling := Gates(g, tenant, tool, now).1; ruling.Refused? && ruling.reason.CircuitOpen?
    ensures var (after, ruling) := Gates(g, tenant, tool, now);
            && ruling.retryAfter.Some?
            && (after.breaker.state.Open? ==>
                  (AllowStep(after.breaker, now + 1000 * later).1 <==> later >= ruling.retryAfter.value))
            && (!after.breaker.state.Open? ==>
                  after.breaker.probeInFlight && ruling.retryAfter.value == 1
                  && !AllowStep(after.breaker, now + 1000 * later).1)
  {
    hide TenantCheck, EffectivePolicy, RetryStep, RetrySeconds, AllowStep;
    var b := g.breaker;
    GatesMoveBreaker(g, tenant, tool, now);
    RefusalIsBreakers(g, tenant, tool, now);
    RefusedBreaker(b, now);
    var refused := AllowStep(b, now).0;
    if refused.state.Open? {
      RetryAfterIsExact(refused, now, later);
    } else {
      ProbeBlocks(refused, now, now + 1000 * later);
    }
  }

  lemma RefusedBreaker(b: Breaker, now: int)
    requires !AllowStep(b, now).1
    ensures var refused := AllowStep(b, now).0;
            && refused.enabled && Observe(refused, now) == refused
            && (!refused.state.Open? ==> refused.state.HalfOpen? && refused.probeInFlight)
  {
  }

  lemma ProbeBlocks(b: Breaker, now: int, later: int)
    requires b.enabled && b.state.HalfOpen? && b.probeInFlight
    ensures !AllowStep(b, later).1 && RetrySeconds(b, now) == 1
  {
  }
}
