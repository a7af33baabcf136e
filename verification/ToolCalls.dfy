/**
 The tool calls of the gateway: `executeToolCall` of `bets/b-mcp-gateway/src/server.js` with the state
 that it shares with other requests. JavaScript runs a handler without interruption from one `await` to
 the next, so a call is a begin step, which ends at the `await` of the tool, and an end step. Any other
 steps may come between the two.
 */
module ToolCalls {
  import opened Wrappers
  import opened Breakers
  import opened RateLimit
  import opened AuditRing
  import opened Metrics

  // ----- Policy -----

  /** What a policy, or the tenant that overrides it, says about calls; `None` is a setting left out. */
  datatype Rules = Rules(allow: Option<set<string>>, deny: Option<set<string>>, rateLimitPerMinute: Option<int>)

  datatype Tenant = Tenant(id: string, own: Rules)

  const DEFAULT_RATE_LIMIT: int := 60

  function OrElse<T>(first: Option<T>, second: Option<T>): Option<T> {
    if first.Some? then first else second
  }

  function EffectivePolicy(global: Rules, tenant: Option<Tenant>): Rules {
    var limit := OrElse(global.rateLimitPerMinute, Some(DEFAULT_RATE_LIMIT));
    match tenant
    case None => global.(rateLimitPerMinute := limit)
    case Some(t) =>
      Rules(OrElse(t.own.allow, global.allow), OrElse(t.own.deny, global.deny),
            OrElse(t.own.rateLimitPerMinute, limit))
  }

  /** Why a call was let through or turned away. */
  datatype Reason = Permitted | Denied | NotInAllowlist | RateLimited | CircuitOpen | UpstreamTimeout

  function EvaluatePolicy(rules: Rules, tool: string): Reason {
    if rules.deny.Some? && tool in rules.deny.value then Denied
    else if rules.allow.Some? && tool !in rules.allow.value then NotInAllowlist
    else Permitted
  }

  function LimitOf(rules: Rules): int {
    if rules.rateLimitPerMinute.Some? then rules.rateLimitPerMinute.value else DEFAULT_RATE_LIMIT
  }

  predicate Lists(names: Option<set<string>>, tool: string) {
    names.Some? && tool in names.value
  }

  const BUILTIN_TOOLS := {"echo", "digest", "listPets", "getPet"}

  predicate ShouldProxy(tool: string, upstreamTools: set<string>) {
    if tool in upstreamTools then true
    else if tool in BUILTIN_TOOLS then false
    else upstreamTools != {}
  }

  /** An empty tenant id is no tenant id. */
  function IdOf(tenant: Option<Tenant>): Option<string> {
    if tenant.None? || tenant.value.id == "" then None else Some(tenant.value.id)
  }

  // ----- Accounting -----

  function ReasonText(reason: Reason): string {
    match reason
    case Permitted => "ok"
    case Denied => "denied"
    case NotInAllowlist => "not-in-allowlist"
    case RateLimited => "rate-limit"
    case CircuitOpen => "circuit_open"
    case UpstreamTimeout => "upstream_timeout"
  }

  function DecisionText(reason: Reason): string {
    match reason
    case Permitted => "allow"
    case Denied => "deny"
    case NotInAllowlist => "deny"
    case RateLimited => "rate_limit"
    case CircuitOpen => "circuit_open"
    case UpstreamTimeout => "timeout"
  }

  function LabelsFor(tenantId: Option<string>, tool: string, reason: Reason): Labels {
    Labels(if tool == "" then "unknown" else tool, DecisionText(reason),
           if tenantId.None? || tenantId.value == "" then "none" else tenantId.value)
  }

  function RowFor(tenantId: Option<string>, tool: string, reason: Reason, now: int): Row {
    Row(tenantId, Some(tool), Some(now), Some(ReasonText(reason)))
  }

  function CountStep(c: Counters, l: Labels, reason: Reason): Counters {
    var counted := ToolCallStep(c, l);
    match reason
    case RateLimited => counted.(rateLimited := counted.rateLimited + 1)
    case CircuitOpen => counted.(circuitOpen := counted.circuitOpen + 1)
    case UpstreamTimeout => counted.(upstreamTimeout := counted.upstreamTimeout + 1)
    case _ => counted
  }

  // ----- State -----

  /** A call whose tool has not answered yet. */
  datatype Call = Call(tenantId: Option<string>, tool: string, proxied: bool)

  datatype Gateway = Gateway(
    rules: Rules, limiters: TenantLimiters, connected: bool, upstreamTools: set<string>, breaker: Breaker,
    shuttingDown: bool, counters: Counters, auditMax: nat, ring: seq<Row>, file: seq<Row>,
    calls: map<nat, Call>)

  /** `recordAudit`: the ring and its gauge first, then the file, whose write may fail. */
  function AuditStep(g: Gateway, row: Row, writes: bool): Gateway {
    var ring := LastRows(g.ring + [row], g.auditMax);
    g.(ring := ring, counters := g.counters.(auditEvents := |ring|), file := if writes then g.file + [row] else g.file)
  }

  function AccountStep(g: Gateway, call: Call, reason: Reason, now: int, writes: bool): Gateway {
    AuditStep(g.(counters := CountStep(g.counters, LabelsFor(call.tenantId, call.tool, reason), reason)),
              RowFor(call.tenantId, call.tool, reason, now), writes)
  }

  datatype Reply = Started | Answered(status: int, retryAfter: Option<int>)

  /** A failed audit write turns the answer into an internal error. */
  function AnswerOf(writes: bool, status: int, retryAfter: Option<int>): Reply {
    if writes then Answered(status, retryAfter) else Answered(500, None)
  }

  // ----- Beginning a call -----

  datatype Ruling = Refused(reason: Reason, status: int, retryAfter: Option<int>) | Stopping | Passed(proxied: bool)

  /** The gates before an upstream call; a builtin tool has none. */
  function UpstreamGates(g: Gateway, tool: string, now: int): (Gateway, Ruling) {
    if !g.connected || !ShouldProxy(tool, g.upstreamTools) then (g, Passed(false))
    else if g.shuttingDown then (g, Stopping)
    else
      var (breaker, granted) := AllowStep(g.breaker, now);
      (g.(breaker := breaker),
       if granted then Passed(true) else Refused(CircuitOpen, 503, Some(RetrySeconds(breaker, now))))
  }

  /** The gates in their order, with what each of them does to the state. */
  function Gates(g: Gateway, tenant: Option<Tenant>, tool: string, now: int): (Gateway, Ruling) {
    var rules := EffectivePolicy(g.rules, tenant);
    var verdict := EvaluatePolicy(rules, tool);
    if !verdict.Permitted? then (g, Refused(verdict, 403, None))
    else
      var (limiters, admitted) := TenantCheck(g.limiters, IdOf(tenant), LimitOf(rules), now);
      var checked := g.(limiters := limiters);
      if admitted then UpstreamGates(checked, tool, now)
      else (checked, Refused(RateLimited, 429, Some(RetryStep(limiters[TenantKey(IdOf(tenant))], now).1)))
  }

  function Conclude(ruled: (Gateway, Ruling), id: nat, tenantId: Option<string>, tool: string, now: int, writes: bool)
    : (Gateway, Reply)
  {
    var (g, ruling) := ruled;
    match ruling
    case Refused(reason, status, retryAfter) =>
      (AccountStep(g, Call(tenantId, tool, false), reason, now, writes), AnswerOf(writes, status, retryAfter))
    case Stopping => (g, Answered(503, None))
    case Passed(proxied) => (g.(calls := g.calls[id := Call(tenantId, tool, proxied)]), Started)
  }

  function BeginStep(g: Gateway, id: nat, tenant: Option<Tenant>, tool: string, now: int, writes: bool)
    : (Gateway, Reply)
  {
    Conclude(Gates(g, tenant, tool, now), id, IdOf(tenant), tool, now, writes)
  }

  // ----- Ending a call -----

  /** `failing` says that the result itself reports a timeout, a lost connection or a status of 5xx. */
  datatype Outcome = Returned(failing: bool) | TimedOut | Threw

  function RecordStep(b: Breaker, outcome: Outcome, now: int): Breaker {
    if outcome == Returned(false) then SuccessStep(b) else FailureStep(b, now).0
  }

  /** Only an upstream timeout is accounted for among the calls that raise an error. */
  function EndReason(call: Call, outcome: Outcome): Option<Reason> {
    match outcome
    case Returned(_) => Some(Permitted)
    case TimedOut => if call.proxied then Some(UpstreamTimeout) else None
    case Threw => None
  }

  function EndStep(g: Gateway, id: nat, outcome: Outcome, now: int, writes: bool): (Gateway, Reply)
    requires id in g.calls
  {
    var call := g.calls[id];
    var after := g.(calls := g.calls - {id},
                    breaker := if call.proxied then RecordStep(g.breaker, outcome, now) else g.breaker);
    match EndReason(call, outcome)
    case Some(reason) =>
      (AccountStep(after, call, reason, now, writes), AnswerOf(writes, if reason.Permitted? then 200 else 504, None))
    case None => (after, Answered(500, None))
  }

  // ----- The imperative form -----

  class Server {
    const limiters: TenantRateLimiters
    const metrics: MetricsStore
    const ring: Ring
    var rules: Rules
    var connected: bool
    var upstreamTools: set<string>
    var breaker: CircuitBreaker
    var shuttingDown: bool
    var file: seq<Row>
    var calls: map<nat, Call>

    ghost predicate Valid()
      reads this, limiters
    {
      limiters.Valid()
    }

    ghost function Model(): Gateway
      reads this, limiters, limiters.limiters.Values, breaker, metrics, ring
    {
      Gateway(rules, limiters.Model(), connected, upstreamTools, breaker.Model(), shuttingDown, metrics.Model(),
              ring.max, ring.events, file, calls)
    }

    constructor (policy: Rules, upstream: RawConfig, auditMaxEvents: nat, auditFile: seq<Row>)
      ensures Valid() && fresh(limiters) && fresh(breaker) && fresh(metrics) && fresh(ring)
      ensures limiters.limiters == map[]
      ensures Model() == Initial(policy, upstream, auditMaxEvents, auditFile)
    {
      rules, connected, upstreamTools, shuttingDown, file, calls := policy, false, {}, false, auditFile, map[];
      limiters := new TenantRateLimiters();
      breaker := new CircuitBreaker(ResolveConfig(upstream));
      metrics := new MetricsStore();
      ring := new Ring(auditFile, auditMaxEvents);
      new;
      metrics.SetAuditEvents(|ring.events|);
    }

    method RecordAudit(row: Row, writes: bool)
      requires Valid()
      modifies this`file, ring, metrics`auditEvents
      ensures Valid() && Model() == AuditStep(old(Model()), row, writes)
    {
      hide LastRows;
      ring.Push(Some(row));
      metrics.SetAuditEvents(|ring.events|);
      if writes {
        file := file + [row];
      }
    }

    method CountCall(labels: Labels, reason: Reason)
      modifies metrics
      ensures metrics.Model() == CountStep(old(metrics.Model()), labels, reason)
    {
      hide ToolCallStep;
      metrics.IncToolCall(labels);
      if reason == RateLimited {
        metrics.IncRateLimited();
      } else if reason == CircuitOpen {
        metrics.IncCircuitOpen();
      } else if reason == UpstreamTimeout {
        metrics.IncUpstreamTimeout();
      }
    }

    method Account(call: Call, reason: Reason, now: int, writes: bool)
      requires Valid()
      modifies this`file, ring, metrics
      ensures Valid() && Model() == AccountStep(old(Model()), call, reason, now, writes)
    {
      hide CountStep, LastRows, LabelsFor, RowFor;
      CountCall(LabelsFor(call.tenantId, call.tool, reason), reason);
      RecordAudit(RowFor(call.tenantId, call.tool, reason, now), writes);
    }

    method CheckLimiter(tenantId: Option<string>, limit: int, now: int) returns (limiter: RateLimiter, admitted: bool)
      requires Valid()
      modifies limiters, limiters.limiters.Values
      ensures Valid() && fresh(limiters.limiters.Values - old(limiters.limiters.Values))
      ensures TenantKey(tenantId) in limiters.limiters && limiter == limiters.limiters[TenantKey(tenantId)]
      ensures (limiters.Model(), admitted) == TenantCheck(old(limiters.Model()), tenantId, limit, now)
    {
      hide CheckStep;
      ghost var before := limiters.Model();
      limiter := limiters.Get(tenantId, limit);
      ghost var kept := limiters.Model();
      admitted := limiter.Check(now);
      assert limiters.Model() == before[TenantKey(tenantId) := CheckStep(kept[TenantKey(tenantId)], now).0];
    }

    method RefuseByLimiter(limiter: RateLimiter, call: Call, now: int, writes: bool) returns (reply: Reply)
      requires Valid()
      requires TenantKey(call.tenantId) in limiters.limiters && limiter == limiters.limiters[TenantKey(call.tenantId)]
      requires RetryStep(limiter.Model(), now).0 == limiter.Model()
      modifies this`file, ring, metrics, limiter
      ensures Valid() && Model() == AccountStep(old(Model()), call, RateLimited, now, writes)
      ensures reply == AnswerOf(writes, 429, Some(RetryStep(old(limiter.Model()), now).1))
    {
      hide RetryStep, AccountStep;
      ghost var held := limiters.Model();
      Account(call, RateLimited, now, writes);
      var seconds := limiter.RetryAfterSeconds(now);
      assert limiters.Model() == held;
      reply := AnswerOf(writes, 429, Some(seconds));
    }

    method RefuseByBreaker(call: Call, now: int, writes: bool) returns (reply: Reply)
      requires Valid() && Observe(breaker.Model(), now) == breaker.Model()
      modifies this`file, ring, metrics, breaker
      ensures Valid() && Model() == AccountStep(old(Model()), call, CircuitOpen, now, writes)
      ensures reply == AnswerOf(writes, 503, Some(RetrySeconds(old(breaker.Model()), now)))
    {
      hide Observe, RetrySeconds, AccountStep;
      Account(call, CircuitOpen, now, writes);
      var seconds := breaker.RetryAfterSeconds(now);
      reply := AnswerOf(writes, 503, Some(seconds));
    }

    method EnterUpstream(id: nat, tenantId: Option<string>, tool: string, now: int, writes: bool)
      returns (reply: Reply)
      requires Valid()
      modifies this`file, this`calls, breaker, metrics, ring
      ensures Valid()
      ensures (Model(), reply) == Conclude(UpstreamGates(old(Model()), tool, now), id, tenantId, tool, now, writes)
    {
      hide AllowStep, RetrySeconds, AccountStep;
      if connected && ShouldProxy(tool, upstreamTools) {
        if shuttingDown {
          return Answered(503, None);
        }
        ghost var idle := breaker.Model();
        var granted := breaker.Allow(now);
        if !granted {
          RefusalIsSettled(idle, now);
          reply := RefuseByBreaker(Call(tenantId, tool, false), now, writes);
          return;
        }
        calls := calls[id := Call(tenantId, tool, true)];
      } else {
        calls := calls[id := Call(tenantId, tool, false)];
      }
      reply := Started;
    }

    method BeginToolCall(id: nat, tenant: Option<Tenant>, tool: string, now: int, writes: bool)
      returns (reply: Reply)
      requires Valid()
      modifies this`file, this`calls, limiters, limiters.limiters.Values, breaker, metrics, ring
      ensures Valid() && fresh(limiters.limiters.Values - old(limiters.limiters.Values))
      ensures (Model(), reply) == BeginStep(old(Model()), id, tenant, tool, now, writes)
    {
      hide CheckStep, RetryStep, UpstreamGates, AccountStep, GetLimiter, EvaluatePolicy, EffectivePolicy;
      var policy := EffectivePolicy(rules, tenant);
      var tenantId := IdOf(tenant);
      var decision := EvaluatePolicy(policy, tool);
      if decision != Permitted {
        Account(Call(tenantId, tool, false), decision, now, writes);
        return AnswerOf(writes, 403, None);
      }
      ghost var unchecked := limiters.Model();
      var limiter, admitted := CheckLimiter(tenantId, LimitOf(policy), now);
      if !admitted {
        RetryChangesNothing(GetLimiter(unchecked, tenantId, LimitOf(policy)), now);
        assert limiters.Model()[TenantKey(tenantId)] == limiter.Model();
        reply := RefuseByLimiter(limiter, Call(tenantId, tool, false), now, writes);
        return;
      }
      reply := EnterUpstream(id, tenantId, tool, now, writes);
    }

    method Record(outcome: Outcome, now: int)
      modifies breaker
      ensures breaker.Model() == RecordStep(old(breaker.Model()), outcome, now)
    {
      if outcome == Returned(false) {
        breaker.RecordSuccess();
      } else {
        var _ := breaker.RecordFailure(now);
      }
    }

    method EndToolCall(id: nat, outcome: Outcome, now: int, writes: bool) returns (reply: Reply)
      requires Valid() && id in calls
      modifies this`file, this`calls, breaker, metrics, ring
      ensures Valid() && (Model(), reply) == EndStep(old(Model()), id, outcome, now, writes)
    {
      hide RecordStep, AccountStep;
      var call := calls[id];
      calls := calls - {id};
      if call.proxied {
        Record(outcome, now);
      }
      if outcome.Threw? || (outcome.TimedOut? && !call.proxied) {
        return Answered(500, None);
      }
      Account(call, if outcome.TimedOut? then UpstreamTimeout else Permitted, now, writes);
      reply := AnswerOf(writes, if outcome.TimedOut? then 504 else 200, None);
    }

    /** `reloadPolicy`: the new policy starts with no limiter. */
    method ReloadPolicy(policy: Rules)
      requires Valid()
      modifies this, limiters
      ensures Valid() && limiters.limiters == map[]
      ensures Model() == old(Model()).(rules := policy, limiters := map[])
    {
      rules := policy;
      limiters.Clear();
    }

    /** The part of `connectUpstream` after the old upstream is closed and before the new one lists its tools:
        whatever is in flight will report to the new breaker. */
    method ConnectUpstream(upstream: RawConfig, client: bool)
      requires Valid()
      modifies this
      ensures Valid() && fresh(breaker)
      ensures Model() == old(Model()).(
                           connected := client, upstreamTools := {}, breaker := Create(ResolveConfig(upstream)))
    {
      upstreamTools := {};
      breaker := new CircuitBreaker(ResolveConfig(upstream));
      connected := client;
    }

    method BeginShutdown()
      requires Valid()
      modifies this`shuttingDown
      ensures Valid() && Model() == old(Model()).(shuttingDown := true)
    {
      shuttingDown := true;
    }
  }

  function Initial(rules: Rules, upstream: RawConfig, auditMax: nat, file: seq<Row>): Gateway {
    var ring := LastRows(file, auditMax);
    Gateway(rules, map[], false, {}, Create(ResolveConfig(upstream)), false,
            Counters([], 0, 0, 0, |ring|), auditMax, ring, file, map[])
  }

  lemma RetryChangesNothing(l: Limiter, now: int)
    requires !CheckStep(l, now).1
    ensures RetryStep(CheckStep(l, now).0, now).0 == CheckStep(l, now).0
  {
    SinceTwice(l.hits, now - WINDOW_MS, now - WINDOW_MS);
  }

  lemma RefusalIsSettled(b: Breaker, now: int)
    requires !AllowStep(b, now).1
    ensures Observe(AllowStep(b, now).0, now) == AllowStep(b, now).0
  {
  }
}
