/**
 Runs of the gateway: any number of calls that begin and end in any order, with health checks, other
 audit rows, reloads, reconnections and the shutdown in between.
 */
module ToolCallRuns {
  import opened Wrappers
  import opened Breakers
  import opened RateLimit
  import opened AuditRing
  import opened Metrics
  import opened ToolCalls

  datatype Step =
    | Begin(tenant: Option<Tenant>, tool: string, now: int, writes: bool)
    | End(call: nat, outcome: Outcome, now: int, writes: bool)
    | Look(now: int)
    | AuditOther(tenantId: Option<string>, now: int, writes: bool)
    | Reload(rules: Rules)
    | Connect(upstream: RawConfig, client: bool)
    | List(tools: set<string>)
    | Lose
    | Stop

  /** An end step of a call that is not in flight does nothing. */
  function Apply(g: Gateway, id: nat, s: Step): Gateway {
    match s
    case Begin(tenant, tool, now, writes) => BeginStep(g, id, tenant, tool, now, writes).0
    case End(call, outcome, now, writes) => if call in g.calls then EndStep(g, call, outcome, now, writes).0 else g
    case Look(now) => g.(breaker := Observe(g.breaker, now))
    case AuditOther(tenantId, now, writes) => AuditStep(g, OtherRow(tenantId, now), writes)
    case Reload(rules) => g.(rules := rules, limiters := map[])
    case Connect(upstream, client) =>
      g.(connected := client, upstreamTools := {}, breaker := Create(ResolveConfig(upstream)))
    case List(tools) => g.(upstreamTools := tools)
    case Lose => g.(connected := false, upstreamTools := {})
    case Stop => g.(shuttingDown := true)
  }

  /** The rows of key rotations and deleted sessions. */
  function OtherRow(tenantId: Option<string>, now: int): Row {
    Row(tenantId, None, Some(now), None)
  }

  // ----- Worlds: the gateway and what has happened -----

  /** `episode` numbers the half-open periods; `tags` says in which of them a probe was let through;
      `records` counts the outcomes that calls reported to a breaker; `lost` holds the rows whose write
      failed; `passed` holds the calls that reached the limiters since the last reload. */
  datatype World = World(
    g: Gateway, next: nat, episode: nat, tags: map<nat, nat>, admitted: set<nat>, records: multiset<nat>,
    rows: seq<Row>, lost: seq<Row>, passed: seq<TenantCall>)

  predicate EntersUpstream(g: Gateway, s: Step) {
    s.Begin? && Gates(g, s.tenant, s.tool, s.now).1 == Passed(true)
  }

  predicate Reports(g: Gateway, s: Step) {
    s.End? && s.call in g.calls && g.calls[s.call].proxied
  }

  predicate OpensEpisode(before: Breaker, after: Breaker) {
    before.state.Open? && after.state.HalfOpen?
  }

  /** The row that a step records. */
  function Recorded(g: Gateway, s: Step): Option<Row> {
    match s
    case Begin(tenant, tool, now, _) =>
      var ruling := Gates(g, tenant, tool, now).1;
      if ruling.Refused? then Some(RowFor(IdOf(tenant), tool, ruling.reason, now)) else None
    case End(call, outcome, now, _) =>
      if call !in g.calls then None
      else
        var reason := EndReason(g.calls[call], outcome);
        if reason.None? then None else Some(RowFor(g.calls[call].tenantId, g.calls[call].tool, reason.value, now))
    case AuditOther(tenantId, now, _) => Some(OtherRow(tenantId, now))
    case _ => None
  }

  predicate Writes(s: Step) {
    match s
    case Begin(_, _, _, writes) => writes
    case End(_, _, _, writes) => writes
    case AuditOther(_, _, writes) => writes
    case _ => true
  }

  function AsSeq(row: Option<Row>): seq<Row> {
    if row.Some? then [row.value] else []
  }

  function Passing(g: Gateway, passed: seq<TenantCall>, s: Step): seq<TenantCall> {
    if s.Reload? then []
    else if s.Begin? && EvaluatePolicy(EffectivePolicy(g.rules, s.tenant), s.tool).Permitted? then
      passed + [TenantCall(IdOf(s.tenant), LimitOf(EffectivePolicy(g.rules, s.tenant)), s.now)]
    else passed
  }

  function Next(w: World, s: Step): World {
    var g := Apply(w.g, w.next, s);
    var episode := w.episode + if OpensEpisode(w.g.breaker, g.breaker) then 1 else 0;
    var row := AsSeq(Recorded(w.g, s));
    World(g, if s.Begin? then w.next + 1 else w.next, episode,
          if EntersUpstream(w.g, s) && g.breaker.state.HalfOpen? then w.tags[w.next := episode] else w.tags,
          if EntersUpstream(w.g, s) then w.admitted + {w.next} else w.admitted,
          if Reports(w.g, s) then w.records + multiset{s.call} else w.records,
          w.rows + row,
          if Writes(s) then w.lost else w.lost + row,
          Passing(w.g, w.passed, s))
  }

  datatype Start = Start(rules: Rules, upstream: RawConfig, auditMax: nat, file: seq<Row>)

  function Fresh(start: Start): World {
    World(Initial(start.rules, start.upstream, start.auditMax, start.file), 0, 0, map[], {}, multiset{}, [], [], [])
  }

  function Run(w: World, steps: seq<Step>): World {
    if steps == [] then w else Next(Run(w, steps[..|steps| - 1]), steps[|steps| - 1])
  }

  /** Accounting changes the counters, the ring and the file, and nothing else. */
  lemma AccountFrame(g: Gateway, call: Call, reason: Reason, now: int, writes: bool)
    ensures var g' := AccountStep(g, call, reason, now, writes);
            g' == g.(counters := g'.counters, ring := g'.ring, file := g'.file)
  {
    hide CountStep, LabelsFor, RowFor, LastRows;
  }

  lemma BeginFrame(g: Gateway, id: nat, tenant: Option<Tenant>, tool: string, now: int, writes: bool)
    ensures var g' := BeginStep(g, id, tenant, tool, now, writes).0;
            var (after, ruling) := Gates(g, tenant, tool, now);
            && g'.calls == (if ruling.Passed? then after.calls[id := Call(IdOf(tenant), tool, ruling.proxied)]
                            else after.calls)
            && g' == after.(calls := g'.calls, counters := g'.counters, ring := g'.ring, file := g'.file)
  {
    hide Gates, AccountStep, IdOf;
    var (after, ruling) := Gates(g, tenant, tool, now);
    if ruling.Refused? {
      AccountFrame(after, Call(IdOf(tenant), tool, false), ruling.reason, now, writes);
    }
  }

  lemma EndFrame(g: Gateway, id: nat, outcome: Outcome, now: int, writes: bool)
    requires id in g.calls
    ensures var g' := EndStep(g, id, outcome, now, writes).0;
            && g'.calls == g.calls - {id}
            && g'.breaker == (if g.calls[id].proxied then RecordStep(g.breaker, outcome, now) else g.breaker)
            && g' == g.(calls := g'.calls, breaker := g'.breaker, counters := g'.counters, ring := g'.ring,
                        file := g'.file)
  {
    hide AccountStep, RecordStep;
    var call := g.calls[id];
    var after := g.(calls := g.calls - {id},
                    breaker := if call.proxied then RecordStep(g.breaker, outcome, now) else g.breaker);
    if EndReason(call, outcome).Some? {
      AccountFrame(after, call, EndReason(call, outcome).value, now, writes);
    }
  }

  /** What the steps do to the calls in flight and to the breaker, whatever they record. */
  lemma CallsAfter(w: World, s: Step)
    ensures var w' := Next(w, s);
            && (s.Begin? && Gates(w.g, s.tenant, s.tool, s.now).1.Passed? ==>
                  w'.g.calls == w.g.calls[w.next := Call(IdOf(s.tenant), s.tool, EntersUpstream(w.g, s))])
            && (s.Begin? && !Gates(w.g, s.tenant, s.tool, s.now).1.Passed? ==> w'.g.calls == w.g.calls)
            && (s.End? && s.call in w.g.calls ==> w'.g.calls == w.g.calls - {s.call})
            && (!s.Begin? && !(s.End? && s.call in w.g.calls) ==> w'.g.calls == w.g.calls)
  {
    hide Gates, BeginStep, EndStep, Recorded, Passing, LastRows;
    if s.Begin? {
      BeginFrame(w.g, w.next, s.tenant, s.tool, s.now, s.writes);
      GatesFrame(w.g, s.tenant, s.tool, s.now);
    } else if s.End? && s.call in w.g.calls {
      EndFrame(w.g, s.call, s.outcome, s.now, s.writes);
    }
  }

  /** The gates touch the limiters and the breaker only, and the breaker only by asking it. */
  lemma GatesFrame(g: Gateway, tenant: Option<Tenant>, tool: string, now: int)
    ensures var (after, ruling) := Gates(g, tenant, tool, now);
            && after == g.(limiters := after.limiters, breaker := after.breaker)
            && (after.breaker == g.breaker || after.breaker == AllowStep(g.breaker, now).0)
            && (ruling == Passed(true) ==>
                  after.breaker == AllowStep(g.breaker, now).0 && AllowStep(g.breaker, now).1)
            && (ruling != Passed(true) && after.breaker != g.breaker ==> !AllowStep(g.breaker, now).1)
  {
    hide TenantCheck, AllowStep, EvaluatePolicy, EffectivePolicy, RetryStep, RetrySeconds;
  }

  lemma BreakerAfter(w: World, s: Step)
    ensures var b, b' := w.g.breaker, Next(w, s).g.breaker;
            && (s.Begin? ==> b' == b || b' == AllowStep(b, s.now).0)
            && (EntersUpstream(w.g, s) ==> b' == AllowStep(b, s.now).0 && AllowStep(b, s.now).1)
            && (s.Begin? && !EntersUpstream(w.g, s) && b' != b ==> !AllowStep(b, s.now).1)
            && (Reports(w.g, s) ==> b' == RecordStep(b, s.outcome, s.now))
            && (s.Look? ==> b' == Observe(b, s.now))
            && (s.Connect? ==> b' == Create(ResolveConfig(s.upstream)))
            && (!s.Begin? && !Reports(w.g, s) && !s.Look? && !s.Connect? ==> b' == b)
  {
    hide Gates, BeginStep, EndStep, AllowStep, RecordStep, Recorded, Passing, LastRows, Observe, Create;
    if s.Begin? {
      BeginFrame(w.g, w.next, s.tenant, s.tool, s.now, s.writes);
      GatesFrame(w.g, s.tenant, s.tool, s.now);
    } else if s.End? && s.call in w.g.calls {
      EndFrame(w.g, s.call, s.outcome, s.now, s.writes);
    }
  }

  // ----- One probe an episode -----

  ghost predicate IsProbe(w: World, c: nat) {
    c in w.g.calls && w.g.calls[c].proxied && c in w.tags && w.tags[c] == w.episode
  }

  ghost predicate TagsBelow(w: World, bound: nat) {
    forall c :: c in w.tags ==> c < w.next && w.tags[c] < bound
  }

  ghost predicate OneCallAnEpisode(tags: map<nat, nat>) {
    forall a, b :: a in tags && b in tags && tags[a] == tags[b] ==> a == b
  }

  ghost predicate ProbeSafe(w: World) {
    var b := w.g.breaker;
    && (forall c :: c in w.g.calls ==> c < w.next)
    && OneCallAnEpisode(w.tags)
    && TagsBelow(w, w.episode + 1)
    && (b.probeInFlight ==> b.state.HalfOpen? && exists c :: IsProbe(w, c))
    && (b.state.HalfOpen? && !b.probeInFlight ==> TagsBelow(w, w.episode))
    && (!b.enabled ==> b.state.Closed?)
  }

  lemma ProbeSafeNext(w: World, s: Step)
    requires ProbeSafe(w)
    ensures ProbeSafe(Next(w, s))
  {
    hide Apply, Gates, Recorded, Passing, ResolveConfig, Effective, EntersUpstream;
    CallsAfter(w, s);
    BreakerAfter(w, s);
    var w' := Next(w, s);
    if EntersUpstream(w.g, s) {
      EntryIsPassed(w.g, s);
      if w'.g.breaker.probeInFlight {
        assert IsProbe(w', w.next);
      }
    } else if w'.g.breaker.probeInFlight {
      var c :| IsProbe(w, c);
      assert IsProbe(w', c);
    }
  }

  lemma EntryIsPassed(g: Gateway, s: Step)
    requires EntersUpstream(g, s)
    ensures s.Begin? && Gates(g, s.tenant, s.tool, s.now).1.Passed?
  {
    hide Gates;
  }

  lemma {:induction false} RunIsProbeSafe(start: Start, steps: seq<Step>)
    ensures ProbeSafe(Run(Fresh(start), steps))
    decreases |steps|
  {
    if steps == [] {
      hide *;
      FreshIsProbeSafe(start);
    } else {
      hide *;
      RunStep(Fresh(start), steps);
      RunIsProbeSafe(start, steps[..|steps| - 1]);
      ProbeSafeNext(Run(Fresh(start), steps[..|steps| - 1]), steps[|steps| - 1]);
    }
  }

  lemma FreshIsProbeSafe(start: Start)
    ensures ProbeSafe(Run(Fresh(start), []))
  {
  }

  lemma RunStep(w: World, steps: seq<Step>)
    requires steps != []
    ensures Run(w, steps) == Next(Run(w, steps[..|steps| - 1]), steps[|steps| - 1])
  {
    hide Next;
  }

  /** The upstream calls in flight. */
  ghost function InFlight(g: Gateway): set<nat> {
    set c | c in g.calls && g.calls[c].proxied
  }

  /** Main result: in every reachable state a probe that blocks others is a call still in flight that was
      let through in the current half-open period; no period lets two calls through; and with no upstream
      call in flight the breaker lets the next call through unless its pause is running, also after a
      reload has replaced the breaker under calls in flight. */
  lemma HalfOpenNeverSticks(start: Start, steps: seq<Step>, now: int)
    ensures var w := Run(Fresh(start), steps);
            var b := w.g.breaker;
            && (b.probeInFlight ==> b.state.HalfOpen? && exists c :: c in InFlight(w.g) && IsProbe(w, c))
            && OneCallAnEpisode(w.tags)
            && (InFlight(w.g) == {} ==>
                  (AllowStep(b, now).1 <==> !(b.enabled && b.state.Open? && now - b.openedAt < b.openMs)))
  {
    hide Run, Fresh, OneCallAnEpisode, TagsBelow;
    RunIsProbeSafe(start, steps);
    var w := Run(Fresh(start), steps);
    if w.g.breaker.probeInFlight {
      var c :| IsProbe(w, c);
      assert c in InFlight(w.g);
    }
  }

  // ----- One record a call -----

  ghost predicate RecordsOnce(w: World) {
    && (forall c :: c in w.g.calls || c in w.admitted ==> c < w.next)
    && InFlight(w.g) <= w.admitted
    && w.records == multiset(w.admitted - InFlight(w.g))
  }

  lemma InFlightAfter(w: World, s: Step)
    requires w.next !in w.g.calls
    ensures InFlight(Next(w, s).g) == if EntersUpstream(w.g, s) then InFlight(w.g) + {w.next}
                                      else if Reports(w.g, s) then InFlight(w.g) - {s.call}
                                      else InFlight(w.g)
    ensures forall c :: c in Next(w, s).g.calls ==> c in w.g.calls || (c == w.next && s.Begin?)
  {
    hide Apply, Gates, Recorded, Passing;
    CallsAfter(w, s);
  }

  lemma RecordsOnceNext(w: World, s: Step)
    requires RecordsOnce(w)
    ensures RecordsOnce(Next(w, s))
  {
    hide Apply, Gates, Recorded, Passing, EntersUpstream, Reports, InFlight;
    InFlightAfter(w, s);
    var flying := InFlight(w.g);
    assert forall c :: c in flying ==> c < w.next;
    if EntersUpstream(w.g, s) {
      EntryIsBegin(w.g, s);
      assert (w.admitted + {w.next}) - (flying + {w.next}) == w.admitted - flying;
    } else if Reports(w.g, s) {
      ReporterFlies(w.g, s);
      Landing(w.admitted, flying, s.call);
    }
  }

  lemma Landing(admitted: set<nat>, flying: set<nat>, call: nat)
    requires call in flying && call in admitted
    ensures multiset(admitted - (flying - {call})) == multiset(admitted - flying) + multiset{call}
  {
    assert admitted - (flying - {call}) == (admitted - flying) + {call};
  }

  lemma EntryIsBegin(g: Gateway, s: Step)
    requires EntersUpstream(g, s)
    ensures s.Begin? && !Reports(g, s)
  {
    hide Gates;
  }

  lemma ReporterFlies(g: Gateway, s: Step)
    requires Reports(g, s)
    ensures s.End? && s.call in InFlight(g)
  {
  }

  /** Main result: in every run each call that was let through to the upstream reports exactly one outcome
      to a breaker, when it ends, and a call in flight has reported none. */
  lemma {:induction false} EveryCallRecordsOnce(start: Start, steps: seq<Step>)
    ensures RecordsOnce(Run(Fresh(start), steps))
    decreases |steps|
  {
    if steps == [] {
      assert InFlight(Fresh(start).g) == {};
    } else {
      hide *;
      RunStep(Fresh(start), steps);
      EveryCallRecordsOnce(start, steps[..|steps| - 1]);
      RecordsOnceNext(Run(Fresh(start), steps[..|steps| - 1]), steps[|steps| - 1]);
    }
  }

  // ----- Shutdown -----

  lemma FlagAfter(w: World, s: Step)
    ensures Next(w, s).g.shuttingDown == (w.g.shuttingDown || s.Stop?)
  {
    SettingsAfter(w, s);
  }

  /** What the steps do to the settings and to the limiters. */
  lemma SettingsAfter(w: World, s: Step)
    ensures var g, g' := w.g, Next(w, s).g;
            && g'.shuttingDown == (g.shuttingDown || s.Stop?)
            && g'.rules == (if s.Reload? then s.rules else g.rules)
            && g'.connected == (if s.Connect? then s.client else if s.Lose? then false else g.connected)
            && g'.upstreamTools
               == (if s.Connect? || s.Lose? then {} else if s.List? then s.tools else g.upstreamTools)
            && g'.limiters
               == (if s.Reload? then map[]
                   else if s.Begin? then Gates(g, s.tenant, s.tool, s.now).0.limiters
                   else g.limiters)
  {
    hide Gates, BeginStep, EndStep, AllowStep, RecordStep, Recorded, Passing, LastRows, Observe, Create;
    if s.Begin? {
      BeginFrame(w.g, w.next, s.tenant, s.tool, s.now, s.writes);
      GatesFrame(w.g, s.tenant, s.tool, s.now);
    } else if s.End? && s.call in w.g.calls {
      EndFrame(w.g, s.call, s.outcome, s.now, s.writes);
    }
  }

  lemma StoppedNext(w: World, s: Step)
    requires w.g.shuttingDown
    ensures Next(w, s).g.shuttingDown && InFlight(Next(w, s).g) <= InFlight(w.g)
  {
    hide Apply, Gates, Recorded, Passing;
    FlagAfter(w, s);
    CallsAfter(w, s);
    if s.Begin? {
      GatesInOrder(w.g, s.tenant, s.tool, s.now);
    }
  }

  /** Main result: once the shutdown has begun, the set of upstream calls in flight only shrinks. */
  lemma {:induction false} ShutdownDrains(w: World, steps: seq<Step>)
    requires w.g.shuttingDown
    ensures Run(w, steps).g.shuttingDown && InFlight(Run(w, steps).g) <= InFlight(w.g)
    decreases |steps|
  {
    if steps == [] {
    } else {
      hide *;
      RunStep(w, steps);
      ShutdownDrains(w, steps[..|steps| - 1]);
      StoppedNext(Run(w, steps[..|steps| - 1]), steps[|steps| - 1]);
    }
  }

  // ----- The gates -----

  /** The gates read as conditions on the state before the call, and what a call that is turned away leaves
      untouched. */
  lemma GatesInOrder(g: Gateway, tenant: Option<Tenant>, tool: string, now: int)
    ensures var (after, ruling) := Gates(g, tenant, tool, now);
            var rules := EffectivePolicy(g.rules, tenant);
            var denied := Lists(rules.deny, tool);
            var unlisted := rules.allow.Some? && !Lists(rules.allow, tool);
            var limiter := CheckStep(GetLimiter(g.limiters, IdOf(tenant), LimitOf(rules)), now);
            var proxied := g.connected && ShouldProxy(tool, g.upstreamTools);
            && (ruling == Passed(true) <==>
                  !denied && !unlisted && limiter.1 && proxied && !g.shuttingDown && AllowStep(g.breaker, now).1)
            && (ruling == Passed(false) <==> !denied && !unlisted && limiter.1 && !proxied)
            && (ruling.Refused? && ruling.reason.Denied? <==> denied)
            && (ruling.Refused? && ruling.reason.NotInAllowlist? <==> !denied && unlisted)
            && (ruling.Refused? && ruling.reason.RateLimited? <==> !denied && !unlisted && !limiter.1)
            && (denied || unlisted ==> after == g)
            && (!limiter.1 || !proxied || g.shuttingDown ==> after.breaker == g.breaker)
            && after == g.(limiters := after.limiters, breaker := after.breaker)
  {
    hide CheckStep, AllowStep, GetLimiter, RetryStep, RetrySeconds;
  }

  // ----- The limiters of a run -----

  ghost predicate LimitersMatch(w: World) {
    w.g.limiters == RunTenants(w.passed)
  }

  lemma GatesKeepLimiters(g: Gateway, tenant: Option<Tenant>, tool: string, now: int)
    ensures var rules := EffectivePolicy(g.rules, tenant);
            Gates(g, tenant, tool, now).0.limiters
            == if EvaluatePolicy(rules, tool).Permitted? then
                 TenantCheck(g.limiters, IdOf(tenant), LimitOf(rules), now).0
               else g.limiters
  {
    hide TenantCheck, AllowStep, EvaluatePolicy, EffectivePolicy, RetryStep, RetrySeconds;
  }

  lemma RunTenantsSnoc(calls: seq<TenantCall>, call: TenantCall)
    ensures RunTenants(calls + [call]) == TenantCheck(RunTenants(calls), call.tenantId, call.limit, call.at).0
    ensures RunTenants([]) == map[]
  {
    assert (calls + [call])[..|calls|] == calls;
  }

  lemma LimitersMatchNext(w: World, s: Step)
    requires LimitersMatch(w)
    ensures LimitersMatch(Next(w, s))
  {
    hide Apply, Gates, Recorded, RunTenants, TenantCheck, EvaluatePolicy, EffectivePolicy, LimitOf;
    SettingsAfter(w, s);
    if s.Begin? {
      GatesKeepLimiters(w.g, s.tenant, s.tool, s.now);
      RunTenantsSnoc(w.passed, TenantCall(IdOf(s.tenant), LimitOf(EffectivePolicy(w.g.rules, s.tenant)), s.now));
    } else {
      RunTenantsSnoc([], TenantCall(None, 0, 0));
    }
  }

  lemma {:induction false} RunLimitersMatch(start: Start, steps: seq<Step>)
    ensures LimitersMatch(Run(Fresh(start), steps))
    decreases |steps|
  {
    if steps == [] {
    } else {
      hide *;
      RunStep(Fresh(start), steps);
      RunLimitersMatch(start, steps[..|steps| - 1]);
      LimitersMatchNext(Run(Fresh(start), steps[..|steps| - 1]), steps[|steps| - 1]);
    }
  }

  /** The times at which a tenant's calls reached its limiter since the last reload and since its limit last
      changed. */
  function TenantTimes(passed: seq<TenantCall>, tenant: Option<Tenant>, limit: int): seq<int> {
    Streak(passed, TenantKey(IdOf(tenant)), limit)
  }

  /** Main result: in every run, whatever other tenants and other requests do, a tenant is refused for its rate
      exactly when the calls that it was granted since the last reload and since its limit last changed fill
      the last sixty seconds, and no sixty seconds ever hold more of them than the limit. */
  lemma TenantLimitHolds(start: Start, steps: seq<Step>, tenant: Option<Tenant>, tool: string, now: int, from: int)
    requires var w := Run(Fresh(start), steps);
             var rules := EffectivePolicy(w.g.rules, tenant);
             var times := TenantTimes(w.passed, tenant, LimitOf(rules));
             EvaluatePolicy(rules, tool).Permitted? && LimitOf(rules) >= 0 && Ordered(times) && UpTo(times, now)
    ensures var w := Run(Fresh(start), steps);
            var limit := LimitOf(EffectivePolicy(w.g.rules, tenant));
            var granted := Admitted(limit, TenantTimes(w.passed, tenant, limit));
            var ruling := Gates(w.g, tenant, tool, now).1;
            && (ruling.Refused? && ruling.reason.RateLimited? <==>
                  CountIn(granted, now - WINDOW_MS, now) >= limit)
            && CountIn(granted, from, from + WINDOW_MS) <= limit
  {
    hide *;
    RunLimitersMatch(start, steps);
    LimitHoldsAt(Run(Fresh(start), steps), tenant, tool, now, from);
  }

  lemma LimitHoldsAt(w: World, tenant: Option<Tenant>, tool: string, now: int, from: int)
    requires LimitersMatch(w)
    requires var rules := EffectivePolicy(w.g.rules, tenant);
             var times := TenantTimes(w.passed, tenant, LimitOf(rules));
             EvaluatePolicy(rules, tool).Permitted? && LimitOf(rules) >= 0 && Ordered(times) && UpTo(times, now)
    ensures var limit := LimitOf(EffectivePolicy(w.g.rules, tenant));
            var granted := Admitted(limit, TenantTimes(w.passed, tenant, limit));
            var ruling := Gates(w.g, tenant, tool, now).1;
            && (ruling.Refused? && ruling.reason.RateLimited? <==>
                  CountIn(granted, now - WINDOW_MS, now) >= limit)
            && CountIn(granted, from, from + WINDOW_MS) <= limit
  {
    hide CheckStep, AllowStep, GetLimiter, RetryStep, RetrySeconds, RunTenants, RunLimiter, Admitted, CountIn,
         EffectivePolicy, Streak, Ordered, UpTo;
    var limit := LimitOf(EffectivePolicy(w.g.rules, tenant));
    LimiterDecides(w, tenant, limit, now);
    NoWindowExceedsLimit(limit, TenantTimes(w.passed, tenant, limit), from);
    GatesInOrder(w.g, tenant, tool, now);
  }

  /** The limiter that a tenant would get decides by the tenant's own history. */
  lemma LimiterDecides(w: World, tenant: Option<Tenant>, limit: int, now: int)
    requires LimitersMatch(w)
    requires Ordered(TenantTimes(w.passed, tenant, limit)) && UpTo(TenantTimes(w.passed, tenant, limit), now)
    ensures CheckStep(GetLimiter(w.g.limiters, IdOf(tenant), limit), now).1
       <==> CountIn(Admitted(limit, TenantTimes(w.passed, tenant, limit)), now - WINDOW_MS, now) < limit
  {
    hide CheckStep, GetLimiter, RunTenants, RunLimiter, Admitted, CountIn, Streak, Ordered, UpTo, IdOf;
    LimiterOfStreak(w.passed, IdOf(tenant), limit);
    DecidesByFullHistory(limit, TenantTimes(w.passed, tenant, limit), now);
  }
}
