/** Which calls of a run reach the upstream, told by what happened before them. */
module ToolCallAdmission {
  import opened Wrappers
  import opened Breakers
  import opened RateLimit
  import opened ToolCalls
  import opened ToolCallRuns
  import opened ToolCallBreaker
  import History = BreakerHistory

  // ----- The story of a run -----

  /** The policy of the last reload, or of the start. */
  function RulesInForce(start: Start, steps: seq<Step>): Rules {
    if steps == [] then start.rules
    else if steps[|steps| - 1].Reload? then steps[|steps| - 1].rules
    else RulesInForce(start, steps[..|steps| - 1])
  }

  /** Whether there is an upstream, and the tools that it has listed. */
  function Link(steps: seq<Step>): (bool, set<string>) {
    if steps == [] then (false, {})
    else
      var before := steps[..|steps| - 1];
      match steps[|steps| - 1]
      case Connect(_, client) => (client, {})
      case List(tools) => (Link(before).0, tools)
      case Lose => (false, {})
      case _ => Link(before)
  }

  /** How many calls have begun; the next one has this number. */
  function Begun(steps: seq<Step>): nat {
    if steps == [] then 0 else Begun(steps[..|steps| - 1]) + if steps[|steps| - 1].Begin? then 1 else 0
  }

  /** The deny list in force: the tenant's own one, or else the global one. */
  predicate Denies(global: Rules, tenant: Option<Tenant>, tool: string) {
    Lists(if tenant.Some? && tenant.value.own.deny.Some? then tenant.value.own.deny else global.deny, tool)
  }

  /** The deny list comes before the allow list, and without an allow list every other tool is allowed. */
  predicate Allows(global: Rules, tenant: Option<Tenant>, tool: string) {
    var list := if tenant.Some? && tenant.value.own.allow.Some? then tenant.value.own.allow else global.allow;
    !Denies(global, tenant, tool) && (list.None? || tool in list.value)
  }

  function LimitFor(global: Rules, tenant: Option<Tenant>): int {
    if tenant.Some? && tenant.value.own.rateLimitPerMinute.Some? then tenant.value.own.rateLimitPerMinute.value
    else if global.rateLimitPerMinute.Some? then global.rateLimitPerMinute.value
    else 60
  }

  /** The tenant's id, if it has one. */
  function NameOf(tenant: Option<Tenant>): Option<string> {
    match tenant
    case None => None
    case Some(t) => if t.id != "" then Some(t.id) else None
  }

  /** Tenants without an id share one limiter with calls that have no tenant. */
  function KeyOf(tenant: Option<Tenant>): string {
    if NameOf(tenant).Some? then NameOf(tenant).value else "_global"
  }

  /** The calls that the policy let pass since the last reload. */
  function PassedBy(start: Start, steps: seq<Step>): seq<TenantCall> {
    if steps == [] then []
    else
      var before, last := steps[..|steps| - 1], steps[|steps| - 1];
      var rules := RulesInForce(start, before);
      if last.Reload? then []
      else if last.Begin? && Allows(rules, last.tenant, last.tool) then
        PassedBy(start, before) + [TenantCall(NameOf(last.tenant), LimitFor(rules, last.tenant), last.now)]
      else PassedBy(start, before)
  }

  /** The times at which calls were granted to the tenant since its limit last changed. */
  function GrantedTo(start: Start, before: seq<Step>, tenant: Option<Tenant>): seq<int> {
    var limit := LimitFor(RulesInForce(start, before), tenant);
    Admitted(limit, Streak(PassedBy(start, before), KeyOf(tenant), limit))
  }

  /** In the last sixty seconds, both ends included, they leave room for one more. */
  predicate HasRoom(start: Start, before: seq<Step>, tenant: Option<Tenant>, now: int) {
    CountIn(GrantedTo(start, before, tenant), now - 60_000, now) < LimitFor(RulesInForce(start, before), tenant)
  }

  /** An upstream is connected, and it listed the tool last, or it listed other tools and the server has no such
      tool of its own. */
  predicate GoesUpstream(before: seq<Step>, tool: string) {
    var (connected, listed) := Link(before);
    && connected
    && (tool in listed
        || (listed != {} && tool != "echo" && tool != "digest" && tool != "listPets" && tool != "getPet"))
  }

  predicate AsksAfter(start: Start, before: seq<Step>, tenant: Option<Tenant>, tool: string, now: int) {
    && Allows(RulesInForce(start, before), tenant, tool) && HasRoom(start, before, tenant, now)
    && GoesUpstream(before, tool) && Stop !in before
  }

  /** What has happened to the circuit since the last reconnection. */
  function Story(start: Start, steps: seq<Step>): Tale
    decreases |steps|, 1
  {
    if steps == [] then Tale(start.upstream, [])
    else
      var before, last := steps[..|steps| - 1], steps[|steps| - 1];
      if last.Connect? then Tale(last.upstream, [])
      else
        var tale := Story(start, before);
        tale.(events := tale.events + Told(start, before, last))
  }

  /** What a step is to the circuit: a question, an answer of a call in flight, a look, or nothing. */
  function Told(start: Start, before: seq<Step>, s: Step): seq<History.Timed>
    decreases |before|, 2
  {
    match s
    case Begin(tenant, tool, now, _) =>
      if AsksAfter(start, before, tenant, tool, now) then [History.Timed(now, History.Asked)] else []
    case End(call, outcome, now, _) =>
      var open := CallsOpen(start, before);
      if call !in open || !open[call].proxied then []
      else if outcome == Returned(false) then [History.Timed(now, History.Succeeded)]
      else [History.Timed(now, History.Failed)]
    case Look(now) => [History.Timed(now, History.Observed)]
    case _ => []
  }

  /** The calls that were let through and have not ended. */
  function CallsOpen(start: Start, steps: seq<Step>): map<nat, Call>
    decreases |steps|, 1
  {
    if steps == [] then map[]
    else
      var before := steps[..|steps| - 1];
      match steps[|steps| - 1]
      case Begin(tenant, tool, now, _) =>
        if Passes(start, before, tenant, tool, now) then
          CallsOpen(start, before)[Begun(before) := Call(NameOf(tenant), tool, GoesUpstream(before, tool))]
        else CallsOpen(start, before)
      case End(call, _, _, _) => CallsOpen(start, before) - {call}
      case _ => CallsOpen(start, before)
  }

  /** The circuit breaker is switched off, or the circuit's history lets a call through. */
  predicate CircuitLets(start: Start, before: seq<Step>, now: int)
    decreases |before|, 3
  {
    var tale := Story(start, before);
    SwitchedOn(tale.upstream)
    ==> History.Granted(ThresholdOf(tale.upstream), PauseOf(tale.upstream), tale.events, now)
  }

  /** What the steps before a call must say for its tool to be called, by the upstream or by the server itself. */
  predicate Passes(start: Start, before: seq<Step>, tenant: Option<Tenant>, tool: string, now: int)
    decreases |before|, 4
  {
    && Allows(RulesInForce(start, before), tenant, tool) && HasRoom(start, before, tenant, now)
    && (GoesUpstream(before, tool) ==> Stop !in before && CircuitLets(start, before, now))
  }

  /** What they must say for it to be sent to the upstream. */
  predicate MayPass(start: Start, before: seq<Step>, tenant: Option<Tenant>, tool: string, now: int) {
    GoesUpstream(before, tool) && Passes(start, before, tenant, tool, now)
  }

  // ----- The state tells the same story -----

  lemma PolicyAgrees(global: Rules, tenant: Option<Tenant>, tool: string)
    ensures EvaluatePolicy(EffectivePolicy(global, tenant), tool)
         == if Denies(global, tenant, tool) then Denied
            else if Allows(global, tenant, tool) then Permitted else NotInAllowlist
    ensures Allows(global, tenant, tool) ==> !Denies(global, tenant, tool)
    ensures LimitOf(EffectivePolicy(global, tenant)) == LimitFor(global, tenant)
    ensures IdOf(tenant) == NameOf(tenant) && TenantKey(IdOf(tenant)) == KeyOf(tenant)
  {
  }

  ghost predicate Follows(w: World, start: Start, steps: seq<Step>) {
    && w.g.rules == RulesInForce(start, steps)
    && (w.g.connected, w.g.upstreamTools) == Link(steps)
    && w.g.shuttingDown == (Stop in steps)
    && w.passed == PassedBy(start, steps)
    && w.next == Begun(steps)
  }

  lemma FollowsNext(w: World, start: Start, steps: seq<Step>)
    requires steps != [] && Follows(w, start, steps[..|steps| - 1])
    ensures Follows(Next(w, steps[|steps| - 1]), start, steps)
  {
    hide Apply, Allows, LimitFor, EvaluatePolicy, EffectivePolicy, LimitOf, Recorded, EntersUpstream, IdOf, NameOf;
    var before, s := steps[..|steps| - 1], steps[|steps| - 1];
    assert steps == before + [s];
    SettingsAfter(w, s);
    if s.Begin? {
      PolicyAgrees(w.g.rules, s.tenant, s.tool);
    }
  }

  lemma {:induction false} RunFollows(start: Start, steps: seq<Step>)
    ensures Follows(Run(Fresh(start), steps), start, steps)
    decreases |steps|
  {
    if steps == [] {
    } else {
      hide Follows, Next;
      RunFollows(start, steps[..|steps| - 1]);
      FollowsNext(Run(Fresh(start), steps[..|steps| - 1]), start, steps);
    }
  }

  // ----- Time -----

  function Moment(s: Step): Option<int> {
    match s
    case Begin(_, _, now, _) => Some(now)
    case End(_, _, now, _) => Some(now)
    case Look(now) => Some(now)
    case AuditOther(_, now, _) => Some(now)
    case _ => None
  }

  ghost predicate NoLater(steps: seq<Step>, now: int) {
    forall i :: 0 <= i < |steps| && Moment(steps[i]).Some? ==> Moment(steps[i]).value <= now
  }

  /** The clock does not run backwards. */
  ghost predicate InTime(steps: seq<Step>) {
    forall i :: 0 <= i < |steps| && Moment(steps[i]).Some? ==> NoLater(steps[..i], Moment(steps[i]).value)
  }

  lemma InTimeBefore(steps: seq<Step>, k: nat)
    requires InTime(steps) && k < |steps|
    ensures InTime(steps[..k])
    ensures Moment(steps[k]).Some? ==> NoLater(steps[..k], Moment(steps[k]).value)
  {
    hide NoLater;
    forall i | 0 <= i < k && Moment(steps[i]).Some? ensures NoLater(steps[..k][..i], Moment(steps[i]).value) {
      assert steps[..k][..i] == steps[..i];
    }
  }

  lemma NoLaterBefore(steps: seq<Step>, now: int)
    requires steps != [] && NoLater(steps, now)
    ensures NoLater(steps[..|steps| - 1], now)
    ensures Moment(steps[|steps| - 1]).Some? ==> Moment(steps[|steps| - 1]).value <= now
  {
  }

  lemma OrderedSnoc(times: seq<int>, t: int, now: int)
    requires Ordered(times) && UpTo(times, t) && t <= now
    ensures Ordered(times + [t]) && UpTo(times + [t], now) && UpTo(times, now)
  {
  }

  lemma {:induction false} PassedInTime(start: Start, steps: seq<Step>, id: string, limit: int, now: int)
    requires InTime(steps) && NoLater(steps, now)
    ensures var times := Streak(PassedBy(start, steps), id, limit); Ordered(times) && UpTo(times, now)
    decreases |steps|
  {
    hide InTime, NoLater, Ordered, UpTo, Streak, Allows, LimitFor, RulesInForce;
    StreakSnoc([], TenantCall(None, 0, 0), id, limit);
    NoTimes(now);
    if steps != [] {
      var before, s := steps[..|steps| - 1], steps[|steps| - 1];
      InTimeBefore(steps, |steps| - 1);
      NoLaterBefore(steps, now);
      PassedInTime(start, before, id, limit, now);
      if s.Begin? {
        PassedInTime(start, before, id, limit, s.now);
        var rules := RulesInForce(start, before);
        StreakSnoc(PassedBy(start, before), TenantCall(NameOf(s.tenant), LimitFor(rules, s.tenant), s.now), id, limit);
        OrderedSnoc(Streak(PassedBy(start, before), id, limit), s.now, now);
      }
    }
  }

  lemma NoTimes(now: int)
    ensures Ordered([]) && UpTo([], now)
  {
  }

  ghost predicate EventsInTime(events: seq<History.Timed>, now: int) {
    History.Ordered(events) && forall i :: 0 <= i < |events| ==> events[i].at <= now
  }

  lemma EventsSnoc(events: seq<History.Timed>, e: History.Timed, now: int)
    requires EventsInTime(events, e.at) && e.at <= now
    ensures EventsInTime(events + [e], now)
  {
  }

  lemma EventTime(g: Gateway, s: Step)
    ensures |EventOf(g, s)| <= 1 && (EventOf(g, s) != [] ==> Moment(s) == Some(EventOf(g, s)[0].at))
  {
    hide Asks;
  }

  lemma {:induction false} TaleInTime(start: Start, steps: seq<Step>, now: int)
    requires InTime(steps) && NoLater(steps, now)
    ensures EventsInTime(TaleOf(start, steps).events, now)
    decreases |steps|
  {
    hide InTime, NoLater, EventsInTime, EventOf, Run, TaleOf;
    if steps == [] {
      FreshBreaker(start);
      NoEvents(now);
    } else {
      var before, s := steps[..|steps| - 1], steps[|steps| - 1];
      var g := Run(Fresh(start), before).g;
      InTimeBefore(steps, |steps| - 1);
      NoLaterBefore(steps, now);
      TaleInTime(start, before, now);
      TaleStep(start, steps);
      EventTime(g, s);
      NoEvents(now);
      var events := TaleOf(start, before).events;
      if EventOf(g, s) == [] {
        assert events + [] == events;
      } else {
        var e := EventOf(g, s)[0];
        TaleInTime(start, before, e.at);
        EventsSnoc(events, e, now);
        assert EventOf(g, s) == [e];
      }
    }
  }

  lemma NoEvents(now: int)
    ensures EventsInTime([], now)
  {
  }

  // ----- One step told -----

  lemma CircuitDecides(start: Start, before: seq<Step>, now: int)
    requires EventsInTime(TaleOf(start, before).events, now) && TaleOf(start, before) == Story(start, before)
    ensures AllowStep(Run(Fresh(start), before).g.breaker, now).1 == CircuitLets(start, before, now)
  {
    hide Run, TaleOf, Story, AllowStep, History.Granted, History.Run, History.Ordered, ResolveConfig, SwitchedOn,
         ThresholdOf, PauseOf;
    var tale := TaleOf(start, before);
    BreakerFollowsTale(start, before);
    if SwitchedOn(tale.upstream) {
      History.BreakerRefinesHistory(tale.upstream, tale.events, now);
    } else {
      DisabledAllows(tale.upstream, tale.events, now);
    }
  }

  lemma DisabledAllows(upstream: RawConfig, events: seq<History.Timed>, now: int)
    requires !SwitchedOn(upstream)
    ensures AllowStep(History.Run(Create(ResolveConfig(upstream)), events), now).1
  {
    hide ResolveConfig, Create, History.Run;
    BreakerOfSetting(upstream);
    History.DisabledStays(Create(ResolveConfig(upstream)), events);
  }

  /** The parts of the gates in the state of a run and in the steps of that run. */
  lemma PartsTold(start: Start, before: seq<Step>, tenant: Option<Tenant>, tool: string, now: int)
    requires InTime(before) && NoLater(before, now) && TaleOf(start, before) == Story(start, before)
    ensures var g := Run(Fresh(start), before).g;
            var rules, stated := EffectivePolicy(g.rules, tenant), RulesInForce(start, before);
            && EvaluatePolicy(rules, tool) == (if Denies(stated, tenant, tool) then Denied
                                               else if Allows(stated, tenant, tool) then Permitted
                                               else NotInAllowlist)
            && (Allows(stated, tenant, tool) ==> !Denies(stated, tenant, tool))
            && CheckStep(GetLimiter(g.limiters, IdOf(tenant), LimitOf(rules)), now).1
               == HasRoom(start, before, tenant, now)
            && (g.connected && ShouldProxy(tool, g.upstreamTools)) == GoesUpstream(before, tool)
            && g.shuttingDown == (Stop in before)
            && AllowStep(g.breaker, now).1 == CircuitLets(start, before, now)
  {
    hide Run, Fresh, TaleOf, Story, PassedBy, Link, RulesInForce, InTime, NoLater, EventsInTime, Admitted, CountIn,
         AllowStep, CheckStep, GetLimiter, Ordered, UpTo, Streak, EffectivePolicy, EvaluatePolicy, LimitFor, LimitOf,
         Allows, Denies, CircuitLets, LimitersMatch, IdOf, NameOf, KeyOf, TenantKey;
    var w := Run(Fresh(start), before);
    var limit := LimitFor(RulesInForce(start, before), tenant);
    RunFollows(start, before);
    RunLimitersMatch(start, before);
    PassedInTime(start, before, TenantKey(IdOf(tenant)), limit, now);
    TaleInTime(start, before, now);
    LimiterDecides(w, tenant, limit, now);
    CircuitDecides(start, before, now);
    PolicyAgrees(w.g.rules, tenant, tool);
  }

  lemma GatesTold(start: Start, before: seq<Step>, tenant: Option<Tenant>, tool: string, now: int)
    requires InTime(before) && NoLater(before, now) && TaleOf(start, before) == Story(start, before)
    ensures var (g, ruling) := (Run(Fresh(start), before).g, Gates(Run(Fresh(start), before).g, tenant, tool, now).1);
            && Asks(g, tenant, tool, now) == AsksAfter(start, before, tenant, tool, now)
            && (ruling.Passed? <==> Passes(start, before, tenant, tool, now))
            && (ruling == Passed(true) <==> MayPass(start, before, tenant, tool, now))
  {
    hide Run, Fresh, Gates, HasRoom, GoesUpstream, CircuitLets, RulesInForce, InTime, NoLater, TaleOf, Story,
         AllowStep, CheckStep, GetLimiter, EffectivePolicy, EvaluatePolicy, Allows, Denies;
    PartsTold(start, before, tenant, tool, now);
    GatesByParts(Run(Fresh(start), before).g, tenant, tool, now);
  }

  lemma GatesByParts(g: Gateway, tenant: Option<Tenant>, tool: string, now: int)
    ensures var rules, ruling := EffectivePolicy(g.rules, tenant), Gates(g, tenant, tool, now).1;
            var room := CheckStep(GetLimiter(g.limiters, IdOf(tenant), LimitOf(rules)), now).1;
            var verdict := EvaluatePolicy(rules, tool);
            var proxied := g.connected && ShouldProxy(tool, g.upstreamTools);
            && Asks(g, tenant, tool, now) == (verdict.Permitted? && room && proxied && !g.shuttingDown)
            && (ruling == Passed(true) <==> Asks(g, tenant, tool, now) && AllowStep(g.breaker, now).1)
            && (ruling == Passed(false) <==> verdict.Permitted? && room && !proxied)
            && (ruling.Stopping? <==> verdict.Permitted? && room && proxied && g.shuttingDown)
            && (ruling.Refused? ==>
                  ruling.reason == if !verdict.Permitted? then verdict else if !room then RateLimited else CircuitOpen)
  {
    hide CheckStep, AllowStep, GetLimiter, RetryStep, RetrySeconds, EffectivePolicy, EvaluatePolicy;
  }

  // ----- The whole run told -----

  lemma StoryStep(start: Start, steps: seq<Step>)
    requires steps != []
    ensures var before, last := steps[..|steps| - 1], steps[|steps| - 1];
            Story(start, steps) ==
            if last.Connect? then Tale(last.upstream, [])
            else
              var tale := Story(start, before);
              tale.(events := tale.events + Told(start, before, last))
  {
    hide Told;
  }

  lemma OpenStep(start: Start, steps: seq<Step>)
    requires steps != []
    ensures var before, s := steps[..|steps| - 1], steps[|steps| - 1];
            CallsOpen(start, steps) ==
            if s.Begin? && Passes(start, before, s.tenant, s.tool, s.now) then
              CallsOpen(start, before)[Begun(before) := Call(NameOf(s.tenant), s.tool, GoesUpstream(before, s.tool))]
            else if s.End? then CallsOpen(start, before) - {s.call}
            else CallsOpen(start, before)
  {
    hide Passes, GoesUpstream, Begun;
  }

  /** The state and the steps say the same of the circuit and of the calls in flight. */
  ghost predicate ToldAlike(start: Start, steps: seq<Step>) {
    TaleOf(start, steps) == Story(start, steps) && Run(Fresh(start), steps).g.calls == CallsOpen(start, steps)
  }

  lemma NothingTold(start: Start)
    ensures ToldAlike(start, [])
  {
  }

  lemma EventTold(start: Start, before: seq<Step>, s: Step)
    requires InTime(before) && (Moment(s).Some? ==> NoLater(before, Moment(s).value)) && ToldAlike(start, before)
    ensures EventOf(Run(Fresh(start), before).g, s) == Told(start, before, s)
  {
    hide Run, Fresh, InTime, NoLater, Asks, AsksAfter, CallsOpen, TaleOf, Story, Gates, Passes, MayPass;
    if s.Begin? {
      GatesTold(start, before, s.tenant, s.tool, s.now);
    }
  }

  lemma CallsTold(start: Start, steps: seq<Step>)
    requires steps != [] && InTime(steps[..|steps| - 1]) && ToldAlike(start, steps[..|steps| - 1])
    requires var s := steps[|steps| - 1]; Moment(s).Some? ==> NoLater(steps[..|steps| - 1], Moment(s).value)
    ensures Run(Fresh(start), steps).g.calls == CallsOpen(start, steps)
  {
    hide Next, Fresh, Run, InTime, NoLater, Asks, AsksAfter, CallsOpen, TaleOf, Story, Gates, Passes, GoesUpstream,
         RulesInForce, PassedBy, Link, Begun, IdOf, NameOf;
    var before, s := steps[..|steps| - 1], steps[|steps| - 1];
    var w := Run(Fresh(start), before);
    ToolCallRuns.RunStep(Fresh(start), steps);
    OpenStep(start, steps);
    CallsAfter(w, s);
    if s.Begin? {
      RunFollows(start, before);
      PolicyAgrees(w.g.rules, s.tenant, s.tool);
      GatesTold(start, before, s.tenant, s.tool, s.now);
    } else if s.End? && s.call !in w.g.calls {
      assert CallsOpen(start, before) - {s.call} == CallsOpen(start, before);
    }
  }

  /** In every run the circuit's events, and the calls in flight with their tenants and tools, are those that the
      steps tell. */
  lemma {:induction false} RunTold(start: Start, steps: seq<Step>)
    requires InTime(steps)
    ensures ToldAlike(start, steps)
    decreases |steps|
  {
    if steps == [] {
      NothingTold(start);
    } else {
      hide InTime, NoLater, TaleOf, Story, Run, Fresh, CallsOpen, EventOf, Told;
      var before, s := steps[..|steps| - 1], steps[|steps| - 1];
      InTimeBefore(steps, |steps| - 1);
      RunTold(start, before);
      EventTold(start, before, s);
      TaleStep(start, steps);
      StoryStep(start, steps);
      CallsTold(start, steps);
    }
  }

  // ----- The theorem -----

  /** Step `k` begins call `c`, and the steps before it let it pass. */
  ghost predicate LetThrough(start: Start, steps: seq<Step>, k: int, c: nat) {
    && 0 <= k < |steps| && steps[k].Begin? && Begun(steps[..k]) == c
    && MayPass(start, steps[..k], steps[k].tenant, steps[k].tool, steps[k].now)
  }

  lemma LetThroughPrefix(start: Start, steps: seq<Step>, k: int, c: nat)
    requires steps != [] && k < |steps| - 1
    ensures LetThrough(start, steps[..|steps| - 1], k, c) == LetThrough(start, steps, k, c)
  {
    hide MayPass, Begun;
    if 0 <= k {
      assert steps[..|steps| - 1][..k] == steps[..k];
    }
  }

  lemma EntersByHistory(start: Start, steps: seq<Step>)
    requires steps != [] && InTime(steps)
    ensures var last := |steps| - 1;
            var w := Run(Fresh(start), steps[..last]);
            EntersUpstream(w.g, steps[last]) <==> LetThrough(start, steps, last, w.next)
  {
    hide Run, Fresh, Gates, MayPass, InTime, NoLater, RulesInForce, Link, PassedBy, Begun;
    var last := |steps| - 1;
    InTimeBefore(steps, last);
    RunFollows(start, steps[..last]);
    if steps[last].Begin? {
      RunTold(start, steps[..last]);
      GatesTold(start, steps[..last], steps[last].tenant, steps[last].tool, steps[last].now);
    }
  }

  lemma AdmittedNext(w: World, s: Step)
    ensures Next(w, s).admitted == if EntersUpstream(w.g, s) then w.admitted + {w.next} else w.admitted
  {
    hide Apply, EntersUpstream, Recorded, Passing;
  }

  /** Main result: in every run the calls that reach the upstream are exactly those that began when the policy in
      force allowed the tool, the calls granted to the tenant in the closed last sixty seconds were fewer than
      its limit, a connected upstream was to answer for the tool, no shutdown had begun, and the circuit's
      history let a call through. All five are told by the steps before the call. */
  lemma {:induction false} AdmittedByHistory(start: Start, steps: seq<Step>, c: nat)
    requires InTime(steps)
    ensures c in Run(Fresh(start), steps).admitted <==> exists k :: LetThrough(start, steps, k, c)
    decreases |steps|
  {
    hide Next, Fresh, LetThrough, InTime, EntersUpstream;
    if steps == [] {
      NobodyAdmitted(start, c);
    } else {
      var last := |steps| - 1;
      var before := steps[..last];
      var w := Run(Fresh(start), before);
      InTimeBefore(steps, last);
      AdmittedByHistory(start, before, c);
      EntersByHistory(start, steps);
      AdmittedNext(w, steps[last]);
      LastNumber(start, steps, c);
      forall k ensures LetThrough(start, steps, k, c) <==>
          (k < last && LetThrough(start, before, k, c)) || (k == last && LetThrough(start, steps, last, c))
      {
        LetThroughRange(start, steps, k, c);
        if k < last {
          LetThroughPrefix(start, steps, k, c);
        }
      }
      LetThroughBound(start, before, c);
      if exists k :: LetThrough(start, before, k, c) {
        var k :| LetThrough(start, before, k, c);
        assert LetThrough(start, steps, k, c);
      }
    }
  }

  lemma NobodyAdmitted(start: Start, c: nat)
    ensures c !in Run(Fresh(start), []).admitted && forall k :: !LetThrough(start, [], k, c)
  {
    hide MayPass;
  }

  lemma LetThroughRange(start: Start, steps: seq<Step>, k: int, c: nat)
    ensures LetThrough(start, steps, k, c) ==> 0 <= k < |steps|
  {
    hide MayPass;
  }

  lemma LetThroughBound(start: Start, steps: seq<Step>, c: nat)
    ensures forall k :: LetThrough(start, steps, k, c) ==> 0 <= k < |steps|
  {
    hide MayPass;
  }

  /** Only the call with the next number can be let through by the last step. */
  lemma LastNumber(start: Start, steps: seq<Step>, c: nat)
    requires steps != []
    ensures LetThrough(start, steps, |steps| - 1, c) ==> c == Run(Fresh(start), steps[..|steps| - 1]).next
  {
    hide MayPass, RulesInForce, Link, PassedBy, Run, Fresh;
    RunFollows(start, steps[..|steps| - 1]);
  }
}
