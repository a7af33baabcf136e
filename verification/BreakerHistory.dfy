/** The breaker's variables against a specification that looks only at what happened. */
module BreakerHistory {
  import opened Breakers

  datatype Event = Asked | Succeeded | Failed | Observed

  datatype Timed = Timed(at: int, event: Event)

  /** The clock does not run backwards. */
  predicate Ordered(h: seq<Timed>) {
    forall i, j :: 0 <= i < j < |h| ==> h[i].at <= h[j].at
  }

  function Step(b: Breaker, e: Timed): Breaker {
    match e.event
    case Asked => AllowStep(b, e.at).0
    case Succeeded => SuccessStep(b)
    case Failed => FailureStep(b, e.at).0
    case Observed => Observe(b, e.at)
  }

  function Run(b: Breaker, h: seq<Timed>): Breaker {
    if h == [] then b else Step(Run(b, h[..|h| - 1]), h[|h| - 1])
  }

  // ----- The specification -----

  function FailuresSinceSuccess(h: seq<Timed>): nat {
    if h == [] then 0
    else
      var before := FailuresSinceSuccess(h[..|h| - 1]);
      match h[|h| - 1].event
      case Succeeded => 0
      case Failed => before + 1
      case _ => before
  }

  function LastFailure(h: seq<Timed>): int {
    if h == [] then 0
    else if h[|h| - 1].event.Failed? then h[|h| - 1].at
    else LastFailure(h[..|h| - 1])
  }

  /** Whether a call is let through at `now` after history `h`. */
  predicate Granted(threshold: nat, openMs: nat, h: seq<Timed>, now: int)
    decreases |h|, 1
  {
    || FailuresSinceSuccess(h) < threshold
    || (now - LastFailure(h) >= openMs && !GrantedSinceFailure(threshold, openMs, h))
  }

  predicate GrantedSinceFailure(threshold: nat, openMs: nat, h: seq<Timed>)
    decreases |h|, 0
  {
    if h == [] || h[|h| - 1].event.Failed? then false
    else
      var before, last := h[..|h| - 1], h[|h| - 1];
      GrantedSinceFailure(threshold, openMs, before)
      || (last.event.Asked? && Granted(threshold, openMs, before, last.at))
  }

  // ----- Refinement -----

  ghost predicate Related(b: Breaker, h: seq<Timed>) {
    var f := FailuresSinceSuccess(h);
    && b.enabled && b.failureThreshold >= 1
    && (b.state.Closed? <==> f < b.failureThreshold)
    && (b.state.Closed? ==> b.failures == f && !b.probeInFlight)
    && (!b.state.Closed? ==> b.failures >= b.failureThreshold && b.openedAt == LastFailure(h))
    && (b.state.Open? ==> !b.probeInFlight && !GrantedSinceFailure(b.failureThreshold, b.openMs, h))
    && (b.state.HalfOpen? ==>
          && (b.probeInFlight <==> GrantedSinceFailure(b.failureThreshold, b.openMs, h))
          && h != [] && h[|h| - 1].at - b.openedAt >= b.openMs)
  }

  /** How one more event extends what the specification reads off a history. */
  lemma HistorySnoc(threshold: nat, openMs: nat, h: seq<Timed>, e: Timed)
    ensures var all := h + [e];
            && FailuresSinceSuccess(all)
               == (match e.event
                   case Succeeded => 0
                   case Failed => FailuresSinceSuccess(h) + 1
                   case _ => FailuresSinceSuccess(h))
            && LastFailure(all) == (if e.event.Failed? then e.at else LastFailure(h))
            && GrantedSinceFailure(threshold, openMs, all)
               == (!e.event.Failed? && (GrantedSinceFailure(threshold, openMs, h)
                                        || (e.event.Asked? && Granted(threshold, openMs, h, e.at))))
  {
    hide Granted;
    var all := h + [e];
    assert all[..|all| - 1] == h && all[|all| - 1] == e;
  }

  lemma LastIsEarlier(h: seq<Timed>, e: Timed)
    requires Ordered(h + [e])
    ensures h != [] ==> h[|h| - 1].at <= e.at
  {
    var all := h + [e];
    assert h != [] ==> all[|h| - 1] == h[|h| - 1];
    assert all[|h|] == e;
  }

  /** What the breaker answers, and what it would make of a failure. */
  lemma RelatedAnswers(b: Breaker, h: seq<Timed>, now: int)
    requires Related(b, h) && (h != [] ==> h[|h| - 1].at <= now)
    ensures AllowStep(b, now).1 == Granted(b.failureThreshold, b.openMs, h, now)
    ensures FailureStep(b, now).1 == (FailuresSinceSuccess(h) + 1 >= b.failureThreshold)
  {
    hide FailuresSinceSuccess, LastFailure, GrantedSinceFailure;
  }

  lemma StepKeepsRelated(b: Breaker, h: seq<Timed>, e: Timed)
    requires Related(b, h) && Ordered(h + [e])
    ensures Related(Step(b, e), h + [e])
  {
    hide FailuresSinceSuccess, LastFailure, GrantedSinceFailure, Ordered;
    HistorySnoc(b.failureThreshold, b.openMs, h, e);
    LastIsEarlier(h, e);
    assert (h + [e])[|h + [e]| - 1] == e;
    RelatedAnswers(b, h, e.at);
  }

  lemma {:induction false} RunRelated(c: Config, h: seq<Timed>)
    requires Create(c).enabled && Create(c).failureThreshold >= 1 && Ordered(h)
    ensures var b := Run(Create(c), h);
            && Related(b, h)
            && b.failureThreshold == Create(c).failureThreshold && b.openMs == Create(c).openMs
    decreases |h|
  {
    if h == [] {
      FreshIsRelated(c);
    } else {
      hide Related, Step, Create;
      var before, last := h[..|h| - 1], h[|h| - 1];
      assert before + [last] == h;
      RunRelated(c, before);
      StepKeepsSettings(Run(Create(c), before), last);
      StepKeepsRelated(Run(Create(c), before), before, last);
    }
  }

  lemma FreshIsRelated(c: Config)
    requires Create(c).enabled && Create(c).failureThreshold >= 1
    ensures Related(Create(c), [])
  {
  }

  lemma StepKeepsSettings(b: Breaker, e: Timed)
    ensures Step(b, e).failureThreshold == b.failureThreshold && Step(b, e).openMs == b.openMs
  {
  }

  /** Main result: with any setting that switches it on, after any history of calls, outcomes, late outcomes and
      observations, the breaker is closed exactly when fewer failures than the threshold that was set
      followed the last success, and it lets a call through exactly when it is closed, or the pause that was
      set has passed since the last failure and no call has been let through since that failure. */
  lemma BreakerRefinesHistory(raw: RawConfig, h: seq<Timed>, now: int)
    requires SwitchedOn(raw)
    requires Ordered(h) && (h != [] ==> h[|h| - 1].at <= now)
    ensures var b := Run(Create(ResolveConfig(raw)), h);
            && (b.state.Closed? <==> FailuresSinceSuccess(h) < ThresholdOf(raw))
            && AllowStep(b, now).1 == Granted(ThresholdOf(raw), PauseOf(raw), h, now)
            && FailureStep(b, now).1 == (FailuresSinceSuccess(h) + 1 >= ThresholdOf(raw))
  {
    hide *;
    BreakerOfSetting(raw);
    RunRelated(ResolveConfig(raw), h);
    var b := Run(Create(ResolveConfig(raw)), h);
    RelatedAnswers(b, h, now);
    ClosedMeans(b, h);
  }

  lemma ClosedMeans(b: Breaker, h: seq<Timed>)
    requires Related(b, h)
    ensures b.state.Closed? <==> FailuresSinceSuccess(h) < b.failureThreshold
  {
    hide FailuresSinceSuccess, GrantedSinceFailure;
  }

  // ----- Observation transparency -----

  function Erase(h: seq<Timed>): seq<Timed> {
    if h == [] then []
    else if h[|h| - 1].event.Observed? then Erase(h[..|h| - 1])
    else Erase(h[..|h| - 1]) + [h[|h| - 1]]
  }

  lemma {:induction false} ErasedSpecification(threshold: nat, openMs: nat, h: seq<Timed>)
    ensures var e := Erase(h);
            && FailuresSinceSuccess(e) == FailuresSinceSuccess(h) && LastFailure(e) == LastFailure(h)
            && GrantedSinceFailure(threshold, openMs, e) == GrantedSinceFailure(threshold, openMs, h)
    decreases |h|
  {
    if h != [] {
      var before := h[..|h| - 1];
      ErasedSpecification(threshold, openMs, before);
      if !h[|h| - 1].event.Observed? {
        var e := Erase(h);
        assert e[..|e| - 1] == Erase(before);
      }
    }
  }

  lemma {:induction false} ErasedStaysOrdered(h: seq<Timed>)
    requires Ordered(h)
    ensures Ordered(Erase(h))
    ensures h != [] ==> forall i :: 0 <= i < |Erase(h)| ==> Erase(h)[i].at <= h[|h| - 1].at
    decreases |h|
  {
    if h != [] {
      var before := h[..|h| - 1];
      ErasedStaysOrdered(before);
      if before != [] {
        assert before[|before| - 1].at <= h[|h| - 1].at;
      }
    }
  }

  /** Main result: however many health checks, readiness probes or Retry-After computations are strewn
      over a history, every later answer is the one that the history without them gives. */
  lemma ObservationsAreInvisible(raw: RawConfig, h: seq<Timed>, now: int)
    requires Ordered(h) && (h != [] ==> h[|h| - 1].at <= now)
    ensures var b := Create(ResolveConfig(raw));
            && AllowStep(Run(b, h), now).1 == AllowStep(Run(b, Erase(h)), now).1
            && FailureStep(Run(b, h), now).1 == FailureStep(Run(b, Erase(h)), now).1
  {
    BreakerOfSetting(raw);
    if SwitchedOn(raw) {
      ErasedStaysOrdered(h);
      ErasedSpecification(ThresholdOf(raw), PauseOf(raw), h);
      BreakerRefinesHistory(raw, h, now);
      BreakerRefinesHistory(raw, Erase(h), now);
    } else {
      DisabledStays(Create(ResolveConfig(raw)), h);
      DisabledStays(Create(ResolveConfig(raw)), Erase(h));
    }
  }

  lemma {:induction false} DisabledStays(b: Breaker, h: seq<Timed>)
    requires !b.enabled
    ensures Run(b, h) == b
    decreases |h|
  {
    if h != [] {
      DisabledStays(b, h[..|h| - 1]);
    }
  }

  /** A late success closes an open breaker at once, whatever the pause. */
  lemma LateSuccessCloses(raw: RawConfig, h: seq<Timed>, t: int, now: int)
    requires SwitchedOn(raw) && Ordered(h)
    requires (h != [] ==> h[|h| - 1].at <= t) && t <= now
    ensures AllowStep(Run(Create(ResolveConfig(raw)), h + [Timed(t, Succeeded)]), now).1
  {
    BreakerOfSetting(raw);
    var all := h + [Timed(t, Succeeded)];
    assert all[..|all| - 1] == h;
  }

  // ----- Readiness -----

  /** Main result: a readiness probe is answered with 503 exactly when the circuit is switched on, the threshold
      of failures was reached after the last success and the pause since the last failure is running; else
      with 200, whoever may have a call in flight. */
  lemma ReadinessByHistory(raw: RawConfig, h: seq<Timed>, now: int)
    requires Ordered(h) && (h != [] ==> h[|h| - 1].at <= now)
    ensures ReadyStatus(Run(Create(ResolveConfig(raw)), h), now)
         == if SwitchedOn(raw) && FailuresSinceSuccess(h) >= ThresholdOf(raw) && now - LastFailure(h) < PauseOf(raw)
            then 503 else 200
  {
    hide Create, ResolveConfig, Run, Related, FailuresSinceSuccess, LastFailure;
    BreakerOfSetting(raw);
    if SwitchedOn(raw) {
      RunRelated(ResolveConfig(raw), h);
      RelatedReadiness(Run(Create(ResolveConfig(raw)), h), h, now);
    } else {
      DisabledStays(Create(ResolveConfig(raw)), h);
    }
  }

  lemma RelatedReadiness(b: Breaker, h: seq<Timed>, now: int)
    requires Related(b, h) && (h != [] ==> h[|h| - 1].at <= now)
    ensures ReadyStatus(b, now)
         == if FailuresSinceSuccess(h) >= b.failureThreshold && now - LastFailure(h) < b.openMs then 503 else 200
  {
    hide FailuresSinceSuccess, LastFailure, GrantedSinceFailure;
  }

  /** A circuit that is switched off lets every call through and never reports an opening. */
  lemma SwitchedOffIsTransparent(raw: RawConfig, h: seq<Timed>, now: int)
    requires !SwitchedOn(raw)
    ensures var b := Run(Create(ResolveConfig(raw)), h);
            AllowStep(b, now) == (b, true) && FailureStep(b, now) == (b, false) && RetrySeconds(b, now) == 1
  {
    hide Create, ResolveConfig, Run;
    BreakerOfSetting(raw);
    DisabledStays(Create(ResolveConfig(raw)), h);
  }

  /** Main result: the announced seconds of an open circuit are the least whole number after which the pause since
      the last failure is over; without a running pause they are one. */
  lemma RetryByHistory(raw: RawConfig, h: seq<Timed>, now: int)
    requires SwitchedOn(raw) && Ordered(h) && (h != [] ==> h[|h| - 1].at <= now)
    ensures var n := RetrySeconds(Run(Create(ResolveConfig(raw)), h), now);
            var left := LastFailure(h) + PauseOf(raw) - now;
            if FailuresSinceSuccess(h) >= ThresholdOf(raw) && left > 0 then 1000 * (n - 1) < left <= 1000 * n
            else n == 1
  {
    hide Create, ResolveConfig, Run, Related, FailuresSinceSuccess, LastFailure;
    BreakerOfSetting(raw);
    RunRelated(ResolveConfig(raw), h);
    RelatedRetry(Run(Create(ResolveConfig(raw)), h), h, now);
  }

  lemma RelatedRetry(b: Breaker, h: seq<Timed>, now: int)
    requires Related(b, h) && (h != [] ==> h[|h| - 1].at <= now)
    ensures var n := RetrySeconds(b, now);
            var left := LastFailure(h) + b.openMs - now;
            if FailuresSinceSuccess(h) >= b.failureThreshold && left > 0 then 1000 * (n - 1) < left <= 1000 * n
            else n == 1
  {
    hide FailuresSinceSuccess, LastFailure, GrantedSinceFailure;
  }
}
