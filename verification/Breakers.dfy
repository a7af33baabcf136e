/** The upstream circuit breaker of `bets/b-mcp-gateway/src/breaker.js`. */
module Breakers {
  import opened Wrappers
  import opened Numbers

  const DEFAULT_FAILURE_THRESHOLD: nat := 3
  const DEFAULT_OPEN_MS: nat := 2000

  // ----- Configuration -----

  /** A setting that is a finite number, or a text that reads as one; anything else is `None`, and so is a
      text that reads as zero but is not written `0`. */
  type Setting = Option<real>

  function PositiveInt(v: Setting, fallback: nat): nat {
    if v.Some? && v.value > 0.0 then v.value.Floor else fallback
  }

  /** The `upstream.breaker` setting: left out or `false`, or an object. */
  datatype RawConfig = Omitted | Given(disabled: bool, failureThreshold: Setting, openMs: Setting)

  datatype Config = Config(enabled: bool, failureThreshold: nat, openMs: nat)

  function ResolveConfig(raw: RawConfig): Config {
    match raw
    case Omitted => Config(false, DEFAULT_FAILURE_THRESHOLD, DEFAULT_OPEN_MS)
    case Given(disabled, failureThreshold, openMs) =>
      var threshold := PositiveInt(failureThreshold, DEFAULT_FAILURE_THRESHOLD);
      var open := PositiveInt(openMs, DEFAULT_OPEN_MS);
      if disabled then Config(false, threshold, open)
      else if failureThreshold == Some(0.0) then Config(false, DEFAULT_FAILURE_THRESHOLD, open)
      else Config(true, threshold, open)
  }

  /** The settings that a breaker works with: creation reads the resolved numbers once more. */
  function Effective(c: Config): Config {
    Config(c.enabled,
           PositiveInt(Some(c.failureThreshold as real), DEFAULT_FAILURE_THRESHOLD),
           PositiveInt(Some(c.openMs as real), DEFAULT_OPEN_MS))
  }

  // What an operator who writes the setting gets.

  predicate SwitchedOn(raw: RawConfig) {
    raw.Given? && !raw.disabled && raw.failureThreshold != Some(0.0)
  }

  /** Numbers from one up count, rounded down; everything else, fractions below one included, means 3. */
  function ThresholdOf(raw: RawConfig): (n: nat)
    ensures n >= 1
  {
    if raw.Given? && raw.failureThreshold.Some? && raw.failureThreshold.value >= 1.0 then
      raw.failureThreshold.value.Floor
    else 3
  }

  /** Likewise in milliseconds, and everything else means two seconds. */
  function PauseOf(raw: RawConfig): (ms: nat)
    ensures ms >= 1
  {
    if raw.Given? && raw.openMs.Some? && raw.openMs.value >= 1.0 then raw.openMs.value.Floor else 2000
  }

  /** A new breaker works with the numbers of the setting, although they are resolved twice. */
  lemma BreakerOfSetting(raw: RawConfig)
    ensures var b := Create(ResolveConfig(raw));
            && b.enabled == SwitchedOn(raw)
            && (b.enabled ==> b.failureThreshold == ThresholdOf(raw) && b.openMs == PauseOf(raw))
            && b.state.Closed? && b.failures == 0 && !b.probeInFlight
  {
    var c := ResolveConfig(raw);
    assert (c.failureThreshold as real).Floor == c.failureThreshold && (c.openMs as real).Floor == c.openMs;
  }

  // ----- The machine -----

  datatype State = Closed | Open | HalfOpen

  datatype Breaker = Breaker(
    enabled: bool, failureThreshold: nat, openMs: nat,
    state: State, failures: nat, openedAt: int, probeInFlight: bool)

  function Create(c: Config): Breaker {
    var e := Effective(c);
    Breaker(e.enabled, e.failureThreshold, e.openMs, Closed, 0, 0, false)
  }

  function HalfOpenIfDue(b: Breaker, now: int): Breaker {
    if b.state.Open? && now - b.openedAt >= b.openMs then b.(state := HalfOpen, probeInFlight := false) else b
  }

  function AllowStep(b: Breaker, now: int): (Breaker, bool) {
    if !b.enabled then (b, true)
    else
      var d := HalfOpenIfDue(b, now);
      match d.state
      case Closed => (d, true)
      case Open => (d, false)
      case HalfOpen => (d.(probeInFlight := true), !d.probeInFlight)
  }

  function SuccessStep(b: Breaker): Breaker {
    if b.enabled then b.(state := Closed, failures := 0, openedAt := 0, probeInFlight := false) else b
  }

  /** The flag says whether this failure opened the circuit. */
  function FailureStep(b: Breaker, now: int): (Breaker, bool) {
    if !b.enabled then (b, false)
    else
      var failures := if b.state.HalfOpen? then b.failures else b.failures + 1;
      var opens := b.state.HalfOpen? || failures >= b.failureThreshold;
      (b.(failures := failures, probeInFlight := false,
          state := if opens then Open else b.state, openedAt := if opens then now else b.openedAt),
       opens)
  }

  /** The state change of `snapshot`, `healthSnapshot`, `readyPayload` and `retryAfterSeconds`. */
  function Observe(b: Breaker, now: int): Breaker {
    if b.enabled then HalfOpenIfDue(b, now) else b
  }

  function RetrySeconds(b: Breaker, now: int): (n: int)
    ensures n >= 1
  {
    var d := Observe(b, now);
    if d.enabled && d.state.Open? then
      var seconds := CeilDiv(d.openedAt + d.openMs - now, 1000);
      if seconds < 1 then 1 else seconds
    else 1
  }

  function ReadyStatus(b: Breaker, now: int): int {
    if b.enabled && Observe(b, now).state.Open? then 503 else 200
  }

  /** A client that waits for the announced seconds, nothing else happening, is let through, and any
      smaller whole number of seconds would have been too few. */
  lemma RetryAfterIsExact(b: Breaker, now: int, later: nat)
    requires b.enabled && Observe(b, now).state.Open?
    ensures var n := RetrySeconds(b, now);
            AllowStep(Observe(b, now), now + 1000 * later).1 <==> later >= n
  {
    var n, left := RetrySeconds(b, now), b.openedAt + b.openMs - now;
    assert left > 0;
    assert 1000 * (n - 1) < left <= 1000 * n;
  }

  /** The closure of the source: four variables that every operation may change. */
  class CircuitBreaker {
    const enabled: bool
    const failureThreshold: nat
    const openMs: nat
    var state: State
    var failures: nat
    var openedAt: int
    var probeInFlight: bool

    ghost function Model(): Breaker
      reads this
    {
      Breaker(enabled, failureThreshold, openMs, state, failures, openedAt, probeInFlight)
    }

    constructor (c: Config)
      ensures Model() == Create(c)
    {
      enabled := c.enabled;
      failureThreshold := PositiveInt(Some(c.failureThreshold as real), DEFAULT_FAILURE_THRESHOLD);
      openMs := PositiveInt(Some(c.openMs as real), DEFAULT_OPEN_MS);
      state, failures, openedAt, probeInFlight := Closed, 0, 0, false;
    }

    method TransitionToHalfOpenIfDue(now: int)
      modifies this`state, this`probeInFlight
      ensures Model() == HalfOpenIfDue(old(Model()), now)
    {
      if state == Open && now - openedAt >= openMs {
        state := HalfOpen;
        probeInFlight := false;
      }
    }

    method Allow(now: int) returns (granted: bool)
      modifies this
      ensures (Model(), granted) == AllowStep(old(Model()), now)
    {
      if !enabled {
        return true;
      }
      TransitionToHalfOpenIfDue(now);
      if state == Open {
        return false;
      }
      if state == HalfOpen {
        if probeInFlight {
          return false;
        }
        probeInFlight := true;
        return true;
      }
      granted := true;
    }

    method RecordSuccess()
      modifies this
      ensures Model() == SuccessStep(old(Model()))
    {
      if !enabled {
        return;
      }
      failures := 0;
      state := Closed;
      probeInFlight := false;
      openedAt := 0;
    }

    method RecordFailure(now: int) returns (tripped: bool)
      modifies this
      ensures (Model(), tripped) == FailureStep(old(Model()), now)
    {
      if !enabled {
        return false;
      }
      probeInFlight := false;
      if state == HalfOpen {
        state := Open;
        openedAt := now;
        return true;
      }
      failures := failures + 1;
      if failures >= failureThreshold {
        state := Open;
        openedAt := now;
        return true;
      }
      tripped := false;
    }

    method ReadyPayload(now: int) returns (status: int)
      modifies this
      ensures Model() == Observe(old(Model()), now) && status == ReadyStatus(old(Model()), now)
    {
      if !enabled {
        return 200;
      }
      TransitionToHalfOpenIfDue(now);
      status := if state == Open then 503 else 200;
    }

    method RetryAfterSeconds(now: int) returns (seconds: int)
      modifies this
      ensures Model() == Observe(old(Model()), now) && seconds == RetrySeconds(old(Model()), now)
    {
      if !enabled {
        return 1;
      }
      TransitionToHalfOpenIfDue(now);
      if state == Open {
        var remaining := openedAt + openMs - now;
        var whole := CeilDiv(remaining, 1000);
        return if whole > 1 then whole else 1;
      }
      seconds := 1;
    }
  }
}
