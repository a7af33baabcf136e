/**
 The JSON-RPC client over a child process, `createStdioUpstream` of `bets/b-mcp-gateway/src/upstream.js`:
 answers, timers, failed writes and the end of the child race to settle each request.
 */
module StdioClient {
  import opened Wrappers

  datatype Reply = Result(value: string) | Error(text: string)

  datatype Outcome = Fulfilled(value: string) | Refused(text: string) | NotRunning | TimedOut | WriteError
                   | Exited(code: Option<int>)

  /** One call of a promise's resolve or reject function. */
  datatype Settlement = Settlement(id: nat, outcome: Outcome)

  /** `pending` is the insertion-ordered map of waiters; `settled` is the flag that the closures of a sent
      request share; `log` lists what happened to the promises. */
  datatype Client = Client(
    nextId: nat, pending: seq<nat>, settled: map<nat, bool>, timers: set<nat>, killed: bool, exited: bool,
    exitCode: Option<int>, log: seq<Settlement>)

  const INITIAL := Client(1, [], map[], {}, false, false, None, [])

  function Without(ids: seq<nat>, id: nat): seq<nat> {
    if ids == [] then []
    else Without(ids[..|ids| - 1], id) + if ids[|ids| - 1] == id then [] else [ids[|ids| - 1]]
  }

  function Finish(c: Client, id: nat, outcome: Outcome): Client {
    if id in c.settled && !c.settled[id] then
      c.(settled := c.settled[id := true], timers := c.timers - {id}, log := c.log + [Settlement(id, outcome)])
    else c
  }

  /** Whether the child is known to be gone. */
  predicate KnownDead(c: Client) {
    c.killed || c.exitCode.Some?
  }

  function RequestStep(c: Client): Client {
    var id := c.nextId;
    if KnownDead(c) then c.(nextId := id + 1, log := c.log + [Settlement(id, NotRunning)])
    else c.(nextId := id + 1, pending := c.pending + [id], settled := c.settled[id := false], timers := c.timers + {id})
  }

  function OutcomeOf(reply: Reply): Outcome {
    match reply
    case Result(value) => Fulfilled(value)
    case Error(text) => Refused(text)
  }

  /** A message whose id is no natural number has `None`. */
  function LineStep(c: Client, id: Option<nat>, reply: Reply): Client {
    if id.None? || id.value !in c.pending then c
    else Finish(c.(pending := Without(c.pending, id.value)), id.value, OutcomeOf(reply))
  }

  /** A timer that was cleared does not fire. */
  function TimerStep(c: Client, id: nat): Client {
    if id !in c.timers then c
    else Finish(c.(timers := c.timers - {id}, pending := Without(c.pending, id)), id, TimedOut)
  }

  /** The write of a sent request may report its failure at any later time. */
  function WriteErrorStep(c: Client, id: nat): Client {
    if id !in c.settled then c else Finish(c.(pending := Without(c.pending, id)), id, WriteError)
  }

  function FinishAll(c: Client, ids: seq<nat>, outcome: Outcome): Client {
    if ids == [] then c else Finish(FinishAll(c, ids[..|ids| - 1], outcome), ids[|ids| - 1], outcome)
  }

  /** A child that a signal ended has no exit code. */
  function ExitStep(c: Client, code: Option<int>): Client {
    if c.exited then c
    else FinishAll(c.(exited := true, exitCode := code), c.pending, Exited(code)).(pending := [])
  }

  /** `close` kills the child; a child that is gone cannot be killed. */
  function CloseStep(c: Client): Client {
    c.(killed := c.killed || !c.exited)
  }

  // ----- The imperative form -----

  class StdioUpstream {
    var nextId: nat
    var pending: seq<nat>
    var settled: map<nat, bool>
    var timers: set<nat>
    var killed: bool
    var exited: bool
    var exitCode: Option<int>
    var log: seq<Settlement>

    ghost function Model(): Client
      reads this
    {
      Client(nextId, pending, settled, timers, killed, exited, exitCode, log)
    }

    constructor ()
      ensures Model() == INITIAL
    {
      nextId, pending, settled, timers, killed, exited, exitCode, log := 1, [], map[], {}, false, false, None, [];
    }

    method Settle(id: nat, outcome: Outcome)
      modifies this`settled, this`timers, this`log
      ensures Model() == Finish(old(Model()), id, outcome)
    {
      if id in settled && !settled[id] {
        settled := settled[id := true];
        timers := timers - {id};
        log := log + [Settlement(id, outcome)];
      }
    }

    method Delete(id: nat)
      modifies this`pending
      ensures pending == Without(old(pending), id)
    {
      var kept: seq<nat> := [];
      for k := 0 to |pending|
        invariant pending == old(pending) && kept == Without(pending[..k], id)
      {
        assert pending[..k + 1][..k] == pending[..k];
        if pending[k] != id {
          kept := kept + [pending[k]];
        }
      }
      assert pending[..|pending|] == pending;
      pending := kept;
    }

    method Request() returns (id: nat)
      modifies this
      ensures id == old(nextId) && Model() == RequestStep(old(Model()))
    {
      id := nextId;
      nextId := nextId + 1;
      if killed || exitCode.Some? {
        log := log + [Settlement(id, NotRunning)];
        return;
      }
      timers := timers + {id};
      settled := settled[id := false];
      pending := pending + [id];
    }

    method OnLine(id: Option<nat>, reply: Reply)
      modifies this
      ensures Model() == LineStep(old(Model()), id, reply)
    {
      if id.None? || id.value !in pending {
        return;
      }
      Delete(id.value);
      Settle(id.value, OutcomeOf(reply));
    }

    method OnTimer(id: nat)
      modifies this
      ensures Model() == TimerStep(old(Model()), id)
    {
      if id in timers {
        timers := timers - {id};
        Delete(id);
        Settle(id, TimedOut);
      }
    }

    method OnWriteError(id: nat)
      modifies this
      ensures Model() == WriteErrorStep(old(Model()), id)
    {
      if id in settled {
        Delete(id);
        Settle(id, WriteError);
      }
    }

    method OnExit(code: Option<int>)
      modifies this
      ensures Model() == ExitStep(old(Model()), code)
    {
      if exited {
        return;
      }
      exited, exitCode := true, code;
      ghost var dead := Model();
      for k := 0 to |pending|
        invariant pending == dead.pending
        invariant Model() == FinishAll(dead, dead.pending[..k], Exited(code))
      {
        assert pending[..k + 1][..k] == pending[..k];
        Settle(pending[k], Exited(code));
      }
      assert pending[..|pending|] == pending;
      pending := [];
    }

    method Close()
      modifies this`killed
      ensures Model() == CloseStep(old(Model()))
    {
      if !exited {
        killed := true;
      }
    }
  }

  // ----- Runs -----

  datatype Step = Request | Line(answers: Option<nat>, reply: Reply) | Timer(id: nat) | WriteFails(id: nat)
                | Exit(code: Option<int>) | Close

  function Apply(c: Client, s: Step): Client {
    match s
    case Request => RequestStep(c)
    case Line(id, reply) => LineStep(c, id, reply)
    case Timer(id) => TimerStep(c, id)
    case WriteFails(id) => WriteErrorStep(c, id)
    case Exit(code) => ExitStep(c, code)
    case Close => CloseStep(c)
  }

  function Run(steps: seq<Step>): Client {
    if steps == [] then INITIAL else Apply(Run(steps[..|steps| - 1]), steps[|steps| - 1])
  }

  function Ids(log: seq<Settlement>): seq<nat> {
    if log == [] then [] else Ids(log[..|log| - 1]) + [log[|log| - 1].id]
  }

  /** The ids handed out so far. */
  function Issued(nextId: nat): (ids: set<nat>)
    ensures forall id :: id in ids <==> 1 <= id < nextId
  {
    if nextId <= 1 then {} else Issued(nextId - 1) + {nextId - 1}
  }

  /** Every id handed out is either pending or settled, once. */
  ghost predicate Conserved(c: Client) {
    && c.nextId >= 1
    && multiset(c.pending) + multiset(Ids(c.log)) == multiset(Issued(c.nextId))
  }

  /** The flags, the timers and the table tell the same story. */
  ghost predicate Consistent(c: Client) {
    && (forall id :: id in c.settled ==> (!c.settled[id] <==> id in c.pending))
    && (forall id :: id in c.pending ==> id in c.settled)
    && (forall id :: id in c.timers <==> id in c.pending)
    && (forall id :: id in c.settled ==> id < c.nextId)
  }

  ghost predicate QuietAfterExit(c: Client) {
    (c.exitCode.Some? ==> c.exited) && (c.exited && KnownDead(c) ==> c.pending == [])
  }

  lemma IdsSnoc(log: seq<Settlement>, s: Settlement)
    ensures Ids(log + [s]) == Ids(log) + [s.id] && Ids([]) == []
  {
    assert (log + [s])[..|log|] == log;
  }

  lemma IssuedNext(nextId: nat)
    requires nextId >= 1
    ensures multiset(Issued(nextId + 1)) == multiset(Issued(nextId)) + multiset{nextId}
  {
    assert Issued(nextId + 1) == Issued(nextId) + {nextId};
  }

  lemma {:induction false} WithoutCounts(ids: seq<nat>, id: nat)
    ensures multiset(Without(ids, id)) == multiset(ids)[id := 0]
  {
    if ids != [] {
      WithoutCounts(ids[..|ids| - 1], id);
      assert ids == ids[..|ids| - 1] + [ids[|ids| - 1]];
    }
  }

  /** A pending id occurs once in the table. */
  lemma PendingOnce(c: Client, id: nat)
    requires Conserved(c) && id in c.pending
    ensures multiset(c.pending)[id] == 1 && multiset(Without(c.pending, id)) == multiset(c.pending) - multiset{id}
  {
    WithoutCounts(c.pending, id);
    assert id in multiset(c.pending);
    assert multiset(Issued(c.nextId))[id] <= 1;
    assert multiset(c.pending)[id] <= (multiset(c.pending) + multiset(Ids(c.log)))[id];
  }

  lemma WithoutHas(ids: seq<nat>, id: nat)
    ensures forall k :: k in Without(ids, id) <==> k in ids && k != id
  {
    WithoutCounts(ids, id);
    forall k ensures k in Without(ids, id) <==> k in ids && k != id {
      assert k in Without(ids, id) <==> k in multiset(Without(ids, id));
      assert k in ids <==> k in multiset(ids);
    }
  }

  /** What removing a waiter and settling its request does. */
  lemma SettlingKeeps(c: Client, c': Client, id: nat, outcome: Outcome)
    requires Conserved(c) && Consistent(c) && id in c.pending
    requires c' == c.(pending := Without(c.pending, id), settled := c.settled[id := true], timers := c.timers - {id},
                      log := c.log + [Settlement(id, outcome)])
    ensures Conserved(c') && Consistent(c')
  {
    hide Ids, Issued, Without;
    PendingOnce(c, id);
    WithoutHas(c.pending, id);
    IdsSnoc(c.log, Settlement(id, outcome));
    assert multiset(Ids(c.log) + [id]) == multiset(Ids(c.log)) + multiset{id};
  }

  /** Deleting an id that is not pending changes nothing. */
  lemma {:induction false} NothingWithout(ids: seq<nat>, id: nat)
    requires id !in ids
    ensures Without(ids, id) == ids
  {
    if ids != [] {
      NothingWithout(ids[..|ids| - 1], id);
      assert ids == ids[..|ids| - 1] + [ids[|ids| - 1]];
    }
  }

  function Settlements(ids: seq<nat>, outcome: Outcome): seq<Settlement> {
    if ids == [] then [] else Settlements(ids[..|ids| - 1], outcome) + [Settlement(ids[|ids| - 1], outcome)]
  }

  ghost predicate Distinct(ids: seq<nat>) {
    forall i, j :: 0 <= i < j < |ids| ==> ids[i] != ids[j]
  }

  ghost predicate Unsettled(c: Client, ids: seq<nat>) {
    forall id :: id in ids ==> id in c.settled && !c.settled[id]
  }

  /** The loop over the waiters settles each of them. */
  lemma {:induction false} FinishAllSettles(c: Client, ids: seq<nat>, outcome: Outcome)
    requires Distinct(ids) && Unsettled(c, ids)
    ensures var c' := FinishAll(c, ids, outcome);
            && c' == c.(settled := c'.settled, timers := c'.timers, log := c.log + Settlements(ids, outcome))
            && (forall id :: id in c'.settled <==> id in c.settled)
            && (forall id :: id in c.settled ==> c'.settled[id] == (c.settled[id] || id in ids))
            && (forall id :: id in c'.timers <==> id in c.timers && id !in ids)
  {
    if ids == [] {
      assert c.log + [] == c.log;
    } else {
      hide Settlements;
      var before, last := ids[..|ids| - 1], ids[|ids| - 1];
      assert last !in before;
      FinishAllSettles(c, before, outcome);
      assert forall id :: id in ids <==> id in before || id == last;
      SettlementsStep(ids, outcome);
      assert c.log + (Settlements(before, outcome) + [Settlement(last, outcome)])
          == (c.log + Settlements(before, outcome)) + [Settlement(last, outcome)];
    }
  }

  lemma SettlementsStep(ids: seq<nat>, outcome: Outcome)
    requires ids != []
    ensures Settlements(ids, outcome)
         == Settlements(ids[..|ids| - 1], outcome) + [Settlement(ids[|ids| - 1], outcome)]
  {
  }

  lemma {:induction false} SettlementIds(log: seq<Settlement>, ids: seq<nat>, outcome: Outcome)
    ensures Ids(log + Settlements(ids, outcome)) == Ids(log) + ids
  {
    hide *;
    if ids == [] {
      NoSettlements(outcome);
      assert log + [] == log && Ids(log) + [] == Ids(log);
    } else {
      var before, s := ids[..|ids| - 1], Settlement(ids[|ids| - 1], outcome);
      SettlementIds(log, before, outcome);
      SettlementsStep(ids, outcome);
      assert log + (Settlements(before, outcome) + [s]) == (log + Settlements(before, outcome)) + [s];
      IdsSnoc(log + Settlements(before, outcome), s);
      assert Ids(log) + ids == (Ids(log) + before) + [s.id];
    }
  }

  lemma NoSettlements(outcome: Outcome)
    ensures Settlements([], outcome) == []
  {
  }

  lemma PendingDistinct(c: Client)
    requires Conserved(c)
    ensures Distinct(c.pending)
  {
    hide Ids, Issued;
    forall i, j | 0 <= i < j < |c.pending| ensures c.pending[i] != c.pending[j] {
      PendingOnce(c, c.pending[i]);
      TwiceCounts(c.pending, i, j);
    }
  }

  lemma TwiceCounts(ids: seq<nat>, i: nat, j: nat)
    requires i < j < |ids|
    ensures ids[i] == ids[j] ==> multiset(ids)[ids[i]] >= 2
  {
    assert ids == ids[..j] + [ids[j]] + ids[j + 1..];
    assert ids[i] in ids[..j];
  }

  lemma ExitKeeps(c: Client, code: Option<int>)
    requires Conserved(c) && Consistent(c) && !c.exited
    ensures var c' := ExitStep(c, code);
            Conserved(c') && Consistent(c') && c'.pending == [] && c'.exited && c'.exitCode == code
  {
    hide FinishAll, Ids, Issued, Settlements;
    PendingDistinct(c);
    FinishAllSettles(c.(exited := true, exitCode := code), c.pending, Exited(code));
    SettlementIds(c.log, c.pending, Exited(code));
    assert multiset(Ids(c.log) + c.pending) == multiset(Ids(c.log)) + multiset(c.pending);
  }

  lemma RequestConserves(c: Client)
    requires Conserved(c)
    ensures Conserved(RequestStep(c))
  {
    hide Ids, Issued;
    IssuedNext(c.nextId);
    if KnownDead(c) {
      IdsSnoc(c.log, Settlement(c.nextId, NotRunning));
      assert multiset(Ids(c.log) + [c.nextId]) == multiset(Ids(c.log)) + multiset{c.nextId};
    } else {
      assert multiset(c.pending + [c.nextId]) == multiset(c.pending) + multiset{c.nextId};
    }
  }

  lemma RequestKeeps(c: Client)
    requires Conserved(c) && Consistent(c)
    ensures Conserved(RequestStep(c)) && Consistent(RequestStep(c))
  {
    hide Conserved, Ids, Issued;
    RequestConserves(c);
    assert c.nextId !in c.settled;
  }

  ghost predicate Sound(c: Client) {
    Conserved(c) && Consistent(c) && QuietAfterExit(c)
  }

  /** The settlement that an answer, a timer or a failed write causes. */
  function Causes(c: Client, s: Step): Option<Settlement> {
    match s
    case Line(id, reply) =>
      if id.Some? && id.value in c.pending then Some(Settlement(id.value, OutcomeOf(reply))) else None
    case Timer(id) => if id in c.pending then Some(Settlement(id, TimedOut)) else None
    case WriteFails(id) => if id in c.pending then Some(Settlement(id, WriteError)) else None
    case _ => None
  }

  function SettleOne(c: Client, s: Settlement): Client {
    c.(pending := Without(c.pending, s.id), settled := c.settled[s.id := true], timers := c.timers - {s.id},
       log := c.log + [s])
  }

  /** Such a step settles one pending request and does nothing else. */
  lemma SettlingSteps(c: Client, s: Step)
    requires Consistent(c) && (s.Line? || s.Timer? || s.WriteFails?)
    ensures Apply(c, s) == if Causes(c, s).Some? then SettleOne(c, Causes(c, s).value) else c
  {
    hide Without;
    match s
    case Line(_, _) =>
    case Timer(id) => assert c.timers - {id} - {id} == c.timers - {id};
    case WriteFails(id) =>
      if id !in c.pending {
        NothingWithout(c.pending, id);
      }
  }

  lemma SoundNext(c: Client, s: Step)
    requires Sound(c)
    ensures Sound(Apply(c, s))
  {
    hide Conserved, Consistent, Without, FinishAll, ExitStep, LineStep, TimerStep, WriteErrorStep;
    if s.Request? {
      RequestKeeps(c);
    } else if s.Exit? {
      if c.exited {
        ExitedStays(c, s.code);
      } else {
        ExitKeeps(c, s.code);
      }
    } else if s.Close? {
      CloseKeeps(c);
    } else {
      SettlingSteps(c, s);
      var cause := Causes(c, s);
      if cause.Some? {
        SettlingKeeps(c, SettleOne(c, cause.value), cause.value.id, cause.value.outcome);
        assert c.pending != [];
      }
    }
  }

  lemma ExitedStays(c: Client, code: Option<int>)
    requires c.exited
    ensures ExitStep(c, code) == c
  {
  }

  lemma CloseKeeps(c: Client)
    requires Conserved(c) && Consistent(c)
    ensures Conserved(CloseStep(c)) && Consistent(CloseStep(c))
  {
  }

  lemma {:induction false} RunIsSound(steps: seq<Step>)
    ensures Sound(Run(steps))
    decreases |steps|
  {
    if steps == [] {
      assert Issued(1) == {};
    } else {
      hide *;
      RunStep(steps);
      RunIsSound(steps[..|steps| - 1]);
      SoundNext(Run(steps[..|steps| - 1]), steps[|steps| - 1]);
    }
  }

  lemma RunStep(steps: seq<Step>)
    requires steps != []
    ensures Run(steps) == Apply(Run(steps[..|steps| - 1]), steps[|steps| - 1])
  {
    hide Apply;
  }

  /** Main result: under every interleaving of requests, answers in any order, timers, failed writes and the
      end of the child, the table of waiters holds exactly the requests that have not been settled, no
      request is settled twice, and a timer is armed exactly for the waiting ones. */
  lemma EachRequestSettlesOnce(steps: seq<Step>)
    ensures var c := Run(steps);
            && Distinct(Ids(c.log)) && Distinct(c.pending)
            && (forall id :: id in c.pending <==> 1 <= id < c.nextId && id !in Ids(c.log))
            && (forall id :: id in c.timers <==> id in c.pending)
  {
    hide Run, Ids, Issued;
    RunIsSound(steps);
    var c := Run(steps);
    PendingDistinct(c);
    LogDistinct(c);
    forall id: nat ensures id in c.pending <==> 1 <= id < c.nextId && id !in Ids(c.log) {
      assert (multiset(c.pending) + multiset(Ids(c.log)))[id] == multiset(Issued(c.nextId))[id];
    }
  }

  lemma LogDistinct(c: Client)
    requires Conserved(c)
    ensures Distinct(Ids(c.log))
  {
    hide Ids, Issued;
    var ids := Ids(c.log);
    forall i, j | 0 <= i < j < |ids| ensures ids[i] != ids[j] {
      assert (multiset(c.pending) + multiset(ids))[ids[i]] == multiset(Issued(c.nextId))[ids[i]];
      TwiceCounts(ids, i, j);
    }
  }

  // ----- Answers -----

  /** The message that an outcome stands for. */
  function ReplyOf(outcome: Outcome): Option<Reply> {
    match outcome
    case Fulfilled(value) => Some(Result(value))
    case Refused(text) => Some(Error(text))
    case _ => None
  }

  ghost predicate AnsweredAt(steps: seq<Step>, j: int, id: nat, reply: Reply) {
    0 <= j < |steps| && steps[j] == Line(Some(id), reply) && id in Run(steps[..j]).pending
  }

  lemma LogGrows(c: Client, s: Step)
    requires Conserved(c) && Consistent(c)
    ensures c.log <= Apply(c, s).log
    ensures forall k :: |c.log| <= k < |Apply(c, s).log| && ReplyOf(Apply(c, s).log[k].outcome).Some? ==>
              var e := Apply(c, s).log[k]; e.id in c.pending && s == Line(Some(e.id), ReplyOf(e.outcome).value)
  {
    hide Conserved, Ids, Without, FinishAll;
    if s.Line? || s.Timer? || s.WriteFails? {
      SettlingSteps(c, s);
    } else if s.Exit? && !c.exited {
      hide Consistent;
      PendingDistinct(c);
      AllUnsettled(c);
      FinishAllSettles(c.(exited := true, exitCode := s.code), c.pending, Exited(s.code));
      SettlementsShape(c.pending, Exited(s.code));
    }
  }

  lemma AllUnsettled(c: Client)
    requires Consistent(c)
    ensures Unsettled(c, c.pending)
  {
  }

  lemma {:induction false} SettlementsShape(ids: seq<nat>, outcome: Outcome)
    ensures forall k :: 0 <= k < |Settlements(ids, outcome)| ==> Settlements(ids, outcome)[k].outcome == outcome
  {
    if ids != [] {
      SettlementsShape(ids[..|ids| - 1], outcome);
    }
  }

  /** Main result: a request that was fulfilled, or rejected with the error of an answer, got a message with
      exactly this result or error that carried its own id, and got it while it was still pending. */
  lemma {:induction false} SettledByOwnAnswer(steps: seq<Step>, k: nat)
    requires k < |Run(steps).log| && ReplyOf(Run(steps).log[k].outcome).Some?
    ensures var e := Run(steps).log[k]; exists j :: AnsweredAt(steps, j, e.id, ReplyOf(e.outcome).value)
    decreases |steps|
  {
    hide Apply, Sound, Conserved, Consistent, ReplyOf;
    if steps != [] {
      var before, last := steps[..|steps| - 1], steps[|steps| - 1];
      var e := Run(steps).log[k];
      RunIsSound(before);
      SoundParts(Run(before));
      LogGrows(Run(before), last);
      if k < |Run(before).log| {
        SettledByOwnAnswer(before, k);
        var j :| AnsweredAt(before, j, e.id, ReplyOf(e.outcome).value);
        assert before[..j] == steps[..j];
        assert AnsweredAt(steps, j, e.id, ReplyOf(e.outcome).value);
      } else {
        assert AnsweredAt(steps, |steps| - 1, e.id, ReplyOf(e.outcome).value);
      }
    }
  }

  // ----- Every settlement -----

  /** The step in state `c` is what settles the request in this way. */
  predicate Explains(c: Client, s: Step, e: Settlement) {
    match s
    case Request => e.id == c.nextId && (c.killed || c.exitCode.Some?) && e.outcome == NotRunning
    case Line(id, Result(value)) => id == Some(e.id) && e.id in c.pending && e.outcome == Fulfilled(value)
    case Line(id, Error(text)) => id == Some(e.id) && e.id in c.pending && e.outcome == Refused(text)
    case Timer(id) => id == e.id && e.id in c.pending && e.outcome == TimedOut
    case WriteFails(id) => id == e.id && e.id in c.pending && e.outcome == WriteError
    case Exit(code) => !c.exited && e.id in c.pending && e.outcome == Exited(code)
    case Close => false
  }

  ghost predicate SettledAt(steps: seq<Step>, j: int, e: Settlement) {
    0 <= j < |steps| && Explains(Run(steps[..j]), steps[j], e)
  }

  lemma NewSettlements(c: Client, s: Step)
    requires Conserved(c) && Consistent(c)
    ensures c.log <= Apply(c, s).log
    ensures forall k :: |c.log| <= k < |Apply(c, s).log| ==> Explains(c, s, Apply(c, s).log[k])
  {
    hide Conserved, Ids, Without, FinishAll;
    if s.Line? || s.Timer? || s.WriteFails? {
      SettlingSteps(c, s);
    } else if s.Exit? && !c.exited {
      hide Consistent;
      PendingDistinct(c);
      AllUnsettled(c);
      FinishAllSettles(c.(exited := true, exitCode := s.code), c.pending, Exited(s.code));
      SettlementsShape(c.pending, Exited(s.code));
      SettlementsAreOf(c.pending, Exited(s.code));
    }
  }

  lemma {:induction false} SettlementsAreOf(ids: seq<nat>, outcome: Outcome)
    ensures |Settlements(ids, outcome)| == |ids|
    ensures forall k :: 0 <= k < |ids| ==> Settlements(ids, outcome)[k].id == ids[k]
  {
    if ids != [] {
      SettlementsAreOf(ids[..|ids| - 1], outcome);
    }
  }

  /** Main result: whatever happened to a request has its cause in one step: an answer with its own id gave the
      result or the error, its timer or its failed write rejected it, the end of the child rejected it with the
      exit code while it was waiting, or the client knew when it was made that the child was gone. */
  lemma {:induction false} EverySettlementHasItsCause(steps: seq<Step>, k: nat)
    requires k < |Run(steps).log|
    ensures exists j :: SettledAt(steps, j, Run(steps).log[k])
    decreases |steps|
  {
    hide Apply, Sound, Conserved, Consistent, Explains;
    if steps != [] {
      var before, last := steps[..|steps| - 1], steps[|steps| - 1];
      var e := Run(steps).log[k];
      RunIsSound(before);
      SoundParts(Run(before));
      NewSettlements(Run(before), last);
      if k < |Run(before).log| {
        EverySettlementHasItsCause(before, k);
        var j :| SettledAt(before, j, e);
        assert before[..j] == steps[..j];
        assert SettledAt(steps, j, e);
      } else {
        assert SettledAt(steps, |steps| - 1, e);
      }
    }
  }

  lemma SoundParts(c: Client)
    requires Sound(c)
    ensures Conserved(c) && Consistent(c)
  {
  }

  // ----- After the end of the child -----

  ghost predicate NoExit(steps: seq<Step>) {
    forall i :: 0 <= i < |steps| ==> !steps[i].Exit?
  }

  lemma {:induction false} FinishAllFrame(c: Client, ids: seq<nat>, outcome: Outcome)
    ensures var c' := FinishAll(c, ids, outcome);
            c'.killed == c.killed && c'.exited == c.exited && c'.exitCode == c.exitCode
  {
    if ids != [] {
      FinishAllFrame(c, ids[..|ids| - 1], outcome);
    }
  }

  /** What a step does to what is known of the child. */
  lemma ChildAfter(c: Client, s: Step)
    ensures var c' := Apply(c, s);
            && c'.killed == (c.killed || (s.Close? && !c.exited))
            && c'.exited == (c.exited || s.Exit?)
            && c'.exitCode == if s.Exit? && !c.exited then s.code else c.exitCode
  {
    hide FinishAll, Without;
    if s.Exit? && !c.exited {
      FinishAllFrame(c.(exited := true, exitCode := s.code), c.pending, Exited(s.code));
    }
  }

  lemma {:induction false} LivingChild(steps: seq<Step>)
    requires NoExit(steps)
    ensures var c := Run(steps); !c.exited && c.exitCode.None? && (c.killed <==> Close in steps)
    decreases |steps|
  {
    if steps != [] {
      hide Apply;
      var before, last := steps[..|steps| - 1], steps[|steps| - 1];
      assert steps == before + [last];
      LivingChild(before);
      ChildAfter(Run(before), last);
    }
  }

  /** Main result: when the child ends nothing stays pending. From then on requests fail at once if and only
      if it ended by itself with an exit code or had been closed: a child that a signal from elsewhere ended
      has neither, and the client accepts the next request. */
  lemma RequestsAfterExit(steps: seq<Step>, code: Option<int>)
    requires NoExit(steps)
    ensures var c := Run(steps + [Exit(code)]);
            && c.pending == [] && c.exited
            && (RequestStep(c).pending == [] <==> code.Some? || Close in steps)
  {
    hide Apply, Sound, Conserved, Consistent;
    var all := steps + [Exit(code)];
    assert all[..|steps|] == steps;
    LivingChild(steps);
    RunIsSound(steps);
    SoundParts(Run(steps));
    ExitEmpties(Run(steps), code);
    ChildAfter(Run(steps), Exit(code));
  }

  lemma ExitEmpties(c: Client, code: Option<int>)
    requires Conserved(c) && Consistent(c) && !c.exited
    ensures Apply(c, Exit(code)).pending == []
  {
    ExitKeeps(c, code);
  }

  /** Main result: once the client knows that its child has ended, no later step makes anything pending. */
  lemma {:induction false} DeadStaysDead(steps: seq<Step>, more: seq<Step>)
    requires Run(steps).exited && KnownDead(Run(steps))
    ensures var c := Run(steps + more); c.exited && KnownDead(c) && c.pending == [] && c.timers == {}
    decreases |more|
  {
    hide Apply, Ids, Conserved;
    RunIsSound(steps + more);
    if more == [] {
      assert steps + more == steps;
    } else {
      var before, last := more[..|more| - 1], more[|more| - 1];
      assert (steps + more)[..|steps + more| - 1] == steps + before;
      DeadStaysDead(steps, before);
      ChildAfter(Run(steps + before), last);
    }
  }
}
