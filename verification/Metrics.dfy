/** The counters of `bets/b-mcp-gateway/src/metrics.js` that tool calls touch. */
module Metrics {

  datatype Labels = Labels(tool: string, decision: string, tenant: string)

  /** The key of a label set: the labels in name order. */
  function LabelsKey(l: Labels): string {
    "decision=" + l.decision + "|tenant=" + l.tenant + "|tool=" + l.tool
  }

  /** One entry of the insertion-ordered map from keys to counts. */
  datatype Sample = Sample(key: string, labels: Labels, count: nat)

  function Increment(samples: seq<Sample>, l: Labels): seq<Sample> {
    if samples == [] then [Sample(LabelsKey(l), l, 1)]
    else if samples[0].key == LabelsKey(l) then [samples[0].(count := samples[0].count + 1)] + samples[1..]
    else [samples[0]] + Increment(samples[1..], l)
  }

  datatype Counters = Counters(
    toolCalls: seq<Sample>, rateLimited: nat, upstreamTimeout: nat, circuitOpen: nat, auditEvents: nat)

  function ToolCallStep(c: Counters, l: Labels): Counters {
    c.(toolCalls := Increment(c.toolCalls, l))
  }

  class MetricsStore {
    var toolCalls: seq<Sample>
    var rateLimited: nat
    var upstreamTimeout: nat
    var circuitOpen: nat
    var auditEvents: nat

    ghost function Model(): Counters
      reads this
    {
      Counters(toolCalls, rateLimited, upstreamTimeout, circuitOpen, auditEvents)
    }

    constructor ()
      ensures Model() == Counters([], 0, 0, 0, 0)
    {
      toolCalls, rateLimited, upstreamTimeout, circuitOpen, auditEvents := [], 0, 0, 0, 0;
    }

    method IncToolCall(l: Labels)
      modifies this`toolCalls
      ensures Model() == ToolCallStep(old(Model()), l)
    {
      var key := LabelsKey(l);
      var k := 0;
      while k < |toolCalls| && toolCalls[k].key != key
        invariant 0 <= k <= |toolCalls| && toolCalls == old(toolCalls)
        invariant Increment(toolCalls, l) == toolCalls[..k] + Increment(toolCalls[k..], l)
      {
        assert toolCalls[k..][1..] == toolCalls[k + 1..];
        k := k + 1;
      }
      if k < |toolCalls| {
        assert toolCalls[k..][1..] == toolCalls[k + 1..];
        toolCalls := toolCalls[k := toolCalls[k].(count := toolCalls[k].count + 1)];
      } else {
        toolCalls := toolCalls + [Sample(key, l, 1)];
      }
    }

    method IncRateLimited()
      modifies this`rateLimited
      ensures Model() == old(Model()).(rateLimited := old(rateLimited) + 1)
    {
      rateLimited := rateLimited + 1;
    }

    method IncUpstreamTimeout()
      modifies this`upstreamTimeout
      ensures Model() == old(Model()).(upstreamTimeout := old(upstreamTimeout) + 1)
    {
      upstreamTimeout := upstreamTimeout + 1;
    }

    method IncCircuitOpen()
      modifies this`circuitOpen
      ensures Model() == old(Model()).(circuitOpen := old(circuitOpen) + 1)
    {
      circuitOpen := circuitOpen + 1;
    }

    method SetAuditEvents(n: int)
      modifies this`auditEvents
      ensures Model() == old(Model()).(auditEvents := if n < 0 then 0 else n)
    {
      auditEvents := if n < 0 then 0 else n;
    }
  }

  // ----- What the samples count -----

  function Total(samples: seq<Sample>): nat {
    if samples == [] then 0 else samples[0].count + Total(samples[1..])
  }

  function CountAt(samples: seq<Sample>, key: string): nat {
    if samples == [] then 0
    else if samples[0].key == key then samples[0].count
    else CountAt(samples[1..], key)
  }

  /** The samples after one increment a label set. */
  function Replay(calls: seq<Labels>): seq<Sample> {
    if calls == [] then [] else Increment(Replay(calls[..|calls| - 1]), calls[|calls| - 1])
  }

  function Occurrences(calls: seq<Labels>, key: string): nat {
    if calls == [] then 0
    else Occurrences(calls[..|calls| - 1], key) + if LabelsKey(calls[|calls| - 1]) == key then 1 else 0
  }

  lemma {:induction false} IncrementCounts(samples: seq<Sample>, l: Labels, key: string)
    ensures Total(Increment(samples, l)) == Total(samples) + 1
    ensures CountAt(Increment(samples, l), key) == CountAt(samples, key) + if LabelsKey(l) == key then 1 else 0
  {
    if samples != [] && samples[0].key != LabelsKey(l) {
      IncrementCounts(samples[1..], l, key);
    }
  }

  lemma {:induction false} ReplayCounts(calls: seq<Labels>, key: string)
    ensures Total(Replay(calls)) == |calls|
    ensures CountAt(Replay(calls), key) == Occurrences(calls, key)
    decreases |calls|
  {
    if calls != [] {
      ReplayCounts(calls[..|calls| - 1], key);
      IncrementCounts(Replay(calls[..|calls| - 1]), calls[|calls| - 1], key);
    }
  }

  // ----- When label sets share a key -----

  const SEPARATOR := "|tool="

  predicate SeparatorAt(s: string, k: int) {
    0 <= k && k + 6 <= |s| && s[k..k + 6] == SEPARATOR
  }

  predicate NoBar(s: string) {
    '|' !in s
  }

  /** The first bar of a key ends its decision. */
  lemma FirstBar(a: string, rest: string)
    requires NoBar(a)
    ensures var s := a + "|" + rest; s[|a|] == '|' && forall k :: 0 <= k < |a| ==> s[k] != '|'
    ensures (a + "|" + rest)[..|a|] == a && (a + "|" + rest)[|a| + 1..] == rest
  {
  }

  lemma SeparatorStands(t: string, n: string)
    ensures var s := t + SEPARATOR + n;
            && s[..|t|] == t && s[|t|..|t| + 6] == SEPARATOR && s[|t| + 6..] == n
            && s[|t|] == '|' && forall k :: |t| < k < |t| + 6 ==> s[k] != '|'
  {
  }

  /** A text cut at the separator in two ways: each cut leaves the other separator in one of its parts. */
  lemma CutTwice(t: string, n: string, t': string, n': string)
    requires t + SEPARATOR + n == t' + SEPARATOR + n' && |t| < |t'|
    ensures SeparatorAt(t', |t|)
    ensures SeparatorAt(n, |t'| - |t| - 6) && |n'| == |n| - |t'| + |t|
  {
    var s := t + SEPARATOR + n;
    SeparatorStands(t, n);
    SeparatorStands(t', n');
    assert |t| + 6 <= |t'|;
    assert t'[|t|..|t| + 6] == s[|t|..|t| + 6];
    var k := |t'| - |t| - 6;
    assert n[k..k + 6] == s[|t'|..|t'| + 6];
  }

  /** A label set as the store keeps it: no label is empty, and decisions never contain a bar. */
  predicate Stored(l: Labels) {
    l.tool != "" && l.decision != "" && l.tenant != "" && NoBar(l.decision)
  }

  /** A tenant that stays nonempty when it is cut before a separator. */
  ghost predicate PlainTenant(tenant: string) {
    forall k :: k >= 1 ==> !SeparatorAt(tenant, k)
  }

  /** A tool that stays nonempty when it is cut after a separator. */
  ghost predicate PlainTool(tool: string) {
    forall k :: SeparatorAt(tool, k) ==> k + 6 == |tool|
  }

  ghost predicate Share(a: Labels, b: Labels) {
    Stored(b) && b != a && LabelsKey(b) == LabelsKey(a)
  }

  lemma SameKeySameCut(a: Labels, b: Labels)
    requires NoBar(a.decision) && NoBar(b.decision) && LabelsKey(a) == LabelsKey(b)
    ensures a.decision == b.decision && a.tenant + SEPARATOR + a.tool == b.tenant + SEPARATOR + b.tool
  {
    KeyShape(a);
    KeyShape(b);
    var (ra, rb) := ("tenant=" + (a.tenant + SEPARATOR + a.tool), "tenant=" + (b.tenant + SEPARATOR + b.tool));
    assert LabelsKey(a)[9..] == a.decision + "|" + ra && LabelsKey(b)[9..] == b.decision + "|" + rb;
    FirstBar(a.decision, ra);
    FirstBar(b.decision, rb);
    assert |a.decision| == |b.decision|;
    assert ra[7..] == a.tenant + SEPARATOR + a.tool && rb[7..] == b.tenant + SEPARATOR + b.tool;
  }

  /** Labels that share a key have one tenant that continues with a separator after the other. */
  lemma SharingCuts(a: Labels, b: Labels)
    requires Stored(a) && Share(a, b)
    ensures |a.tenant| != |b.tenant|
    ensures |b.tenant| < |a.tenant| ==> !PlainTenant(a.tenant) && !PlainTool(b.tool)
    ensures |a.tenant| < |b.tenant| ==> !PlainTenant(b.tenant) && !PlainTool(a.tool)
  {
    hide LabelsKey, SeparatorAt, NoBar;
    SameKeySameCut(a, b);
    if |a.tenant| < |b.tenant| {
      CutTwice(a.tenant, a.tool, b.tenant, b.tool);
    } else if |b.tenant| < |a.tenant| {
      CutTwice(b.tenant, b.tool, a.tenant, a.tool);
    } else {
      SeparatorStands(a.tenant, a.tool);
      SeparatorStands(b.tenant, b.tool);
    }
  }

  /** Main result: a stored label set shares its key with a different one exactly when the text `|tool=` stands in
      its tenant, not at the start, or in its tool, not at the end. */
  lemma KeysCollideExactlyWhen(a: Labels)
    requires Stored(a)
    ensures (exists b :: Share(a, b)) <==> !PlainTenant(a.tenant) || !PlainTool(a.tool)
  {
    hide LabelsKey, SeparatorAt;
    if b :| Share(a, b) {
      SharingCuts(a, b);
    }
    if k :| k >= 1 && SeparatorAt(a.tenant, k) {
      var b := CutTenant(a, k);
    }
    if k :| SeparatorAt(a.tool, k) && k + 6 != |a.tool| {
      var b := CutTool(a, k);
    }
  }

  /** The partner of a label set whose tenant holds the separator. */
  lemma CutTenant(a: Labels, k: int) returns (b: Labels)
    requires Stored(a) && k >= 1 && SeparatorAt(a.tenant, k)
    ensures Share(a, b) && b.tenant == a.tenant[..k]
  {
    hide LabelsKey;
    var (head, tail) := (a.tenant[..k], a.tenant[k + 6..]);
    assert a.tenant == head + SEPARATOR + tail;
    b := Labels(tail + SEPARATOR + a.tool, a.decision, head);
    Regroup(head, SEPARATOR, tail, a.tool);
    KeyShape(a);
    KeyShape(b);
  }

  /** The partner of a label set whose tool holds the separator. */
  lemma CutTool(a: Labels, k: int) returns (b: Labels)
    requires Stored(a) && SeparatorAt(a.tool, k) && k + 6 != |a.tool|
    ensures Share(a, b) && b.tool == a.tool[k + 6..]
  {
    hide LabelsKey;
    var (head, tail) := (a.tool[..k], a.tool[k + 6..]);
    assert a.tool == head + SEPARATOR + tail;
    b := Labels(tail, a.decision, a.tenant + SEPARATOR + head);
    Regroup(a.tenant, SEPARATOR, head, tail);
    KeyShape(a);
    KeyShape(b);
  }

  lemma KeyShape(l: Labels)
    ensures LabelsKey(l) == "decision=" + (l.decision + "|" + ("tenant=" + (l.tenant + SEPARATOR + l.tool)))
  {
  }

  lemma Regroup(a: string, b: string, c: string, d: string)
    ensures a + b + (c + b + d) == (a + b + c) + b + d
  {
  }

  /** How many calls carried exactly these labels. */
  function Exactly(calls: seq<Labels>, l: Labels): nat {
    if calls == [] then 0
    else Exactly(calls[..|calls| - 1], l) + if calls[|calls| - 1] == l then 1 else 0
  }

  /** The count under a key is that of the label set exactly when no other label set was counted under the key. */
  lemma {:induction false} KeyCountsAreExact(calls: seq<Labels>, l: Labels)
    ensures Exactly(calls, l) <= Occurrences(calls, LabelsKey(l))
    ensures Occurrences(calls, LabelsKey(l)) == Exactly(calls, l)
       <==> forall m :: m in calls && LabelsKey(m) == LabelsKey(l) ==> m == l
    decreases |calls|
  {
    if calls != [] {
      hide LabelsKey;
      var before, last := calls[..|calls| - 1], calls[|calls| - 1];
      KeyCountsAreExact(before, l);
      assert calls == before + [last];
    }
  }
}
