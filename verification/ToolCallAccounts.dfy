/** The counters, the audit ring and the audit file over runs of the gateway. */
module ToolCallAccounts {
  import opened Wrappers
  import opened AuditRing
  import opened Metrics
  import opened ToolCalls
  import opened ToolCallRuns

  /** The rows of tool calls: all of them, or those with one reason. */
  predicate Counts(row: Row, which: Option<string>) {
    row.tool.Some? && (which.None? || row.reason == which)
  }

  function Count(rows: seq<Row>, which: Option<string>): nat {
    if rows == [] then 0
    else Count(rows[..|rows| - 1], which) + if Counts(rows[|rows| - 1], which) then 1 else 0
  }

  lemma CountSnoc(rows: seq<Row>, row: Row, which: Option<string>)
    ensures Count(rows + [row], which) == Count(rows, which) + if Counts(row, which) then 1 else 0
    ensures Count([], which) == 0
  {
    assert (rows + [row])[..|rows|] == rows;
  }

  function DecisionOf(reason: Option<string>): string {
    if reason == Some("ok") then "allow"
    else if reason == Some("rate-limit") then "rate_limit"
    else if reason == Some("circuit_open") then "circuit_open"
    else if reason == Some("upstream_timeout") then "timeout"
    else "deny"
  }

  /** The labels under which the call of a row is counted. */
  function LabelsOf(row: Row): Labels
    requires row.tool.Some?
  {
    Labels(if row.tool.value == "" then "unknown" else row.tool.value, DecisionOf(row.reason),
           if row.tenantId.None? || row.tenantId.value == "" then "none" else row.tenantId.value)
  }

  function AllLabels(rows: seq<Row>): seq<Labels> {
    if rows == [] then []
    else AllLabels(rows[..|rows| - 1]) + if rows[|rows| - 1].tool.Some? then [LabelsOf(rows[|rows| - 1])] else []
  }

  lemma AllLabelsSnoc(rows: seq<Row>, row: Row)
    ensures AllLabels(rows + [row]) == if row.tool.Some? then AllLabels(rows) + [LabelsOf(row)] else AllLabels(rows)
    ensures AllLabels([]) == []
  {
    assert (rows + [row])[..|rows|] == rows;
    assert AllLabels(rows) + [] == AllLabels(rows);
  }

  lemma ReplaySnoc(calls: seq<Labels>, l: Labels)
    ensures Replay(calls + [l]) == Increment(Replay(calls), l) && Replay([]) == []
  {
    assert (calls + [l])[..|calls|] == calls;
  }

  lemma {:induction false} AllLabelsCounts(rows: seq<Row>)
    ensures |AllLabels(rows)| == Count(rows, None)
  {
    if rows != [] {
      AllLabelsCounts(rows[..|rows| - 1]);
    }
  }

  const RATE_LIMIT := Some("rate-limit")
  const CIRCUIT_OPEN := Some("circuit_open")
  const UPSTREAM_TIMEOUT := Some("upstream_timeout")

  /** The counters are those of the rows recorded so far, and the ring is their tail. */
  ghost predicate CountersMatch(start: Start, c: Counters, rows: seq<Row>) {
    && c.toolCalls == Replay(AllLabels(rows))
    && c.rateLimited == Count(rows, RATE_LIMIT)
    && c.circuitOpen == Count(rows, CIRCUIT_OPEN)
    && c.upstreamTimeout == Count(rows, UPSTREAM_TIMEOUT)
    && c.auditEvents == |LastRows(start.file + rows, start.auditMax)|
  }

  ghost predicate FileMatches(start: Start, file: seq<Row>, rows: seq<Row>, lost: seq<Row>, which: Option<string>) {
    && Count(file, which) + Count(lost, which) == Count(start.file, which) + Count(rows, which)
    && (lost == [] ==> file == start.file + rows)
  }

  ghost predicate Accounted(start: Start, w: World) {
    && w.g.auditMax == start.auditMax
    && w.g.ring == LastRows(start.file + w.rows, start.auditMax)
    && CountersMatch(start, w.g.counters, w.rows)
  }

  /** The state that a step leaves for accounting: unchanged, or one row further. */
  function CountersAfter(c: Counters, row: Row, events: nat): Counters {
    var counted := if row.tool.Some? then c.(toolCalls := Increment(c.toolCalls, LabelsOf(row))) else c;
    counted.(
      rateLimited := c.rateLimited + if Counts(row, RATE_LIMIT) then 1 else 0,
      circuitOpen := c.circuitOpen + if Counts(row, CIRCUIT_OPEN) then 1 else 0,
      upstreamTimeout := c.upstreamTimeout + if Counts(row, UPSTREAM_TIMEOUT) then 1 else 0,
      auditEvents := events)
  }

  predicate OneRowOn(g: Gateway, g': Gateway, row: Row, writes: bool) {
    && g'.auditMax == g.auditMax
    && g'.ring == LastRows(g.ring + [row], g.auditMax)
    && g'.counters == CountersAfter(g.counters, row, |g'.ring|)
    && g'.file == if writes then g.file + [row] else g.file
  }

  predicate NoRowOn(g: Gateway, g': Gateway) {
    g'.auditMax == g.auditMax && g'.ring == g.ring && g'.counters == g.counters && g'.file == g.file
  }

  lemma AccountIsOneRow(g: Gateway, call: Call, reason: Reason, now: int, writes: bool)
    ensures OneRowOn(g, AccountStep(g, call, reason, now, writes), RowFor(call.tenantId, call.tool, reason, now),
                     writes)
  {
    hide LastRows, Increment;
  }

  lemma BeginRows(g: Gateway, id: nat, tenant: Option<Tenant>, tool: string, now: int, writes: bool)
    ensures var g', ruling := BeginStep(g, id, tenant, tool, now, writes).0, Gates(g, tenant, tool, now).1;
            if ruling.Refused? then OneRowOn(g, g', RowFor(IdOf(tenant), tool, ruling.reason, now), writes)
            else NoRowOn(g, g')
  {
    hide Gates, AccountStep, CountersAfter, LastRows, RowFor;
    var (after, ruling) := Gates(g, tenant, tool, now);
    GatesFrame(g, tenant, tool, now);
    if ruling.Refused? {
      AccountIsOneRow(after, Call(IdOf(tenant), tool, false), ruling.reason, now, writes);
    }
  }

  lemma EndRows(g: Gateway, id: nat, outcome: Outcome, now: int, writes: bool)
    requires id in g.calls
    ensures var g', reason := EndStep(g, id, outcome, now, writes).0, EndReason(g.calls[id], outcome);
            if reason.Some? then
              OneRowOn(g, g', RowFor(g.calls[id].tenantId, g.calls[id].tool, reason.value, now), writes)
            else NoRowOn(g, g')
  {
    hide AccountStep, CountersAfter, LastRows, RowFor, RecordStep;
    var call := g.calls[id];
    var after := g.(calls := g.calls - {id},
                    breaker := if call.proxied then RecordStep(g.breaker, outcome, now) else g.breaker);
    if EndReason(call, outcome).Some? {
      AccountIsOneRow(after, call, EndReason(call, outcome).value, now, writes);
    }
  }

  lemma StepRows(w: World, s: Step)
    ensures var g' := Next(w, s).g;
            if Recorded(w.g, s).Some? then OneRowOn(w.g, g', Recorded(w.g, s).value, Writes(s)) else NoRowOn(w.g, g')
  {
    hide BeginStep, EndStep, Gates, EndReason, LastRows, RowFor, Passing;
    match s
    case Begin(tenant, tool, now, writes) => BeginRows(w.g, w.next, tenant, tool, now, writes);
    case End(call, outcome, now, writes) =>
      if call in w.g.calls {
        EndRows(w.g, call, outcome, now, writes);
      }
    case _ =>
  }

  lemma CountersNext(start: Start, c: Counters, rows: seq<Row>, row: Row)
    requires CountersMatch(start, c, rows)
    ensures var events := |LastRows(start.file + (rows + [row]), start.auditMax)|;
            CountersMatch(start, CountersAfter(c, row, events), rows + [row])
  {
    hide Count, AllLabels, Replay, LastRows, LabelsOf, Increment;
    CountSnoc(rows, row, RATE_LIMIT);
    CountSnoc(rows, row, CIRCUIT_OPEN);
    CountSnoc(rows, row, UPSTREAM_TIMEOUT);
    AllLabelsSnoc(rows, row);
    if row.tool.Some? {
      ReplaySnoc(AllLabels(rows), LabelsOf(row));
    }
  }

  lemma AccountedNext(start: Start, w: World, s: Step)
    requires Accounted(start, w)
    ensures Accounted(start, Next(w, s))
  {
    hide Apply, Recorded, Passing, CountersMatch, CountersAfter, LastRows, Writes;
    StepRows(w, s);
    var row := Recorded(w.g, s);
    assert Next(w, s).rows == w.rows + AsSeq(row);
    if row.Some? {
      LastRowsPush(start.file + w.rows, row.value, start.auditMax);
      assert (start.file + w.rows) + [row.value] == start.file + (w.rows + [row.value]);
      CountersNext(start, w.g.counters, w.rows, row.value);
    } else {
      assert w.rows + [] == w.rows;
    }
  }

  lemma FileNext(start: Start, w: World, s: Step, which: Option<string>)
    requires FileMatches(start, w.g.file, w.rows, w.lost, which)
    ensures FileMatches(start, Next(w, s).g.file, Next(w, s).rows, Next(w, s).lost, which)
  {
    hide Apply, Recorded, Passing, CountersAfter, LastRows, Writes, Count;
    StepRows(w, s);
    var row := Recorded(w.g, s);
    if row.Some? {
      CountSnoc(w.rows, row.value, which);
      CountSnoc(w.lost, row.value, which);
      CountSnoc(w.g.file, row.value, which);
      assert (start.file + w.rows) + [row.value] == start.file + (w.rows + [row.value]);
    } else {
      assert w.rows + [] == w.rows && w.lost + [] == w.lost;
    }
  }

  lemma {:induction false} RunAccounted(start: Start, steps: seq<Step>, which: Option<string>)
    ensures var w := Run(Fresh(start), steps);
            Accounted(start, w) && FileMatches(start, w.g.file, w.rows, w.lost, which)
    decreases |steps|
  {
    if steps == [] {
      assert start.file + [] == start.file;
    } else {
      hide *;
      RunStep(Fresh(start), steps);
      RunAccounted(start, steps[..|steps| - 1], which);
      AccountedNext(start, Run(Fresh(start), steps[..|steps| - 1]), steps[|steps| - 1]);
      FileNext(start, Run(Fresh(start), steps[..|steps| - 1]), steps[|steps| - 1], which);
    }
  }

  /** Main result: in every run the counters and the audit file differ by exactly the rows whose write
      failed: the sum of `tool_calls_total` is the number of tool-call rows written since the start plus
      the lost ones, and so for each reason that has a counter of its own. */
  lemma CountersAgreeWithFile(start: Start, steps: seq<Step>)
    ensures var w := Run(Fresh(start), steps);
            var (c, file) := (w.g.counters, w.g.file);
            && Total(c.toolCalls) + Count(start.file, None) == Count(file, None) + Count(w.lost, None)
            && c.rateLimited + Count(start.file, RATE_LIMIT) == Count(file, RATE_LIMIT) + Count(w.lost, RATE_LIMIT)
            && c.circuitOpen + Count(start.file, CIRCUIT_OPEN)
               == Count(file, CIRCUIT_OPEN) + Count(w.lost, CIRCUIT_OPEN)
            && c.upstreamTimeout + Count(start.file, UPSTREAM_TIMEOUT)
               == Count(file, UPSTREAM_TIMEOUT) + Count(w.lost, UPSTREAM_TIMEOUT)
  {
    hide Run, Fresh, Count, Replay, AllLabels, LastRows;
    RunAccounted(start, steps, None);
    RunAccounted(start, steps, RATE_LIMIT);
    RunAccounted(start, steps, CIRCUIT_OPEN);
    RunAccounted(start, steps, UPSTREAM_TIMEOUT);
    var w := Run(Fresh(start), steps);
    ReplayCounts(AllLabels(w.rows), "");
    AllLabelsCounts(w.rows);
  }

  /** Main result: as long as every audit write succeeds, the ring is the tail of the file, and the gauge
      is its length. */
  lemma RingCachesFile(start: Start, steps: seq<Step>)
    requires Run(Fresh(start), steps).lost == []
    ensures var g := Run(Fresh(start), steps).g;
            && g.ring == LastRows(g.file, start.auditMax) && g.counters.auditEvents == |g.ring|
            && start.file <= g.file
  {
    hide Run, Fresh, Count, Replay, AllLabels, LastRows;
    RunAccounted(start, steps, None);
  }

  // ----- Single labels -----

  ghost predicate PlainTenants(rows: seq<Row>) {
    forall i :: 0 <= i < |rows| && rows[i].tenantId.Some? ==> PlainTenant(rows[i].tenantId.value)
  }

  /** A recorded call with other labels that is counted under the same key. */
  ghost predicate CountedFor(rows: seq<Row>, i: int, l: Labels) {
    0 <= i < |rows| && rows[i].tool.Some? && LabelsOf(rows[i]) != l && LabelsKey(LabelsOf(rows[i])) == LabelsKey(l)
  }

  lemma DecisionsHaveNoBar(reason: Option<string>)
    ensures DecisionOf(reason) != "" && NoBar(DecisionOf(reason))
  {
  }

  lemma LabelsAreStored(row: Row)
    requires row.tool.Some?
    ensures Stored(LabelsOf(row))
    ensures (row.tenantId.Some? ==> PlainTenant(row.tenantId.value)) ==> PlainTenant(LabelsOf(row).tenant)
  {
    hide DecisionOf, NoBar;
    DecisionsHaveNoBar(row.reason);
  }

  predicate LabelledBy(rows: seq<Row>, i: int, m: Labels) {
    0 <= i < |rows| && rows[i].tool.Some? && LabelsOf(rows[i]) == m
  }

  /** The counted label sets are those of the recorded calls. */
  lemma {:induction false} LabelsOfRows(rows: seq<Row>, m: Labels)
    ensures m in AllLabels(rows) <==> exists i :: LabelledBy(rows, i, m)
  {
    if rows != [] {
      hide LabelsOf;
      var before, last := rows[..|rows| - 1], rows[|rows| - 1];
      LabelsOfRows(before, m);
      if i :| LabelledBy(before, i, m) {
        assert LabelledBy(rows, i, m);
      }
      if i :| LabelledBy(rows, i, m) {
        assert i == |before| || LabelledBy(before, i, m);
      }
      if last.tool.Some? && LabelsOf(last) == m {
        assert LabelledBy(rows, |before|, m);
      }
    }
  }

  lemma SharersAreRecorded(rows: seq<Row>, l: Labels)
    ensures (exists m :: m in AllLabels(rows) && LabelsKey(m) == LabelsKey(l) && m != l)
       <==> exists i :: CountedFor(rows, i, l)
  {
    hide LabelsOf, LabelsKey, AllLabels;
    if m :| m in AllLabels(rows) && LabelsKey(m) == LabelsKey(l) && m != l {
      LabelsOfRows(rows, m);
      var i :| LabelledBy(rows, i, m);
      assert CountedFor(rows, i, l);
    }
    if i :| CountedFor(rows, i, l) {
      assert LabelledBy(rows, i, LabelsOf(rows[i]));
      LabelsOfRows(rows, LabelsOf(rows[i]));
    }
  }

  /** Who shares a key with whom: nobody with an unambiguous label set, and plain tenants not with one another. */
  lemma NobodyShares(rows: seq<Row>, i: int, l: Labels)
    requires Stored(l) && CountedFor(rows, i, l)
    ensures !PlainTenant(l.tenant) || !PlainTool(l.tool)
    ensures !PlainTenant(l.tenant) || !PlainTenants(rows)
  {
    hide LabelsOf, LabelsKey, PlainTenant, PlainTool;
    LabelsAreStored(rows[i]);
    SharingCuts(l, LabelsOf(rows[i]));
  }

  /** Main result: in every run the count under a label set is the number of recorded calls with these labels
      exactly when no recorded call with other labels has the same key. So it is when the text `|tool=` stands
      neither in the tenant behind its start nor in the tool before its end, whatever else was recorded, and
      when it stands neither in this tenant nor in one of the run behind its start. */
  lemma LabelCountsAreExact(start: Start, steps: seq<Step>, l: Labels)
    requires Stored(l)
    ensures var w := Run(Fresh(start), steps);
            var exact := CountAt(w.g.counters.toolCalls, LabelsKey(l)) == Exactly(AllLabels(w.rows), l);
            && (exact <==> !exists i :: CountedFor(w.rows, i, l))
            && (PlainTenant(l.tenant) && PlainTool(l.tool) ==> exact)
            && (PlainTenant(l.tenant) && PlainTenants(w.rows) ==> exact)
  {
    hide *;
    RunAccounted(start, steps, None);
    var w := Run(Fresh(start), steps);
    ToolCallsAreReplay(start, w);
    ReplayCounts(AllLabels(w.rows), LabelsKey(l));
    KeyCountsAreExact(AllLabels(w.rows), l);
    SharersAreRecorded(w.rows, l);
    if i :| CountedFor(w.rows, i, l) {
      NobodyShares(w.rows, i, l);
    }
  }

  lemma ToolCallsAreReplay(start: Start, w: World)
    requires Accounted(start, w)
    ensures w.g.counters.toolCalls == Replay(AllLabels(w.rows))
  {
    hide Replay, AllLabels, Count, LastRows;
  }
}
