/** The audit ring of `bets/b-mcp-gateway/src/audit-export.js` and the file that it caches. */
module AuditRing {
  import opened Wrappers

  /** An audit row as far as queries look at it; `ts` is `None` when it does not parse as a time. */
  datatype Row = Row(tenantId: Option<string>, tool: Option<string>, ts: Option<int>, reason: Option<string>)

  // ----- The ring -----

  /** The last `max` rows; every row when `max` is zero. */
  function LastRows(rows: seq<Row>, max: nat): seq<Row> {
    if max > 0 && |rows| > max then rows[|rows| - max..] else rows
  }

  function PushAll(ring: seq<Row>, rows: seq<Row>, max: nat): seq<Row> {
    if rows == [] then ring
    else LastRows(PushAll(ring, rows[..|rows| - 1], max) + [rows[|rows| - 1]], max)
  }

  class Ring {
    const max: nat
    var events: seq<Row>

    /** `loadAuditRing`: the ring of a starting server holds the tail of the log file. */
    constructor (file: seq<Row>, maxEvents: nat)
      ensures max == maxEvents && events == LastRows(file, maxEvents)
    {
      max := maxEvents;
      events := if maxEvents > 0 && |file| > maxEvents then file[|file| - maxEvents..] else file;
    }

    /** `pushAuditEvent`: append, then drop from the front what exceeds the cap. */
    method Push(event: Option<Row>)
      modifies this
      ensures events == if event.None? then LastRows(old(events), max) else LastRows(old(events) + [event.value], max)
    {
      if event.Some? {
        events := events + [event.value];
      }
      if max > 0 && |events| > max {
        var excess := |events| - max;
        events := events[excess..];
      }
    }
  }

  lemma LastRowsPush(file: seq<Row>, row: Row, max: nat)
    ensures LastRows(LastRows(file, max) + [row], max) == LastRows(file + [row], max)
  {
  }

  /** Main result: a ring that was loaded from a log file and then received rows is the tail of the file
      with those rows appended. */
  lemma {:induction false} RingIsTailOfLog(file: seq<Row>, rows: seq<Row>, max: nat)
    ensures PushAll(LastRows(file, max), rows, max) == LastRows(file + rows, max)
    decreases |rows|
  {
    if rows == [] {
      assert file + rows == file;
    } else {
      var before, last := rows[..|rows| - 1], rows[|rows| - 1];
      RingIsTailOfLog(file, before, max);
      LastRowsPush(file + before, last, max);
      assert (file + before) + [last] == file + rows;
    }
  }

  // ----- Queries -----

  /** `filterAuditEvents` parameters: the empty text and `None` filter nothing. */
  datatype Query = Query(tenant: string, tool: string, since: Option<int>, until: Option<int>, limit: Option<int>)

  const MAX_LIMIT: nat := 1_000_000

  predicate Matches(q: Query, e: Row) {
    && (q.tenant != "" ==> e.tenantId == Some(q.tenant))
    && (q.tool != "" ==> e.tool == Some(q.tool))
    && (q.since.Some? ==> e.ts.Some? && e.ts.value >= q.since.value)
    && (q.until.Some? ==> e.ts.Some? && e.ts.value <= q.until.value)
  }

  function MatchesOf(q: Query, rows: seq<Row>): seq<Row> {
    if rows == [] then []
    else MatchesOf(q, rows[..|rows| - 1]) + if Matches(q, rows[|rows| - 1]) then [rows[|rows| - 1]] else []
  }

  function EffectiveLimit(limit: Option<int>): nat {
    if limit.None? || limit.value < 0 then 0
    else if limit.value > MAX_LIMIT then MAX_LIMIT else limit.value
  }

  function Answer(q: Query, rows: seq<Row>): seq<Row> {
    LastRows(MatchesOf(q, rows), EffectiveLimit(q.limit))
  }

  const ALL := Query("", "", None, None, None)

  lemma {:induction false} PassAfterPass(p: Query, q: Query, both: Query, rows: seq<Row>)
    requires forall e :: Matches(both, e) <==> Matches(p, e) && Matches(q, e)
    ensures MatchesOf(q, MatchesOf(p, rows)) == MatchesOf(both, rows)
  {
    if rows != [] {
      var before, last := rows[..|rows| - 1], rows[|rows| - 1];
      PassAfterPass(p, q, both, before);
      if Matches(p, last) {
        assert MatchesOf(p, rows)[..|MatchesOf(p, before)|] == MatchesOf(p, before);
      } else {
        assert MatchesOf(p, rows) == MatchesOf(p, before);
      }
    }
  }

  lemma {:induction false} AllMatches(rows: seq<Row>)
    ensures MatchesOf(ALL, rows) == rows
  {
    if rows != [] {
      AllMatches(rows[..|rows| - 1]);
      assert rows == rows[..|rows| - 1] + [rows[|rows| - 1]];
    }
  }

  /** One filter pass over the rows. */
  method Pass(q: Query, rows: seq<Row>) returns (kept: seq<Row>)
    ensures kept == MatchesOf(q, rows)
  {
    kept := [];
    for k := 0 to |rows|
      invariant kept == MatchesOf(q, rows[..k])
    {
      assert rows[..k + 1][..k] == rows[..k];
      if Matches(q, rows[k]) {
        kept := kept + [rows[k]];
      }
    }
    assert rows[..|rows|] == rows;
  }

  /** `filterAuditEvents`: one pass a parameter, then the limit. */
  method FilterAuditEvents(q: Query, rows: seq<Row>) returns (answer: seq<Row>)
    ensures answer == Answer(q, rows)
  {
    hide MatchesOf;
    var filtered := rows;
    AllMatches(rows);
    ghost var done := ALL;
    if q.tenant != "" {
      filtered := Pass(ALL.(tenant := q.tenant), filtered);
      PassAfterPass(done, ALL.(tenant := q.tenant), done.(tenant := q.tenant), rows);
      done := done.(tenant := q.tenant);
    }
    if q.tool != "" {
      filtered := Pass(ALL.(tool := q.tool), filtered);
      PassAfterPass(done, ALL.(tool := q.tool), done.(tool := q.tool), rows);
      done := done.(tool := q.tool);
    }
    if q.since.Some? {
      filtered := Pass(ALL.(since := q.since), filtered);
      PassAfterPass(done, ALL.(since := q.since), done.(since := q.since), rows);
      done := done.(since := q.since);
    }
    if q.until.Some? {
      filtered := Pass(ALL.(until := q.until), filtered);
      PassAfterPass(done, ALL.(until := q.until), done.(until := q.until), rows);
      done := done.(until := q.until);
    }
    SameMatches(done, q, rows);
    var n := EffectiveLimit(q.limit);
    if n > 0 && |filtered| > n {
      filtered := filtered[|filtered| - n..];
    }
    answer := filtered;
  }

  lemma {:induction false} SameMatches(p: Query, q: Query, rows: seq<Row>)
    requires p.(limit := None) == q.(limit := None)
    ensures MatchesOf(p, rows) == MatchesOf(q, rows)
  {
    if rows != [] {
      SameMatches(p, q, rows[..|rows| - 1]);
    }
  }

  lemma {:induction false} MatchesAppend(q: Query, a: seq<Row>, b: seq<Row>)
    ensures MatchesOf(q, a + b) == MatchesOf(q, a) + MatchesOf(q, b)
  {
    if b == [] {
      assert a + b == a;
    } else {
      assert (a + b)[..|a + b| - 1] == a + b[..|b| - 1];
      MatchesAppend(q, a, b[..|b| - 1]);
    }
  }

  /** Main result: for every log, cap and query, the matches in the ring are a suffix of the matches in
      the log, and the ring gives the log's answer exactly when it holds as many matches as the limit
      asks for or no match has been dropped. */
  lemma RingAnswers(q: Query, log: seq<Row>, max: nat)
    ensures var inRing, inLog := MatchesOf(q, LastRows(log, max)), MatchesOf(q, log);
            var n := EffectiveLimit(q.limit);
            && |inRing| <= |inLog| && inRing == inLog[|inLog| - |inRing|..]
            && (Answer(q, LastRows(log, max)) == Answer(q, log)
                <==> (0 < n <= |inRing|) || |inRing| == |inLog|)
  {
    var ring := LastRows(log, max);
    var dropped := log[..|log| - |ring|];
    assert log == dropped + ring;
    MatchesAppend(q, dropped, ring);
  }

  // ----- What a query asks for -----

  lemma {:induction false} MatchesMember(q: Query, rows: seq<Row>, e: Row)
    ensures e in MatchesOf(q, rows) <==> e in rows && Matches(q, e)
  {
    if rows != [] {
      var before, last := rows[..|rows| - 1], rows[|rows| - 1];
      assert rows == before + [last];
      MatchesMember(q, before, e);
    }
  }

  /** Main result: without a limit, a row of a tenant's call of a tool at a time is in the answer exactly when it
      is in the log, the tenant is the one asked for or none is, so the tool, and the time is neither before
      `since` nor after `until`; a row without tenant, tool or time never is when one is asked for. */
  lemma QueryFinds(q: Query, log: seq<Row>, e: Row)
    requires q.limit.None?
    ensures e in Answer(q, log)
       <==> && e in log
            && (q.tenant == "" || (e.tenantId.Some? && e.tenantId.value == q.tenant))
            && (q.tool == "" || (e.tool.Some? && e.tool.value == q.tool))
            && (q.since.None? || (e.ts.Some? && q.since.value <= e.ts.value))
            && (q.until.None? || (e.ts.Some? && e.ts.value <= q.until.value))
  {
    MatchesMember(q, log, e);
  }

  /** A limit from one to a million cuts the answer down to its last rows; a negative one, zero and none do not,
      and a larger one counts as a million. */
  lemma LimitKeepsLast(q: Query, log: seq<Row>)
    ensures var all, answer := Answer(q.(limit := None), log), Answer(q, log);
            if q.limit.None? || q.limit.value <= 0 then answer == all
            else
              var n := if q.limit.value <= 1_000_000 then q.limit.value else 1_000_000;
              if |all| <= n then answer == all else answer == all[|all| - n..]
  {
    SameMatches(q.(limit := None), q, log);
  }
}
