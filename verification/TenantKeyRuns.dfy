/** Runs of key rotations against the history of issued keys. */
module TenantKeyRuns {
  import opened Wrappers
  import opened TenantKeys

  /** A key that a tenant got, and until when the key before it keeps working, if at all. */
  datatype Issue = Issue(tenant: nat, key: string, graceEnds: Option<int>)

  datatype Rotation = Rotation(id: string, draws: Draws, graceSec: nat, now: int)

  /** The old key that a tenant still has, with the end of its grace time. */
  function OldKey(t: Tenant): Option<(string, int)> {
    if t.previousApiKey != "" && t.expiresAt.Some? then Some((t.previousApiKey, t.expiresAt.value)) else None
  }

  /** A loaded configuration counts as a history: a tenant's old key was issued before its current one. */
  function FirstIssues(p: nat, t: Tenant): seq<Issue> {
    match OldKey(t)
    case Some((key, ends)) => [Issue(p, key, None), Issue(p, t.apiKey, Some(ends))]
    case None => [Issue(p, t.apiKey, None)]
  }

  function LoadedLog(tenants: seq<Tenant>): seq<Issue> {
    if tenants == [] then []
    else LoadedLog(tenants[..|tenants| - 1]) + FirstIssues(|tenants| - 1, tenants[|tenants| - 1])
  }

  function Run(tenants: seq<Tenant>, rotations: seq<Rotation>): seq<Tenant> {
    if rotations == [] then tenants
    else
      var r := rotations[|rotations| - 1];
      RotateStep(Run(tenants, rotations[..|rotations| - 1]), r.id, r.draws, r.graceSec, r.now).0
  }

  // ----- The specification: what the history says -----

  /** The keys of one tenant, oldest first. */
  function IssuesOf(log: seq<Issue>, p: nat): seq<Issue> {
    if log == [] then []
    else IssuesOf(log[..|log| - 1], p) + if log[|log| - 1].tenant == p then [log[|log| - 1]] else []
  }

  /** The key that a rotation hands out: the first one drawn, if there is one and it is not the old key; else the
      next one that is not the old key; else the third. */
  function Drawn(used: string, draws: Draws): string {
    if draws.first != "" && draws.first != used then draws.first
    else if draws.second != used then draws.second
    else draws.third
  }

  function LastKey(mine: seq<Issue>): string {
    if mine == [] then "" else mine[|mine| - 1].key
  }

  /** The keys that were issued: those of the loaded configuration, then one a rotation of a known tenant. */
  function Issued(tenants: seq<Tenant>, rotations: seq<Rotation>): seq<Issue> {
    if rotations == [] then LoadedLog(tenants)
    else
      var log, r := Issued(tenants, rotations[..|rotations| - 1]), rotations[|rotations| - 1];
      match if r.id == "" then None else FindById(tenants, r.id)
      case None => log
      case Some(p) =>
        log + [Issue(p, Drawn(LastKey(IssuesOf(log, p)), r.draws),
                     if r.graceSec > 0 then Some(r.now + r.graceSec * 1000) else None)]
  }

  /** The `i`-th key works: it is the current one, or the one before, in its grace time. */
  predicate Works(mine: seq<Issue>, i: nat, now: int)
    requires i < |mine|
  {
    || i + 1 == |mine|
    || (i + 2 == |mine| && mine[i + 1].graceEnds.Some? && now < mine[i + 1].graceEnds.value)
  }

  ghost predicate Holds(mine: seq<Issue>, key: string, now: int) {
    exists i :: 0 <= i < |mine| && mine[i].key == key && Works(mine, i, now)
  }

  /** No key is handed out twice; tenants without a key have the empty text. */
  ghost predicate FreshKeys(log: seq<Issue>) {
    forall i, j :: 0 <= i < j < |log| && log[i].key != "" ==> log[i].key != log[j].key
  }

  // ----- Refinement -----

  function OldOf(mine: seq<Issue>): Option<(string, int)> {
    var n := |mine|;
    if n >= 2 && mine[n - 2].key != "" && mine[n - 1].graceEnds.Some? then
      Some((mine[n - 2].key, mine[n - 1].graceEnds.value))
    else None
  }

  ghost predicate Matches(t: Tenant, mine: seq<Issue>) {
    mine != [] && mine[|mine| - 1].key == t.apiKey && OldKey(t) == OldOf(mine)
  }

  ghost predicate Faithful(tenants: seq<Tenant>, log: seq<Issue>) {
    forall p :: 0 <= p < |tenants| ==> Matches(tenants[p], IssuesOf(log, p))
  }

  lemma IssuesSnoc(log: seq<Issue>, e: Issue, p: nat)
    ensures IssuesOf(log + [e], p) == if e.tenant == p then IssuesOf(log, p) + [e] else IssuesOf(log, p)
    ensures IssuesOf([], p) == []
  {
    assert (log + [e])[..|log|] == log;
    assert IssuesOf(log, p) + [] == IssuesOf(log, p);
  }

  lemma IssuesOfFirst(log: seq<Issue>, q: nat, t: Tenant, p: nat)
    ensures IssuesOf(log + FirstIssues(q, t), p)
         == if q == p then IssuesOf(log, p) + FirstIssues(q, t) else IssuesOf(log, p)
  {
    hide IssuesOf;
    var f := FirstIssues(q, t);
    if |f| == 2 {
      assert log + f == (log + [f[0]]) + [f[1]];
      IssuesSnoc(log, f[0], p);
      IssuesSnoc(log + [f[0]], f[1], p);
    } else {
      IssuesSnoc(log, f[0], p);
    }
  }

  lemma {:induction false} LoadedIssues(tenants: seq<Tenant>, p: nat)
    ensures IssuesOf(LoadedLog(tenants), p) == if p < |tenants| then FirstIssues(p, tenants[p]) else []
  {
    if tenants != [] {
      hide IssuesOf, FirstIssues;
      var before := tenants[..|tenants| - 1];
      LoadedIssues(before, p);
      IssuesOfFirst(LoadedLog(before), |before|, tenants[|before|], p);
    }
  }

  lemma LoadedIsFaithful(tenants: seq<Tenant>)
    ensures Faithful(tenants, LoadedLog(tenants))
  {
    hide IssuesOf, LoadedLog, Matches;
    forall p: nat | p < |tenants| ensures Matches(tenants[p], IssuesOf(LoadedLog(tenants), p)) {
      LoadedIssues(tenants, p);
      FirstMatches(p, tenants[p]);
    }
  }

  lemma FirstMatches(p: nat, t: Tenant)
    ensures Matches(t, FirstIssues(p, t))
  {
  }

  lemma RotatedMatches(t: Tenant, mine: seq<Issue>, p: nat, r: Rotation)
    requires Matches(t, mine)
    ensures var ends := if r.graceSec > 0 then Some(r.now + r.graceSec * 1000) else None;
            Matches(Rotated(t, r.draws, r.graceSec, r.now), mine + [Issue(p, Drawn(LastKey(mine), r.draws), ends)])
  {
    hide Token;
    TokenIsDrawn(t.apiKey, r.draws);
  }

  lemma TokenIsDrawn(used: string, draws: Draws)
    ensures Token(used, draws) == Drawn(used, draws)
  {
  }

  ghost predicate SameIds(a: seq<Tenant>, b: seq<Tenant>) {
    |a| == |b| && forall p :: 0 <= p < |a| ==> a[p].id == b[p].id
  }

  lemma {:induction false} SamePlaces(a: seq<Tenant>, b: seq<Tenant>, id: string)
    requires SameIds(a, b)
    ensures FindById(a, id) == FindById(b, id)
  {
    if a != [] {
      SamePlaces(a[..|a| - 1], b[..|b| - 1], id);
    }
  }

  lemma RotateKeepsIds(tenants: seq<Tenant>, r: Rotation)
    ensures SameIds(RotateStep(tenants, r.id, r.draws, r.graceSec, r.now).0, tenants)
  {
    hide Token;
    FindByIdInRange(tenants, r.id);
  }

  lemma SameIdsTrans(a: seq<Tenant>, b: seq<Tenant>, c: seq<Tenant>)
    requires SameIds(a, b) && SameIds(b, c)
    ensures SameIds(a, c)
  {
  }

  /** One rotation: the tenant with the id follows its history by one more key, the others stay. */
  lemma RotateIsFaithful(tenants: seq<Tenant>, log: seq<Issue>, r: Rotation, p: nat)
    requires Faithful(tenants, log) && r.id != "" && FindById(tenants, r.id) == Some(p)
    ensures var ends := if r.graceSec > 0 then Some(r.now + r.graceSec * 1000) else None;
            Faithful(RotateStep(tenants, r.id, r.draws, r.graceSec, r.now).0,
                     log + [Issue(p, Drawn(LastKey(IssuesOf(log, p)), r.draws), ends)])
  {
    hide IssuesOf, Matches, Rotated, Token, Drawn, LastKey;
    FindByIdInRange(tenants, r.id);
    var ends := if r.graceSec > 0 then Some(r.now + r.graceSec * 1000) else None;
    var issue := Issue(p, Drawn(LastKey(IssuesOf(log, p)), r.draws), ends);
    var after := RotateStep(tenants, r.id, r.draws, r.graceSec, r.now).0;
    forall q: nat | q < |tenants| ensures Matches(after[q], IssuesOf(log + [issue], q)) {
      IssuesSnoc(log, issue, q);
      if q == p {
        RotatedMatches(tenants[p], IssuesOf(log, p), p, r);
      }
    }
  }

  lemma RunStep(tenants: seq<Tenant>, rotations: seq<Rotation>)
    requires rotations != []
    ensures var before, r := rotations[..|rotations| - 1], rotations[|rotations| - 1];
            Run(tenants, rotations) == RotateStep(Run(tenants, before), r.id, r.draws, r.graceSec, r.now).0
  {
    hide RotateStep;
  }

  lemma IssuedStep(tenants: seq<Tenant>, rotations: seq<Rotation>)
    requires rotations != []
    ensures var log, r := Issued(tenants, rotations[..|rotations| - 1]), rotations[|rotations| - 1];
            Issued(tenants, rotations) ==
            match if r.id == "" then None else FindById(tenants, r.id)
            case None => log
            case Some(p) =>
              log + [Issue(p, Drawn(LastKey(IssuesOf(log, p)), r.draws),
                           if r.graceSec > 0 then Some(r.now + r.graceSec * 1000) else None)]
  {
    hide FindById, Drawn, LastKey, IssuesOf, LoadedLog;
  }

  lemma UnknownChangesNothing(tenants: seq<Tenant>, r: Rotation)
    requires r.id == "" || FindById(tenants, r.id).None?
    ensures RotateStep(tenants, r.id, r.draws, r.graceSec, r.now) == (tenants, None)
  {
    hide FindById, Rotated;
  }

  lemma NothingRotated(tenants: seq<Tenant>)
    ensures Run(tenants, []) == tenants && Issued(tenants, []) == LoadedLog(tenants) && SameIds(tenants, tenants)
  {
  }

  lemma {:induction false} RunIsFaithful(tenants: seq<Tenant>, rotations: seq<Rotation>)
    ensures Faithful(Run(tenants, rotations), Issued(tenants, rotations)) && SameIds(Run(tenants, rotations), tenants)
    decreases |rotations|
  {
    hide *;
    if rotations == [] {
      NothingRotated(tenants);
      LoadedIsFaithful(tenants);
    } else {
      var before, r := rotations[..|rotations| - 1], rotations[|rotations| - 1];
      var now := Run(tenants, before);
      RunIsFaithful(tenants, before);
      RunStep(tenants, rotations);
      IssuedStep(tenants, rotations);
      SamePlaces(now, tenants, r.id);
      RotateKeepsIds(now, r);
      SameIdsTrans(Run(tenants, rotations), now, tenants);
      if r.id != "" && FindById(now, r.id).Some? {
        RotateIsFaithful(now, Issued(tenants, before), r, FindById(now, r.id).value);
      } else {
        UnknownChangesNothing(now, r);
      }
    }
  }

  /** Main result: a rotation, after any run, concerns the first tenant with the id. It installs and returns the
      first key drawn unless there is none or it is the key in use; then the second unless it is the key in
      use; then the third. The key in use becomes the previous one for the grace time, if both exist. Nothing
      else in the list changes. */
  lemma RotationIssues(tenants: seq<Tenant>, rotations: seq<Rotation>, r: Rotation, p: nat)
    requires r.id != "" && p < |tenants| && tenants[p].id == r.id && forall q :: 0 <= q < p ==> tenants[q].id != r.id
    ensures var before := Run(tenants, rotations);
            var (after, token) := RotateStep(before, r.id, r.draws, r.graceSec, r.now);
            && |after| == |before| == |tenants|
            && (forall q :: 0 <= q < |tenants| && q != p ==> after[q] == before[q])
            && token == Some(after[p].apiKey)
            && var (used, d) := (before[p].apiKey, r.draws);
               && after[p].apiKey == (if d.first != "" && d.first != used then d.first
                                      else if d.second != used then d.second else d.third)
               && (if used != "" && r.graceSec > 0 then
                     after[p].previousApiKey == used && after[p].expiresAt == Some(r.now + 1000 * r.graceSec)
                   else after[p].previousApiKey == "" && after[p].expiresAt == None)
  {
    hide Run, FindById;
    RunIsFaithful(tenants, rotations);
    SamePlaces(Run(tenants, rotations), tenants, r.id);
    FindByIdInRange(tenants, r.id);
    RotatedKey(Run(tenants, rotations)[p], r);
  }

  lemma RotatedKey(t: Tenant, r: Rotation)
    ensures var after := Rotated(t, r.draws, r.graceSec, r.now);
            && after.apiKey == Token(t.apiKey, r.draws) == Drawn(t.apiKey, r.draws)
            && (if t.apiKey != "" && r.graceSec > 0 then
                  after.previousApiKey == t.apiKey && after.expiresAt == Some(r.now + 1000 * r.graceSec)
                else after.previousApiKey == "" && after.expiresAt == None)
  {
  }

  /** An id that no tenant has, or none, changes nothing and gets no key. */
  lemma UnknownIsRefused(tenants: seq<Tenant>, rotations: seq<Rotation>, r: Rotation)
    requires r.id == "" || forall q :: 0 <= q < |tenants| ==> tenants[q].id != r.id
    ensures var before := Run(tenants, rotations);
            RotateStep(before, r.id, r.draws, r.graceSec, r.now) == (before, None)
  {
    hide Run, FindById, RotateStep;
    RunIsFaithful(tenants, rotations);
    SamePlaces(Run(tenants, rotations), tenants, r.id);
    FindByIdInRange(tenants, r.id);
    UnknownChangesNothing(Run(tenants, rotations), r);
  }

  // ----- Fresh inputs -----

  /** The keys of the configuration. */
  function LoadedKeys(tenants: seq<Tenant>): seq<string> {
    Keys(LoadedLog(tenants))
  }

  function Keys(log: seq<Issue>): seq<string> {
    if log == [] then [] else Keys(log[..|log| - 1]) + [log[|log| - 1].key]
  }

  function FirstDraws(rotations: seq<Rotation>): seq<string> {
    if rotations == [] then []
    else FirstDraws(rotations[..|rotations| - 1]) + [rotations[|rotations| - 1].draws.first]
  }

  /** The generator yields a key each time, none twice and none of the loaded ones, among which none occurs twice. */
  ghost predicate FreshInputs(tenants: seq<Tenant>, rotations: seq<Rotation>) {
    && (forall i :: 0 <= i < |rotations| ==> rotations[i].draws.first != "")
    && Apart(LoadedKeys(tenants) + FirstDraws(rotations))
  }

  ghost predicate Apart(keys: seq<string>) {
    forall i, j :: 0 <= i < j < |keys| && keys[i] != "" ==> keys[i] != keys[j]
  }

  lemma {:induction false} KeysOfLog(log: seq<Issue>)
    ensures |Keys(log)| == |log| && forall i :: 0 <= i < |log| ==> Keys(log)[i] == log[i].key
  {
    if log != [] {
      KeysOfLog(log[..|log| - 1]);
    }
  }

  lemma LastKeyIsLogged(log: seq<Issue>, p: nat)
    ensures var key := LastKey(IssuesOf(log, p)); key == "" || exists i :: 0 <= i < |log| && log[i].key == key
  {
    hide IssuesOf;
    var mine := IssuesOf(log, p);
    IssuesAreLogged(log, p);
    if mine != [] {
      var i :| 0 <= i < |log| && log[i] == mine[|mine| - 1];
    }
  }

  lemma ApartParts(a: seq<string>, b: seq<string>, last: string)
    requires Apart(a + (b + [last])) && last != ""
    ensures Apart(a + b) && last !in a + b
  {
    var all := a + (b + [last]);
    assert all == (a + b) + [last];
    assert forall i :: 0 <= i < |a + b| ==> all[i] == (a + b)[i];
    assert all[|a + b|] == last;
  }

  /** With such inputs no key is issued twice. */
  lemma {:induction false} FreshInputsIssueFreshKeys(tenants: seq<Tenant>, rotations: seq<Rotation>)
    requires FreshInputs(tenants, rotations)
    ensures var log := Issued(tenants, rotations);
            && FreshKeys(log)
            && forall i :: 0 <= i < |log| ==> log[i].key in LoadedKeys(tenants) + FirstDraws(rotations)
    decreases |rotations|
  {
    var loaded := LoadedKeys(tenants);
    if rotations == [] {
      KeysOfLog(LoadedLog(tenants));
      assert loaded + FirstDraws(rotations) == loaded;
    } else {
      hide LoadedLog, IssuesOf, FindById, Keys, Apart, LastKey;
      var before, r := rotations[..|rotations| - 1], rotations[|rotations| - 1];
      var log := Issued(tenants, before);
      ApartParts(loaded, FirstDraws(before), r.draws.first);
      FreshInputsIssueFreshKeys(tenants, before);
      if r.id != "" && FindById(tenants, r.id).Some? {
        LastKeyIsLogged(log, FindById(tenants, r.id).value);
        OneMoreFresh(log, Issued(tenants, rotations)[|log|]);
      }
    }
  }

  lemma OneMoreFresh(log: seq<Issue>, e: Issue)
    requires FreshKeys(log) && forall i :: 0 <= i < |log| ==> log[i].key != e.key
    ensures FreshKeys(log + [e])
  {
  }

  lemma OpensIsHolds(t: Tenant, mine: seq<Issue>, key: string, now: int)
    requires Matches(t, mine) && key != ""
    ensures Opens(t, key, now) <==> Holds(mine, key, now)
  {
    var n := |mine|;
    if Opens(t, key, now) {
      if t.apiKey == key {
        assert Works(mine, n - 1, now);
      } else {
        assert Works(mine, n - 2, now);
      }
    }
  }

  // ----- One owner a key -----

  lemma {:induction false} IssuesAreLogged(log: seq<Issue>, p: nat)
    ensures forall i :: 0 <= i < |IssuesOf(log, p)| ==> IssuesOf(log, p)[i] in log && IssuesOf(log, p)[i].tenant == p
    ensures FreshKeys(log) ==> FreshKeys(IssuesOf(log, p))
  {
    if log != [] {
      var before, last := log[..|log| - 1], log[|log| - 1];
      assert log == before + [last];
      IssuesAreLogged(before, p);
      if FreshKeys(log) {
        forall i | 0 <= i < |IssuesOf(before, p)| && IssuesOf(before, p)[i].key != ""
          ensures IssuesOf(before, p)[i].key != last.key
        {
          var k :| 0 <= k < |before| && before[k] == IssuesOf(before, p)[i];
          assert log[k].key != log[|log| - 1].key;
        }
      }
    }
  }

  lemma HoldersAgree(log: seq<Issue>, key: string, now: int, p: nat, q: nat)
    requires FreshKeys(log) && key != "" && Holds(IssuesOf(log, p), key, now) && Holds(IssuesOf(log, q), key, now)
    ensures p == q
  {
    hide IssuesOf, Works;
    IssuesAreLogged(log, p);
    IssuesAreLogged(log, q);
    var i :| 0 <= i < |IssuesOf(log, p)| && IssuesOf(log, p)[i].key == key;
    var j :| 0 <= j < |IssuesOf(log, q)| && IssuesOf(log, q)[j].key == key;
    var a :| 0 <= a < |log| && log[a] == IssuesOf(log, p)[i];
    var b :| 0 <= b < |log| && log[b] == IssuesOf(log, q)[j];
    assert a == b;
  }

  lemma {:induction false} FindIsFirst(tenants: seq<Tenant>, key: string, now: int)
    requires key != ""
    ensures var found := Find(tenants, key, now);
            if found.Some? then found.value < |tenants| && Opens(tenants[found.value], key, now)
            else forall p :: 0 <= p < |tenants| ==> !Opens(tenants[p], key, now)
  {
    hide Opens;
    if tenants != [] {
      FindIsFirst(tenants[..|tenants| - 1], key, now);
    }
  }

  /** Main result: after any rotations a key finds a tenant exactly when the history of that tenant says that
      the key works: it is the last one issued to it, or the one before, and the grace time of the rotation
      that replaced it is not over. Only what was drawn is assumed to be fresh. */
  lemma FindsByHistory(tenants: seq<Tenant>, rotations: seq<Rotation>, key: string, now: int, p: nat)
    requires FreshKeys(Issued(tenants, rotations)) && key != "" && p < |tenants|
    ensures Find(Run(tenants, rotations), key, now) == Some(p)
       <==> Holds(IssuesOf(Issued(tenants, rotations), p), key, now)
  {
    hide *;
    RunIsFaithful(tenants, rotations);
    SameLength(Run(tenants, rotations), tenants);
    FindsInState(Run(tenants, rotations), Issued(tenants, rotations), key, now, p);
  }

  lemma SameLength(a: seq<Tenant>, b: seq<Tenant>)
    requires SameIds(a, b)
    ensures |a| == |b|
  {
  }

  lemma FindsInState(tenants: seq<Tenant>, log: seq<Issue>, key: string, now: int, p: nat)
    requires Faithful(tenants, log) && FreshKeys(log) && key != "" && p < |tenants|
    ensures Find(tenants, key, now) == Some(p) <==> Holds(IssuesOf(log, p), key, now)
  {
    hide Find, Opens, Matches, IssuesOf, Holds, FreshKeys;
    FindIsFirst(tenants, key, now);
    OpensIsHolds(tenants[p], IssuesOf(log, p), key, now);
    var found := Find(tenants, key, now);
    if found.Some? {
      OpensIsHolds(tenants[found.value], IssuesOf(log, found.value), key, now);
      if Holds(IssuesOf(log, p), key, now) {
        HoldersAgree(log, key, now, p, found.value);
      }
    }
  }

  ghost predicate Extends(log: seq<Issue>, longer: seq<Issue>) {
    |log| <= |longer| && forall i :: 0 <= i < |log| ==> longer[i] == log[i]
  }

  lemma {:induction false} LogGrows(tenants: seq<Tenant>, rotations: seq<Rotation>, a: nat)
    requires a <= |rotations|
    ensures Extends(Issued(tenants, rotations[..a]), Issued(tenants, rotations))
    decreases |rotations|
  {
    hide LoadedLog, IssuesOf, Drawn, LastKey;
    if a == |rotations| {
      assert rotations[..a] == rotations;
    } else {
      var before := rotations[..|rotations| - 1];
      assert before[..a] == rotations[..a];
      LogGrows(tenants, before, a);
    }
  }

  lemma FreshBefore(log: seq<Issue>, longer: seq<Issue>)
    requires Extends(log, longer) && FreshKeys(longer)
    ensures FreshKeys(log)
  {
  }

  /** Who holds a key was issued it. */
  lemma HolderWasIssued(log: seq<Issue>, key: string, now: int, p: nat) returns (i: nat)
    requires Holds(IssuesOf(log, p), key, now)
    ensures i < |log| && log[i].key == key && log[i].tenant == p
  {
    hide IssuesOf, Works;
    IssuesAreLogged(log, p);
    var k :| 0 <= k < |IssuesOf(log, p)| && IssuesOf(log, p)[k].key == key;
    i :| 0 <= i < |log| && log[i] == IssuesOf(log, p)[k];
  }

  /** Main result: with fresh draws, a key that finds a tenant at one point of a run finds no other tenant at any
      other point of it, whatever the times. */
  lemma OneOwner(tenants: seq<Tenant>, rotations: seq<Rotation>, a: nat, b: nat, key: string, t: int, u: int,
                 p: nat, q: nat)
    requires a <= |rotations| && b <= |rotations| && FreshKeys(Issued(tenants, rotations))
    requires Find(Run(tenants, rotations[..a]), key, t) == Some(p)
    requires Find(Run(tenants, rotations[..b]), key, u) == Some(q)
    ensures p == q
  {
    hide Run, Issued, Find, Holds, IssuesOf, FreshKeys, Extends;
    var log, before, after := Issued(tenants, rotations), rotations[..a], rotations[..b];
    LogGrows(tenants, rotations, a);
    LogGrows(tenants, rotations, b);
    FreshBefore(Issued(tenants, before), log);
    FreshBefore(Issued(tenants, after), log);
    FoundIsTenant(tenants, before, key, t, p);
    FoundIsTenant(tenants, after, key, u, q);
    FindsByHistory(tenants, before, key, t, p);
    FindsByHistory(tenants, after, key, u, q);
    var i := HolderWasIssued(Issued(tenants, before), key, t, p);
    var j := HolderWasIssued(Issued(tenants, after), key, u, q);
    SameIssue(Issued(tenants, before), Issued(tenants, after), log, i, j);
  }

  lemma FoundIsTenant(tenants: seq<Tenant>, rotations: seq<Rotation>, key: string, now: int, p: nat)
    requires Find(Run(tenants, rotations), key, now) == Some(p)
    ensures key != "" && p < |tenants|
  {
    hide Run;
    RunIsFaithful(tenants, rotations);
    FindIsFirst(Run(tenants, rotations), key, now);
  }

  lemma SameIssue(a: seq<Issue>, b: seq<Issue>, log: seq<Issue>, i: nat, j: nat)
    requires Extends(a, log) && Extends(b, log) && FreshKeys(log) && i < |a| && j < |b|
    requires a[i].key == b[j].key != ""
    ensures a[i].tenant == b[j].tenant
  {
    assert log[i] == a[i] && log[j] == b[j];
  }

  /** Main result, key by key: the `i`-th key of a tenant finds it exactly when it is the last one, or the
      last but one in its grace time. */
  lemma IthKeyWorks(tenants: seq<Tenant>, rotations: seq<Rotation>, p: nat, i: nat, now: int)
    requires FreshKeys(Issued(tenants, rotations)) && p < |tenants|
    requires var mine := IssuesOf(Issued(tenants, rotations), p); i < |mine| && mine[i].key != ""
    ensures var mine := IssuesOf(Issued(tenants, rotations), p);
            Find(Run(tenants, rotations), mine[i].key, now) == Some(p)
            <==> i + 1 == |mine|
                 || (i + 2 == |mine| && mine[i + 1].graceEnds.Some? && now < mine[i + 1].graceEnds.value)
  {
    hide Run, Issued, Find, IssuesOf;
    var mine := IssuesOf(Issued(tenants, rotations), p);
    FindsByHistory(tenants, rotations, mine[i].key, now, p);
    IssuesAreLogged(Issued(tenants, rotations), p);
    if Holds(mine, mine[i].key, now) {
      var j :| 0 <= j < |mine| && mine[j].key == mine[i].key && Works(mine, j, now);
      assert i == j;
    }
  }

  /** Main result: rotating the key of one tenant changes the outcome of no lookup that finds another. */
  lemma RotationIsLocal(tenants: seq<Tenant>, rotations: seq<Rotation>, r: Rotation, key: string, now: int, q: nat)
    requires FreshKeys(Issued(tenants, rotations + [r])) && key != "" && q < |tenants|
    requires FindById(tenants, r.id) != Some(q)
    ensures Find(Run(tenants, rotations), key, now) == Some(q)
       <==> Find(Run(tenants, rotations + [r]), key, now) == Some(q)
  {
    hide Find, Run, FindById, IssuesOf, Holds, Drawn, LastKey;
    var log, all := Issued(tenants, rotations), rotations + [r];
    assert all[..|rotations|] == rotations;
    var log' := Issued(tenants, all);
    if log' != log {
      IssuesSnoc(log, log'[|log|], q);
      assert forall k :: 0 <= k < |log| ==> log'[k] == log[k];
    }
    FindsByHistory(tenants, rotations, key, now, q);
    FindsByHistory(tenants, all, key, now, q);
  }
}
