/** Runs of the session store, and of the requests of the gateway that use it. */
module SessionRuns {
  import opened Wrappers
  import opened Sessions

  // ----- Runs of the operations -----

  datatype Operation = Touch(id: string) | Drop(id: string) | Check(id: string) | List

  datatype Timed = Timed(at: int, operation: Operation)

  /** What a listing leaves of the store. */
  function Prune(s: Store, now: int): Store {
    s.(live := Unexpired(s, s.live, now))
  }

  function Apply(s: Store, t: Timed): Store {
    match t.operation
    case Touch(id) => TouchStep(s, id, t.at)
    case Drop(id) => DropStep(s, id, t.at).0
    case Check(id) => CheckStep(s, id, t.at).0
    case List => Prune(s, t.at)
  }

  function Run(s: Store, ops: seq<Timed>): Store {
    if ops == [] then s else Apply(Run(s, ops[..|ops| - 1]), ops[|ops| - 1])
  }

  /** The clock does not run backwards, and starts at `since`. */
  ghost predicate Ordered(ops: seq<Timed>, since: int) {
    && (forall i, j :: 0 <= i < j < |ops| ==> ops[i].at <= ops[j].at)
    && (forall i :: 0 <= i < |ops| ==> since <= ops[i].at)
  }

  function LastTime(ops: seq<Timed>, since: int): int {
    if ops == [] then since else ops[|ops| - 1].at
  }

  lemma ApplyKeeps(s: Store, now: int, t: Timed)
    requires Valid(s, now) && now <= t.at
    ensures Valid(Apply(s, t), t.at)
  {
    hide Valid, TouchStep, DropStep, CheckStep;
    match t.operation
    case Touch(id) => TouchKeeps(s, id, now, t.at);
    case Drop(id) => DropKeeps(s, id, now, t.at);
    case Check(id) => CheckKeeps(s, id, now, t.at);
    case List =>
      ListKeeps(s, now, t.at, 0, id => 0.0);
      assert Prune(s, t.at) == ListStep(s, t.at, 0, id => 0.0).0;
  }

  /** Main result: whatever is touched, dropped, checked and listed, live and terminated ids stay apart, both
      maps keep to the cap, and their insertion order is the order of the times. */
  lemma {:induction false} EveryRunIsValid(ttl: nat, max: nat, ops: seq<Timed>, since: int)
    requires Ordered(ops, since)
    ensures Valid(Run(Store(ttl, max, [], []), ops), LastTime(ops, since))
    decreases |ops|
  {
    if ops == [] {
      hide Apply;
    } else {
      hide Valid, Apply;
      var before, last := ops[..|ops| - 1], ops[|ops| - 1];
      EveryRunIsValid(ttl, max, before, since);
      assert LastTime(before, since) <= last.at;
      ApplyKeeps(Run(Store(ttl, max, [], []), before), LastTime(before, since), last);
    }
  }

  // ----- Eviction -----

  /** Main result: touching an id keeps it. When the cap pushes an entry out, it is one, the first, no
      remaining id was seen earlier, and it happens exactly when an id that is not live enters a full map. */
  lemma EvictionIsLeastRecent(s: Store, id: string, now: int, later: int)
    requires Valid(s, now) && now <= later && id != ""
    ensures var s' := TouchStep(s, id, later);
            var kept := Without(s.live, id);
            && Seen(id, later) in s'.live
            && (if s.max > 0 && |s.live| == s.max && !HasId(s.live, id) then
                  && s'.live == s.live[1..] + [Seen(id, later)]
                  && forall e :: e in s'.live ==> s.live[0].at <= e.at
                else s'.live == kept + [Seen(id, later)])
  {
    hide Without;
    WithoutKeeps(s.live, id, now);
    WithoutShrinks(s.live, id);
    var longer := Without(s.live, id) + [Seen(id, later)];
    if s.max > 0 && |longer| > s.max {
      assert Without(s.live, id) == s.live;
      assert s.live[0].at <= later;
    }
    var touched := TouchStep(s, id, later).live;
    assert touched[|touched| - 1] == Seen(id, later);
  }

  lemma {:induction false} WithoutShrinks(m: seq<Seen>, id: string)
    ensures HasId(m, id) ==> |Without(m, id)| < |m|
    ensures !HasId(m, id) ==> Without(m, id) == m
    ensures |Without(m, id)| <= |m|
  {
    hide HasId;
    if m != [] {
      var before, last := m[..|m| - 1], m[|m| - 1];
      WithoutShrinks(before, id);
      HasIdSnoc(before, last, id);
      assert m == before + [last];
    } else {
      NoId(id);
    }
  }

  lemma NoId(id: string)
    ensures !HasId([], id)
  {
  }

  lemma HasIdSnoc(m: seq<Seen>, e: Seen, id: string)
    ensures HasId(m + [e], id) <==> HasId(m, id) || e.id == id
  {
    assert (m + [e])[|m|] == e;
    if HasId(m, id) {
      var k :| 0 <= k < |m| && m[k].id == id;
      assert (m + [e])[k].id == id;
    }
  }

  // ----- The listing -----

  ghost predicate InListOrder(m: seq<Seen>, rank: string -> real) {
    forall i, j :: 0 <= i < j < |m| ==> Before(m[i], m[j], rank)
  }

  ghost predicate AllBefore(m: seq<Seen>, e: Seen, rank: string -> real) {
    forall x :: x in m ==> Before(x, e, rank)
  }

  lemma ListOrderSnoc(m: seq<Seen>, e: Seen, rank: string -> real)
    requires InListOrder(m, rank) && AllBefore(m, e, rank)
    ensures InListOrder(m + [e], rank)
  {
    assert forall k :: 0 <= k < |m| ==> m[k] in m;
  }

  lemma ListOrderLast(m: seq<Seen>, rank: string -> real)
    requires m != [] && InListOrder(m, rank)
    ensures InListOrder(m[..|m| - 1], rank) && AllBefore(m[..|m| - 1], m[|m| - 1], rank)
  {
  }

  lemma {:induction false} InsertSorts(e: Seen, sorted: seq<Seen>, rank: string -> real)
    requires InListOrder(sorted, rank)
    ensures InListOrder(Insert(e, sorted, rank), rank)
    ensures multiset(Insert(e, sorted, rank)) == multiset(sorted) + multiset{e}
  {
    if sorted != [] {
      hide InListOrder;
      var front, last := sorted[..|sorted| - 1], sorted[|sorted| - 1];
      assert sorted == front + [last];
      ListOrderLast(sorted, rank);
      if Before(last, e, rank) {
        ListOrderSnoc(sorted, e, rank);
      } else {
        InsertSorts(e, front, rank);
        var longer := Insert(e, front, rank);
        forall x | x in longer ensures Before(x, last, rank) {
          assert x in multiset(longer);
          assert x in multiset(front) || x == e;
        }
        ListOrderSnoc(longer, last, rank);
      }
    }
  }

  lemma {:induction false} SortedSorts(m: seq<Seen>, rank: string -> real)
    ensures InListOrder(Sorted(m, rank), rank) && multiset(Sorted(m, rank)) == multiset(m)
  {
    if m != [] {
      hide InListOrder;
      assert m == m[..|m| - 1] + [m[|m| - 1]];
      SortedSorts(m[..|m| - 1], rank);
      InsertSorts(m[|m| - 1], Sorted(m[..|m| - 1], rank), rank);
    }
  }

  /** Newer, or of the same moment and not behind it in the collation order. */
  predicate NoLaterInList(a: Seen, b: Seen, rank: string -> real) {
    a.at >= b.at && (a.at == b.at ==> rank(a.id) <= rank(b.id))
  }

  lemma BeforeIsNoLater(a: Seen, b: Seen, rank: string -> real)
    ensures Before(a, b, rank) == NoLaterInList(a, b, rank)
  {
  }

  /** Main result: a listing counts exactly the live ids that have not expired and shows them, newest first
      and each once, up to the limit: what it leaves out comes after everything that it shows. */
  lemma ListingIsNewestPrefix(s: Store, now: int, later: int, limit: nat, rank: string -> real)
    requires Valid(s, now) && now <= later
    ensures var (s', inv) := ListStep(s, later, limit, rank);
            && (forall e :: e in s'.live <==> e in s.live && !IsExpired(s, e.at, later))
            && inv.count == |s'.live| && inv.dropped == |s.dead|
            && |inv.sessions| == (if limit > 0 && limit < inv.count then limit else inv.count)
            && (inv.truncated <==> |inv.sessions| < inv.count)
            && (forall i, j :: 0 <= i < j < |inv.sessions| ==>
                  NoLaterInList(inv.sessions[i], inv.sessions[j], rank))
            && multiset(inv.sessions) <= multiset(s'.live)
            && (forall shown, other :: shown in inv.sessions && other in multiset(s'.live) - multiset(inv.sessions)
                  ==> NoLaterInList(shown, other, rank))
  {
    hide Unexpired, IsExpired, Sorted, InListOrder, Before, NoLaterInList;
    UnexpiredKeeps(s, s.live, now, later);
    var live := Unexpired(s, s.live, later);
    SortedSorts(live, rank);
    var rows := Sorted(live, rank);
    MultisetSize(rows, live);
    var shown := ListStep(s, later, limit, rank).1.sessions;
    PrefixInOrder(rows, |shown|, rank);
    assert shown == rows[..|shown|];
    forall i, j | 0 <= i < j < |shown| ensures NoLaterInList(shown[i], shown[j], rank) {
      InOrderAt(shown, i, j, rank);
    }
    forall x, y | x in shown && y in multiset(live) - multiset(shown) ensures NoLaterInList(x, y, rank) {
      BeforeIsNoLater(x, y, rank);
    }
  }

  lemma InOrderAt(m: seq<Seen>, i: nat, j: nat, rank: string -> real)
    requires InListOrder(m, rank) && i < j < |m|
    ensures NoLaterInList(m[i], m[j], rank)
  {
    BeforeIsNoLater(m[i], m[j], rank);
  }

  lemma MultisetSize(a: seq<Seen>, b: seq<Seen>)
    requires multiset(a) == multiset(b)
    ensures |a| == |b|
  {
    assert |multiset(a)| == |a| && |multiset(b)| == |b|;
  }

  lemma PrefixInOrder(rows: seq<Seen>, n: nat, rank: string -> real)
    requires n <= |rows| && InListOrder(rows, rank)
    ensures InListOrder(rows[..n], rank) && multiset(rows[..n]) <= multiset(rows)
    ensures forall x, y :: x in rows[..n] && y in multiset(rows) - multiset(rows[..n]) ==> Before(x, y, rank)
  {
    hide Before;
    assert rows == rows[..n] + rows[n..];
    assert multiset(rows) - multiset(rows[..n]) == multiset(rows[n..]);
    forall x, y | x in rows[..n] && y in multiset(rows[n..]) ensures Before(x, y, rank) {
      CrossOrder(rows, n, rank, x, y);
    }
  }

  lemma CrossOrder(rows: seq<Seen>, n: nat, rank: string -> real, x: Seen, y: Seen)
    requires n <= |rows| && InListOrder(rows, rank) && x in rows[..n] && y in rows[n..]
    ensures Before(x, y, rank)
  {
    var i :| 0 <= i < n && rows[..n][i] == x;
    var j :| 0 <= j < |rows| - n && rows[n..][j] == y;
    assert rows[i] == x && rows[n + j] == y;
  }

  // ----- Requests -----

  /** A request with the session id that it carries, empty for none. A POST that initializes a session
      without an id gets a generated one. */
  datatype Request = Post(id: string, initialize: bool, generated: string) | Delete(id: string) | Admin

  datatype Arrival = Arrival(at: int, request: Request)

  /** The session part of POST and DELETE `/mcp` and of the admin routes. */
  function Serve(s: Store, a: Arrival): (Store, Status) {
    match a.request
    case Post(id, initialize, generated) =>
      if id == "" then (if initialize then TouchStep(s, generated, a.at) else s, Status.Missing)
      else
        var (checked, status) := CheckStep(s, id, a.at);
        (if status.Ok? && initialize then TouchStep(checked, id, a.at) else checked, status)
    case Delete(id) => DropStep(s, id, a.at)
    case Admin => (Prune(s, a.at), Status.Ok)
  }

  function ServeAll(s: Store, arrivals: seq<Arrival>): Store {
    if arrivals == [] then s else Serve(ServeAll(s, arrivals[..|arrivals| - 1]), arrivals[|arrivals| - 1]).0
  }

  predicate Terminates(s: Store, a: Arrival) {
    a.request.Delete? && Serve(s, a).1.Ok?
  }

  /** How many sessions the arrivals terminated. */
  function Terminated(s: Store, arrivals: seq<Arrival>): nat {
    if arrivals == [] then 0
    else
      var before := arrivals[..|arrivals| - 1];
      Terminated(s, before) + if Terminates(ServeAll(s, before), arrivals[|arrivals| - 1]) then 1 else 0
  }

  /** Arrivals in time, whose generated ids are not those of remembered terminated sessions. */
  ghost predicate Admissible(s: Store, arrivals: seq<Arrival>, since: int)
    decreases |arrivals|
  {
    arrivals != [] ==>
      var before, last := arrivals[..|arrivals| - 1], arrivals[|arrivals| - 1];
      && Admissible(s, before, since) && LastArrival(before, since) <= last.at
      && (last.request.Post? ==> !HasId(ServeAll(s, before).dead, last.request.generated))
  }

  function LastArrival(arrivals: seq<Arrival>, since: int): int {
    if arrivals == [] then since else arrivals[|arrivals| - 1].at
  }

  lemma ServeKeeps(s: Store, now: int, a: Arrival)
    requires Valid(s, now) && now <= a.at
    ensures Valid(Serve(s, a).0, a.at)
  {
    hide Valid, TouchStep, DropStep, CheckStep, Unexpired;
    match a.request
    case Post(id, initialize, generated) =>
      TouchKeeps(s, generated, now, a.at);
      CheckKeeps(s, id, now, a.at);
      TouchKeeps(CheckStep(s, id, a.at).0, id, a.at, a.at);
      if id == "" && !initialize {
        TouchKeeps(s, "", now, a.at);
        TouchNothing(s, a.at);
      }
    case Delete(id) => DropKeeps(s, id, now, a.at);
    case Admin => ApplyKeeps(s, now, Timed(a.at, List));
  }

  lemma TouchNothing(s: Store, now: int)
    ensures TouchStep(s, "", now) == s
  {
  }

  /** What a request does to the tombstones: a termination adds one, the others leave them alone. */
  lemma DeadAfter(s: Store, now: int, a: Arrival)
    requires Valid(s, now)
    requires a.request.Post? ==> !HasId(s.dead, a.request.generated)
    ensures Serve(s, a).0.dead
         == if Terminates(s, a) then Trim(s.dead + [Seen(a.request.id, a.at)], s.max) else s.dead
    ensures Terminates(s, a) ==> !HasId(s.dead, a.request.id)
    ensures Serve(s, a).0.max == s.max
  {
    hide Valid, Without, Trim, Find, IsExpired, Unexpired, HasId;
    match a.request
    case Post(id, _, generated) =>
      FindIsLookup(s.dead, id);
      WithoutShrinks(s.dead, id);
      WithoutShrinks(s.dead, generated);
    case Delete(id) =>
      FindIsLookup(s.dead, id);
      WithoutShrinks(s.dead, id);
    case Admin =>
  }

  /** The tombstone of `id` stands with `k` younger ones after it. */
  ghost predicate Buried(s: Store, id: string, k: nat) {
    k < |s.dead| && s.dead[|s.dead| - 1 - k].id == id
  }

  lemma BuriedDeeper(dead: seq<Seen>, e: Seen, max: nat, id: string, k: nat)
    requires DistinctIds(dead) && !HasId(dead, e.id) && WithinCap(dead, max)
    requires k < |dead| && dead[|dead| - 1 - k].id == id
    ensures var after := Trim(dead + [e], max);
            if max == 0 || k + 1 < max then k + 1 < |after| && after[|after| - 2 - k].id == id
            else !HasId(after, id)
  {
    assert forall i :: 0 <= i < |dead| ==> dead[i].id != e.id;
  }

  /** While fewer than `max` sessions were terminated after it, a tombstone stands where their number says;
      the termination that reaches `max` removes it. */
  lemma {:induction false} TombstoneDepth(s: Store, id: string, now: int, arrivals: seq<Arrival>)
    requires Valid(s, now) && Buried(s, id, 0) && Admissible(s, arrivals, now)
    ensures var after := ServeAll(s, arrivals);
            && Valid(after, LastArrival(arrivals, now)) && after.max == s.max
            && (s.max == 0 || Terminated(s, arrivals) < s.max ==> Buried(after, id, Terminated(s, arrivals)))
    decreases |arrivals|
  {
    hide *;
    if arrivals == [] {
      NothingServed(s, now);
    } else {
      var before, last := arrivals[..|arrivals| - 1], arrivals[|arrivals| - 1];
      AdmissibleParts(s, arrivals, now);
      TombstoneDepth(s, id, now, before);
      DepthStep(ServeAll(s, before), LastArrival(before, now), id, Terminated(s, before), last);
    }
  }

  lemma NothingServed(s: Store, since: int)
    ensures ServeAll(s, []) == s && Terminated(s, []) == 0 && LastArrival([], since) == since
  {
  }

  lemma AdmissibleParts(s: Store, arrivals: seq<Arrival>, since: int)
    requires arrivals != [] && Admissible(s, arrivals, since)
    ensures var before, last := arrivals[..|arrivals| - 1], arrivals[|arrivals| - 1];
            var mid := ServeAll(s, before);
            && Admissible(s, before, since) && LastArrival(before, since) <= last.at == LastArrival(arrivals, since)
            && (last.request.Post? ==> !HasId(mid.dead, last.request.generated))
            && ServeAll(s, arrivals) == Serve(mid, last).0
            && Terminated(s, arrivals) == Terminated(s, before) + if Terminates(mid, last) then 1 else 0
  {
    hide Serve, HasId, Terminates;
  }

  lemma DepthStep(s: Store, now: int, id: string, k: nat, a: Arrival)
    requires Valid(s, now) && now <= a.at && (a.request.Post? ==> !HasId(s.dead, a.request.generated))
    requires s.max == 0 || k < s.max ==> Buried(s, id, k)
    ensures var after, depth := Serve(s, a).0, k + if Terminates(s, a) then 1 else 0;
            && Valid(after, a.at) && after.max == s.max
            && (s.max == 0 || depth < s.max ==> Buried(after, id, depth))
  {
    hide Valid, Serve, Trim, Terminates, HasId, DistinctIds, WithinCap;
    ServeKeeps(s, now, a);
    DeadAfter(s, now, a);
    DeadParts(s, now);
    if Terminates(s, a) && (s.max == 0 || k < s.max) {
      TerminatesIsDelete(s, a);
      BuriedDeeper(s.dead, Seen(a.request.id, a.at), s.max, id, k);
    }
  }

  lemma DeadParts(s: Store, now: int)
    requires Valid(s, now)
    ensures DistinctIds(s.dead) && WithinCap(s.dead, s.max)
  {
  }

  /** A remembered termination turns away every request with its id. */
  lemma BuriedIsNotFound(s: Store, id: string, k: nat, a: Arrival)
    requires Buried(s, id, k) && id != ""
    requires !a.request.Admin? && a.request.id == id
    ensures Serve(s, a) == (s, NotFound)
  {
    assert HasId(s.dead, id);
    FindIsLookup(s.dead, id);
  }

  /** Main result: after a session was terminated, every POST and DELETE that carries its id is answered with
      `session_not_found` and changes nothing, as long as fewer than the cap of further sessions have been
      terminated, for ever when there is no cap. */
  lemma TerminationIsFinal(s: Store, id: string, now: int, ended: int, arrivals: seq<Arrival>, next: Arrival)
    requires Valid(s, now) && now <= ended && DropStep(s, id, ended).1.Ok?
    requires Admissible(DropStep(s, id, ended).0, arrivals, ended)
    requires !next.request.Admin? && next.request.id == id
    requires s.max == 0 || Terminated(DropStep(s, id, ended).0, arrivals) < s.max
    ensures var after := ServeAll(DropStep(s, id, ended).0, arrivals); Serve(after, next) == (after, NotFound)
  {
    hide *;
    JustBuried(s, id, now, ended);
    var dropped := DropStep(s, id, ended).0;
    TombstoneDepth(dropped, id, ended, arrivals);
    BuriedIsNotFound(ServeAll(dropped, arrivals), id, Terminated(dropped, arrivals), next);
  }

  lemma JustBuried(s: Store, id: string, now: int, ended: int)
    requires Valid(s, now) && now <= ended && DropStep(s, id, ended).1.Ok?
    ensures var dropped := DropStep(s, id, ended).0;
            id != "" && Valid(dropped, ended) && Buried(dropped, id, 0) && dropped.max == s.max
  {
    hide Valid, Without, Find, IsExpired;
    DropKeeps(s, id, now, ended);
  }

  /** Main result: the bound is exact. The termination that makes it as many as the cap wipes the tombstone,
      and the next POST with the terminated id is accepted as if it were new. */
  lemma CapForgetsTermination(s: Store, id: string, now: int, ended: int, arrivals: seq<Arrival>, last: Arrival,
                              next: Arrival)
    requires Valid(s, now) && now <= ended && DropStep(s, id, ended).1.Ok?
    requires var dropped := DropStep(s, id, ended).0;
             && Admissible(dropped, arrivals + [last], ended)
             && Terminates(ServeAll(dropped, arrivals), last)
             && s.max > 0 && Terminated(dropped, arrivals) == s.max - 1
    requires next.request.Post? && next.request.id == id && LastArrival(arrivals + [last], ended) <= next.at
    ensures var after := ServeAll(DropStep(s, id, ended).0, arrivals + [last]);
            !HasId(after.dead, id) && Serve(after, next).1 == Status.Ok
  {
    hide *;
    JustBuried(s, id, now, ended);
    var dropped := DropStep(s, id, ended).0;
    Snoc(dropped, arrivals, last, ended);
    TombstoneDepth(dropped, id, ended, arrivals);
    var mid := ServeAll(dropped, arrivals);
    DeadAfter(mid, LastArrival(arrivals, ended), last);
    DeadParts(mid, LastArrival(arrivals, ended));
    LastBurial(mid, id, last);
    BuriedIsNotLive(mid, LastArrival(arrivals, ended), id, s.max - 1, last);
    NotBuriedIsFound(ServeAll(dropped, arrivals + [last]), id, next);
  }

  lemma Snoc(s: Store, arrivals: seq<Arrival>, last: Arrival, since: int)
    requires Admissible(s, arrivals + [last], since)
    ensures ServeAll(s, arrivals + [last]) == Serve(ServeAll(s, arrivals), last).0
    ensures Admissible(s, arrivals, since) && LastArrival(arrivals, since) <= last.at
    ensures last.request.Post? ==> !HasId(ServeAll(s, arrivals).dead, last.request.generated)
  {
    hide Serve, HasId;
    assert (arrivals + [last])[..|arrivals|] == arrivals;
  }

  lemma LastBurial(s: Store, id: string, last: Arrival)
    requires s.max > 0 && Buried(s, id, s.max - 1) && DistinctIds(s.dead) && WithinCap(s.dead, s.max)
    requires Terminates(s, last) && !HasId(s.dead, last.request.id)
    requires Serve(s, last).0.dead == Trim(s.dead + [Seen(last.request.id, last.at)], s.max)
    ensures !HasId(Serve(s, last).0.dead, id)
  {
    hide Serve, Trim, HasId, DistinctIds, WithinCap;
    TerminatesIsDelete(s, last);
    BuriedDeeper(s.dead, Seen(last.request.id, last.at), s.max, id, s.max - 1);
  }

  lemma TerminatesIsDelete(s: Store, a: Arrival)
    requires Terminates(s, a)
    ensures a.request.Delete?
  {
    hide Serve;
  }

  lemma BuriedIsNotLive(s: Store, now: int, id: string, k: nat, last: Arrival)
    requires Valid(s, now) && Buried(s, id, k) && Terminates(s, last)
    ensures !HasId(Serve(s, last).0.live, id)
  {
    assert HasId(s.dead, id);
    assert !HasId(s.live, id);
    hide Valid, Without, Find, IsExpired, Trim, HasId;
    StillWithout(s.live, last.request.id, id);
  }

  lemma {:induction false} StillWithout(m: seq<Seen>, gone: string, id: string)
    requires !HasId(m, id)
    ensures !HasId(Without(m, gone), id)
  {
    hide HasId;
    if m != [] {
      var before, last := m[..|m| - 1], m[|m| - 1];
      assert m == before + [last];
      HasIdSnoc(before, last, id);
      StillWithout(before, gone, id);
      HasIdSnoc(Without(before, gone), last, id);
      assert Without(before, gone) + [] == Without(before, gone);
    }
  }

  lemma NotBuriedIsFound(s: Store, id: string, next: Arrival)
    requires next.request.Post? && next.request.id == id && id != "" && !HasId(s.dead, id) && !HasId(s.live, id)
    ensures Serve(s, next).1 == Status.Ok
  {
    FindIsLookup(s.dead, id);
    FindIsLookup(s.live, id);
  }

  /** Requests without an id: a POST that initializes a session makes the generated id live, and any other changes
      nothing; their status says that none was given. */
  lemma WithoutId(s: Store, now: int, a: Arrival)
    requires Valid(s, now) && now <= a.at && !a.request.Admin? && a.request.id == ""
    ensures Serve(s, a).1 == Missing
    ensures if a.request.Post? && a.request.initialize && a.request.generated != "" then
              Seen(a.request.generated, a.at) in Serve(s, a).0.live
            else Serve(s, a).0 == s
  {
    hide Valid, Without, Trim;
    if a.request.Post? && a.request.initialize && a.request.generated != "" {
      EvictionIsLeastRecent(s, a.request.generated, now, a.at);
    }
  }

  /** An expired id is reported once. It leaves no tombstone, so the next POST with it opens it anew. */
  lemma ExpiredIsForgotten(s: Store, now: int, first: Arrival, second: Arrival)
    requires Valid(s, now) && first.request.Post? && second.request.Post? && first.request.id == second.request.id
    requires Serve(s, first).1.Expired?
    ensures Serve(Serve(s, first).0, second).1.Ok?
  {
    hide Without, IsExpired, TouchStep, Valid, HasId;
    var id := first.request.id;
    FindWithout(s.live, id);
  }

  lemma {:induction false} FindWithout(m: seq<Seen>, id: string)
    ensures Find(Without(m, id), id).None?
  {
    if m != [] {
      FindWithout(m[..|m| - 1], id);
      if m[|m| - 1].id == id {
        assert Without(m, id) == Without(m[..|m| - 1], id);
      }
    }
  }
}
