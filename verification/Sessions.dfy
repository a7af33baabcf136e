/**
 The session store of `bets/b-mcp-gateway/src/mcp-http.js`: two insertion-ordered maps, the live ids with
 the time they were last seen, and the tombstones of the terminated ids.
 */
module Sessions {
  import opened Wrappers

  /** An entry of an insertion-ordered map. */
  datatype Seen = Seen(id: string, at: int)

  /** `ttl` is in milliseconds, zero for no expiry; `max` caps both maps, zero for no cap. */
  datatype Store = Store(ttl: nat, max: nat, live: seq<Seen>, dead: seq<Seen>)

  datatype Status = Ok | Missing | Expired | NotFound

  function Without(m: seq<Seen>, id: string): seq<Seen> {
    if m == [] then []
    else Without(m[..|m| - 1], id) + if m[|m| - 1].id == id then [] else [m[|m| - 1]]
  }

  function Find(m: seq<Seen>, id: string): Option<int> {
    if m == [] then None
    else if m[|m| - 1].id == id then Some(m[|m| - 1].at)
    else Find(m[..|m| - 1], id)
  }

  /** `dropOldestFrom`: an insertion-ordered map over its cap loses its first entries. */
  function Trim(m: seq<Seen>, max: nat): seq<Seen> {
    if max > 0 && |m| > max then m[|m| - max..] else m
  }

  predicate IsExpired(s: Store, at: int, now: int) {
    s.ttl > 0 && now - at >= s.ttl
  }

  function TouchStep(s: Store, id: string, now: int): Store {
    if id == "" then s
    else s.(dead := Without(s.dead, id), live := Trim(Without(s.live, id) + [Seen(id, now)], s.max))
  }

  function DropStep(s: Store, id: string, now: int): (Store, Status) {
    if id == "" then (s, Missing)
    else if Find(s.dead, id).Some? then (s, NotFound)
    else
      var seen := Find(s.live, id);
      if seen.None? then (s, NotFound)
      else if IsExpired(s, seen.value, now) then (s.(live := Without(s.live, id)), NotFound)
      else (s.(live := Without(s.live, id), dead := Trim(Without(s.dead, id) + [Seen(id, now)], s.max)), Ok)
  }

  function CheckStep(s: Store, id: string, now: int): (Store, Status) {
    if id == "" then (s, Missing)
    else if Find(s.dead, id).Some? then (s, NotFound)
    else
      var seen := Find(s.live, id);
      if seen.Some? && IsExpired(s, seen.value, now) then (s.(live := Without(s.live, id)), Expired)
      else (TouchStep(s, id, now), Ok)
  }

  // ----- The inventory -----

  function Unexpired(s: Store, m: seq<Seen>, now: int): seq<Seen> {
    if m == [] then []
    else
      Unexpired(s, m[..|m| - 1], now) + if IsExpired(s, m[|m| - 1].at, now) then [] else [m[|m| - 1]]
  }

  /** The order of the listing: newest first, and among entries of one moment the collation order of the
      ids, which `rank` stands for. */
  predicate Before(a: Seen, b: Seen, rank: string -> real) {
    a.at > b.at || (a.at == b.at && rank(a.id) <= rank(b.id))
  }

  function Insert(e: Seen, sorted: seq<Seen>, rank: string -> real): seq<Seen> {
    if sorted == [] then [e]
    else if Before(sorted[|sorted| - 1], e, rank) then sorted + [e]
    else Insert(e, sorted[..|sorted| - 1], rank) + [sorted[|sorted| - 1]]
  }

  /** A stable sort of the entries. */
  function Sorted(m: seq<Seen>, rank: string -> real): seq<Seen> {
    if m == [] then [] else Insert(m[|m| - 1], Sorted(m[..|m| - 1], rank), rank)
  }

  datatype Inventory = Inventory(count: nat, sessions: seq<Seen>, truncated: bool, dropped: nat)

  function ListStep(s: Store, now: int, limit: nat, rank: string -> real): (Store, Inventory) {
    var live := Unexpired(s, s.live, now);
    var rows := Sorted(live, rank);
    var truncated := limit > 0 && |rows| > limit;
    (s.(live := live), Inventory(|rows|, if truncated then rows[..limit] else rows, truncated, |s.dead|))
  }

  // ----- The imperative form -----

  class SessionStore {
    const ttl: nat
    const max: nat
    var lastSeen: seq<Seen>
    var deleted: seq<Seen>

    ghost function Model(): Store
      reads this
    {
      Store(ttl, max, lastSeen, deleted)
    }

    constructor (ttlMs: nat, maxIds: nat)
      ensures Model() == Store(ttlMs, maxIds, [], [])
    {
      ttl, max, lastSeen, deleted := ttlMs, maxIds, [], [];
    }

    /** Remove an id from a map that keeps its order. */
    static method Remove(m: seq<Seen>, id: string) returns (kept: seq<Seen>)
      ensures kept == Without(m, id)
    {
      kept := [];
      for k := 0 to |m|
        invariant kept == Without(m[..k], id)
      {
        assert m[..k + 1][..k] == m[..k];
        if m[k].id != id {
          kept := kept + [m[k]];
        }
      }
      assert m[..|m|] == m;
    }

    static method Lookup(m: seq<Seen>, id: string) returns (found: Option<int>)
      ensures found == Find(m, id)
    {
      found := None;
      for k := 0 to |m|
        invariant found == Find(m[..k], id)
      {
        assert m[..k + 1][..k] == m[..k];
        if m[k].id == id {
          found := Some(m[k].at);
        }
      }
      assert m[..|m|] == m;
    }

    method DropOldestFrom(m: seq<Seen>) returns (kept: seq<Seen>)
      ensures kept == Trim(m, max)
    {
      kept := m;
      if max == 0 {
        return;
      }
      while |kept| > max
        invariant |kept| <= |m| && kept == m[|m| - |kept|..] && (|m| > max ==> |kept| >= max)
        invariant |m| <= max ==> kept == m
      {
        kept := kept[1..];
      }
    }

    method Touch(id: string, now: int)
      modifies this
      ensures Model() == TouchStep(old(Model()), id, now)
    {
      if id == "" {
        return;
      }
      deleted := Remove(deleted, id);
      lastSeen := Remove(lastSeen, id);
      lastSeen := DropOldestFrom(lastSeen + [Seen(id, now)]);
    }

    method Drop(id: string, now: int) returns (status: Status)
      modifies this
      ensures (Model(), status) == DropStep(old(Model()), id, now)
    {
      if id == "" {
        return Missing;
      }
      var tomb := Lookup(deleted, id);
      if tomb.Some? {
        return NotFound;
      }
      var seen := Lookup(lastSeen, id);
      if seen.None? {
        return NotFound;
      }
      lastSeen := Remove(lastSeen, id);
      if ttl > 0 && now - seen.value >= ttl {
        return NotFound;
      }
      deleted := Remove(deleted, id);
      deleted := DropOldestFrom(deleted + [Seen(id, now)]);
      status := Ok;
    }

    method Check(id: string, now: int) returns (status: Status)
      modifies this
      ensures (Model(), status) == CheckStep(old(Model()), id, now)
    {
      if id == "" {
        return Missing;
      }
      var tomb := Lookup(deleted, id);
      if tomb.Some? {
        return NotFound;
      }
      var seen := Lookup(lastSeen, id);
      if seen.Some? && ttl > 0 && now - seen.value >= ttl {
        lastSeen := Remove(lastSeen, id);
        return Expired;
      }
      Touch(id, now);
      status := Ok;
    }

    method List(now: int, limit: nat, rank: string -> real) returns (inventory: Inventory)
      modifies this
      ensures (Model(), inventory) == ListStep(old(Model()), now, limit, rank)
    {
      var live: seq<Seen> := [];
      for k := 0 to |lastSeen|
        invariant lastSeen == old(lastSeen) && live == Unexpired(Model(), lastSeen[..k], now)
      {
        assert lastSeen[..k + 1][..k] == lastSeen[..k];
        if !(ttl > 0 && now - lastSeen[k].at >= ttl) {
          live := live + [lastSeen[k]];
        }
      }
      assert lastSeen[..|lastSeen|] == lastSeen;
      lastSeen := live;
      var rows := Sorted(live, rank);
      var truncated := limit > 0 && |rows| > limit;
      inventory := Inventory(|rows|, if truncated then rows[..limit] else rows, truncated, |deleted|);
    }
  }

  // ----- What every step keeps -----

  ghost predicate HasId(m: seq<Seen>, id: string) {
    exists k :: 0 <= k < |m| && m[k].id == id
  }

  ghost predicate DistinctIds(m: seq<Seen>) {
    forall i, j :: 0 <= i < j < |m| ==> m[i].id != m[j].id
  }

  /** Insertion order is the order of the times, none of which lies in the future. */
  ghost predicate InTimeOrder(m: seq<Seen>, now: int) {
    && (forall i, j :: 0 <= i < j < |m| ==> m[i].at <= m[j].at)
    && (forall i :: 0 <= i < |m| ==> m[i].at <= now)
  }

  ghost predicate WithinCap(m: seq<Seen>, max: nat) {
    max > 0 ==> |m| <= max
  }

  ghost predicate NoCommonId(a: seq<Seen>, b: seq<Seen>) {
    forall id :: HasId(a, id) ==> !HasId(b, id)
  }

  ghost predicate Valid(s: Store, now: int) {
    && DistinctIds(s.live) && DistinctIds(s.dead) && NoCommonId(s.live, s.dead)
    && WithinCap(s.live, s.max) && WithinCap(s.dead, s.max)
    && InTimeOrder(s.live, now) && InTimeOrder(s.dead, now)
  }

  lemma LastApart(m: seq<Seen>, now: int)
    requires m != [] && DistinctIds(m) && InTimeOrder(m, now)
    ensures var before, last := m[..|m| - 1], m[|m| - 1];
            && DistinctIds(before) && InTimeOrder(before, last.at) && last.at <= now
            && (forall e :: e in before ==> e.id != last.id)
            && (forall e :: e in m <==> e in before || e == last)
  {
    assert m == m[..|m| - 1] + [m[|m| - 1]];
  }

  lemma AppendApart(m: seq<Seen>, e: Seen, now: int)
    requires DistinctIds(m) && InTimeOrder(m, e.at) && e.at <= now && forall x :: x in m ==> x.id != e.id
    ensures DistinctIds(m + [e]) && InTimeOrder(m + [e], now)
  {
    assert forall k :: 0 <= k < |m| ==> m[k] in m;
  }

  lemma LaterOrder(m: seq<Seen>, now: int, later: int)
    requires InTimeOrder(m, now) && now <= later
    ensures InTimeOrder(m, later)
  {
  }

  /** A map without an id is the rest of the map in its order. */
  lemma {:induction false} WithoutKeeps(m: seq<Seen>, id: string, now: int)
    requires DistinctIds(m) && InTimeOrder(m, now)
    ensures DistinctIds(Without(m, id)) && InTimeOrder(Without(m, id), now) && |Without(m, id)| <= |m|
    ensures forall e :: e in Without(m, id) <==> e in m && e.id != id
  {
    hide DistinctIds, InTimeOrder;
    if m != [] {
      var before, last := m[..|m| - 1], m[|m| - 1];
      LastApart(m, now);
      WithoutKeeps(before, id, last.at);
      if last.id == id {
        assert Without(m, id) == Without(before, id);
        LaterOrder(Without(before, id), last.at, now);
      } else {
        AppendApart(Without(before, id), last, now);
      }
    }
  }

  lemma {:induction false} FindIsLookup(m: seq<Seen>, id: string)
    ensures Find(m, id).Some? <==> HasId(m, id)
    ensures Find(m, id).Some? ==> Seen(id, Find(m, id).value) in m
  {
    if m != [] {
      FindIsLookup(m[..|m| - 1], id);
      assert m == m[..|m| - 1] + [m[|m| - 1]];
      if HasId(m[..|m| - 1], id) {
        var k :| 0 <= k < |m| - 1 && m[..|m| - 1][k].id == id;
        assert m[k].id == id;
      } else if m[|m| - 1].id != id {
        assert forall k :: 0 <= k < |m| - 1 ==> m[..|m| - 1][k] == m[k];
      }
    }
  }

  ghost predicate WellKept(m: seq<Seen>, max: nat, now: int) {
    DistinctIds(m) && InTimeOrder(m, now) && WithinCap(m, max)
  }

  lemma HasIdIsMember(m: seq<Seen>, id: string)
    ensures HasId(m, id) <==> exists e :: e in m && e.id == id
  {
    if HasId(m, id) {
      var k :| 0 <= k < |m| && m[k].id == id;
      assert m[k] in m;
    }
  }

  /** Re-inserting an id at the end, with the cap applied. */
  function Reinsert(m: seq<Seen>, id: string, now: int, max: nat): seq<Seen> {
    Trim(Without(m, id) + [Seen(id, now)], max)
  }

  lemma TrimKeeps(m: seq<Seen>, max: nat, now: int)
    requires DistinctIds(m) && InTimeOrder(m, now)
    ensures WellKept(Trim(m, max), max, now)
    ensures forall e :: e in Trim(m, max) ==> e in m
    ensures m != [] ==> m[|m| - 1] in Trim(m, max)
  {
    if m != [] {
      assert Trim(m, max)[|Trim(m, max)| - 1] == m[|m| - 1];
    }
  }

  lemma ReinsertKeeps(m: seq<Seen>, id: string, before: int, now: int, max: nat)
    requires DistinctIds(m) && InTimeOrder(m, before) && before <= now
    ensures WellKept(Reinsert(m, id, now, max), max, now)
    ensures forall e :: e in Reinsert(m, id, now, max) ==> e == Seen(id, now) || (e in m && e.id != id)
    ensures Seen(id, now) in Reinsert(m, id, now, max)
  {
    hide Without, Trim;
    WithoutKeeps(m, id, before);
    var longer := Without(m, id) + [Seen(id, now)];
    forall k | 0 <= k < |Without(m, id)| ensures Without(m, id)[k].id != id {
      assert Without(m, id)[k] in Without(m, id);
    }
    TrimKeeps(longer, max, now);
  }

  lemma NoCommon(a: seq<Seen>, b: seq<Seen>)
    ensures NoCommonId(a, b) <==> forall x, y :: x in a && y in b ==> x.id != y.id
  {
    if NoCommonId(a, b) {
      forall x, y | x in a && y in b ensures x.id != y.id {
        HasIdIsMember(a, x.id);
        HasIdIsMember(b, x.id);
      }
    }
    if forall x, y :: x in a && y in b ==> x.id != y.id {
      forall id | HasId(a, id) ensures !HasId(b, id) {
        HasIdIsMember(a, id);
        HasIdIsMember(b, id);
      }
    }
  }

  lemma ShrunkKeeps(m: seq<Seen>, id: string, max: nat, now: int, later: int)
    requires WellKept(m, max, now) && now <= later
    ensures WellKept(Without(m, id), max, later) && WellKept(m, max, later)
    ensures forall e :: e in Without(m, id) <==> e in m && e.id != id
  {
    hide Without;
    WithoutKeeps(m, id, now);
  }

  ghost predicate Apart(a: seq<Seen>, b: seq<Seen>) {
    forall x, y :: x in a && y in b ==> x.id != y.id
  }

  lemma ValidParts(s: Store, now: int)
    ensures Valid(s, now) <==> WellKept(s.live, s.max, now) && WellKept(s.dead, s.max, now) && Apart(s.live, s.dead)
  {
    NoCommon(s.live, s.dead);
  }

  lemma TouchKeeps(s: Store, id: string, now: int, later: int)
    requires Valid(s, now) && now <= later
    ensures Valid(TouchStep(s, id, later), later)
  {
    hide Valid, WellKept, Without, Trim;
    ValidParts(s, now);
    ValidParts(TouchStep(s, id, later), later);
    ShrunkKeeps(s.live, id, s.max, now, later);
    ShrunkKeeps(s.dead, id, s.max, now, later);
    Unwrap(s.live, s.max, now);
    ReinsertKeeps(s.live, id, now, later, s.max);
  }

  lemma Unwrap(m: seq<Seen>, max: nat, now: int)
    requires WellKept(m, max, now)
    ensures DistinctIds(m) && InTimeOrder(m, now)
  {
  }

  lemma DropKeeps(s: Store, id: string, now: int, later: int)
    requires Valid(s, now) && now <= later
    ensures Valid(DropStep(s, id, later).0, later)
  {
    hide Valid, WellKept, Without, Trim, Find, IsExpired;
    ValidParts(s, now);
    ValidParts(DropStep(s, id, later).0, later);
    ShrunkKeeps(s.live, id, s.max, now, later);
    ShrunkKeeps(s.dead, id, s.max, now, later);
    Unwrap(s.dead, s.max, now);
    ReinsertKeeps(s.dead, id, now, later, s.max);
  }

  lemma CheckKeeps(s: Store, id: string, now: int, later: int)
    requires Valid(s, now) && now <= later
    ensures Valid(CheckStep(s, id, later).0, later)
  {
    hide Valid, WellKept, Without, Trim, Find, IsExpired, TouchStep;
    ValidParts(s, now);
    ValidParts(CheckStep(s, id, later).0, later);
    ShrunkKeeps(s.live, id, s.max, now, later);
    ShrunkKeeps(s.dead, id, s.max, now, later);
    TouchKeeps(s, id, now, later);
    ValidParts(TouchStep(s, id, later), later);
  }

  lemma {:induction false} UnexpiredKeeps(s: Store, m: seq<Seen>, before: int, now: int)
    requires DistinctIds(m) && InTimeOrder(m, before) && before <= now
    ensures var kept := Unexpired(s, m, now);
            && DistinctIds(kept) && InTimeOrder(kept, before) && |kept| <= |m|
            && (forall e :: e in kept <==> e in m && !IsExpired(s, e.at, now))
  {
    hide DistinctIds, InTimeOrder, IsExpired;
    if m != [] {
      var rest, last := m[..|m| - 1], m[|m| - 1];
      LastApart(m, before);
      UnexpiredKeeps(s, rest, last.at, now);
      if IsExpired(s, last.at, now) {
        assert Unexpired(s, m, now) == Unexpired(s, rest, now);
        LaterOrder(Unexpired(s, rest, now), last.at, before);
      } else {
        AppendApart(Unexpired(s, rest, now), last, before);
      }
    } else {
    }
  }

  lemma ListKeeps(s: Store, now: int, later: int, limit: nat, rank: string -> real)
    requires Valid(s, now) && now <= later
    ensures Valid(ListStep(s, later, limit, rank).0, later)
  {
    hide Valid, Unexpired, Sorted, IsExpired;
    ValidParts(s, now);
    ValidParts(ListStep(s, later, limit, rank).0, later);
    UnexpiredKeeps(s, s.live, now, later);
    ShrunkKeeps(s.dead, "", s.max, now, later);
  }
}
