/** What a request with a session id is answered, told by the requests before it and their answers. */
module SessionHistory {
  import opened Wrappers
  import opened Sessions
  import opened SessionRuns

  datatype Exchange = Exchange(arrival: Arrival, answer: Status)

  function Transcript(s: Store, arrivals: seq<Arrival>): seq<Exchange> {
    if arrivals == [] then []
    else
      var before, last := arrivals[..|arrivals| - 1], arrivals[|arrivals| - 1];
      Transcript(s, before) + [Exchange(last, Serve(ServeAll(s, before), last).1)]
  }

  // ----- The life of an id -----

  /** What is known of an id: nothing; that it was last accepted at a time, with the other ids that were accepted
      after it and have neither been terminated nor found expired since; or that it was terminated, with the
      number of terminations after it. */
  datatype Life = Unknown | Live(at: int, later: seq<Seen>) | Terminal(younger: nat)

  predicate Lapsed(ttl: nat, at: int, now: int) {
    ttl > 0 && now - at >= ttl
  }

  function Unlapsed(ttl: nat, m: seq<Seen>, now: int): seq<Seen> {
    if m == [] then []
    else
      Unlapsed(ttl, m[..|m| - 1], now) + if Lapsed(ttl, m[|m| - 1].at, now) then [] else [m[|m| - 1]]
  }

  /** The id that an exchange makes live, empty for none. */
  function Accepted(e: Exchange): string {
    match e.arrival.request
    case Post(carried, initialize, generated) =>
      if carried != "" then (if e.answer.Ok? then carried else "") else if initialize then generated else ""
    case _ => ""
  }

  /** The id that it removes from the live ones, terminated or found expired. */
  function Removed(e: Exchange): string {
    match e.arrival.request
    case Post(carried, _, _) => if e.answer.Expired? then carried else ""
    case Delete(carried) => carried
    case Admin => ""
  }

  /** An exchange about other ids. The cap pushes an id out when as many others as the cap are live after it, and
      its tombstone when as many sessions as the cap were terminated after it. */
  function OthersStep(ttl: nat, max: nat, life: Life, e: Exchange): Life {
    var now := e.arrival.at;
    match life
    case Unknown => Unknown
    case Live(at, later) =>
      if e.arrival.request.Admin? then
        if Lapsed(ttl, at, now) then Unknown else Live(at, Unlapsed(ttl, later, now))
      else if Accepted(e) != "" then
        var more := Without(later, Accepted(e)) + [Seen(Accepted(e), now)];
        if max > 0 && |more| >= max then Unknown else Live(at, more)
      else Live(at, Without(later, Removed(e)))
    case Terminal(younger) =>
      if !(e.arrival.request.Delete? && e.answer.Ok?) then life
      else if max > 0 && younger + 1 >= max then Unknown
      else Terminal(younger + 1)
  }

  /** The request carries the id, or the server generates it for the request. */
  predicate Concerns(a: Arrival, id: string) {
    match a.request
    case Post(carried, initialize, generated) => carried == id || (carried == "" && initialize && generated == id)
    case Delete(carried) => carried == id
    case Admin => false
  }

  function OwnStep(ttl: nat, life: Life, a: Arrival): Life {
    match life
    case Terminal(_) => life
    case Unknown => if a.request.Post? then Live(a.at, []) else Unknown
    case Live(at, _) =>
      if Lapsed(ttl, at, a.at) then Unknown else if a.request.Post? then Live(a.at, []) else Terminal(0)
  }

  function LifeStep(ttl: nat, max: nat, life: Life, id: string, e: Exchange): Life {
    if !Concerns(e.arrival, id) then OthersStep(ttl, max, life, e)
    else if e.arrival.request.id == id then OwnStep(ttl, life, e.arrival)
    else Live(e.arrival.at, [])
  }

  function LifeOf(ttl: nat, max: nat, log: seq<Exchange>, id: string): Life {
    if log == [] then Unknown
    else LifeStep(ttl, max, LifeOf(ttl, max, log[..|log| - 1], id), id, log[|log| - 1])
  }

  /** The answer to a request that carries an id with this life. */
  function AnswerFor(ttl: nat, life: Life, a: Arrival): Status {
    match life
    case Terminal(_) => NotFound
    case Unknown => if a.request.Post? then Status.Ok else NotFound
    case Live(at, _) =>
      if !Lapsed(ttl, at, a.at) then Status.Ok else if a.request.Post? then Expired else NotFound
  }

  // ----- Maps and their last entries -----

  predicate Ends(m: seq<Seen>, tail: seq<Seen>) {
    |tail| <= |m| && m[|m| - |tail|..] == tail
  }

  lemma EndsSplit(m: seq<Seen>, tail: seq<Seen>) returns (head: seq<Seen>)
    requires Ends(m, tail)
    ensures m == head + tail
  {
    head := m[..|m| - |tail|];
  }

  lemma {:induction false} WithoutConcat(a: seq<Seen>, b: seq<Seen>, id: string)
    ensures Without(a + b, id) == Without(a, id) + Without(b, id)
    decreases |b|
  {
    if b == [] {
      assert a + b == a;
    } else {
      var before, last := b[..|b| - 1], b[|b| - 1];
      WithoutConcat(a, before, id);
      assert (a + b)[..|a + b| - 1] == a + before;
    }
  }

  lemma WithoutOther(e: Seen, b: seq<Seen>, id: string)
    requires e.id != id
    ensures Without([e] + b, id) == [e] + Without(b, id)
  {
    WithoutConcat([e], b, id);
    assert [e][..0] == [];
    assert Without([e], id) == [e];
  }

  lemma {:induction false} UnlapsedConcat(ttl: nat, a: seq<Seen>, b: seq<Seen>, now: int)
    ensures Unlapsed(ttl, a + b, now) == Unlapsed(ttl, a, now) + Unlapsed(ttl, b, now)
    decreases |b|
  {
    if b == [] {
      assert a + b == a;
    } else {
      var before, last := b[..|b| - 1], b[|b| - 1];
      UnlapsedConcat(ttl, a, before, now);
      assert (a + b)[..|a + b| - 1] == a + before;
    }
  }

  lemma {:induction false} UnexpiredIsUnlapsed(s: Store, m: seq<Seen>, now: int)
    ensures Unexpired(s, m, now) == Unlapsed(s.ttl, m, now)
  {
    if m != [] {
      UnexpiredIsUnlapsed(s, m[..|m| - 1], now);
    }
  }

  lemma FindSnoc(m: seq<Seen>, e: Seen, id: string)
    ensures Find(m + [e], id) == if e.id == id then Some(e.at) else Find(m, id)
  {
    assert (m + [e])[..|m|] == m;
  }

  lemma {:induction false} FindConcat(a: seq<Seen>, b: seq<Seen>, id: string)
    ensures Find(a + b, id) == if Find(b, id).Some? then Find(b, id) else Find(a, id)
    decreases |b|
  {
    hide Find;
    if b == [] {
      NothingFound(id);
      assert a + b == a;
    } else {
      var before, last := b[..|b| - 1], b[|b| - 1];
      FindConcat(a, before, id);
      FindSnoc(before, last, id);
      FindSnoc(a + before, last, id);
      assert b == before + [last] && a + b == (a + before) + [last];
    }
  }

  lemma NothingFound(id: string)
    ensures Find([], id) == None
  {
  }

  lemma {:induction false} FindWithoutOther(m: seq<Seen>, gone: string, id: string)
    requires gone != id
    ensures Find(Without(m, gone), id) == Find(m, id)
  {
    if m != [] {
      var before, last := m[..|m| - 1], m[|m| - 1];
      FindWithoutOther(before, gone, id);
      FindSnoc(Without(before, gone), last, id);
      assert Without(before, gone) + [] == Without(before, gone);
    }
  }

  lemma {:induction false} UnlapsedLacks(ttl: nat, m: seq<Seen>, now: int, id: string)
    requires Find(m, id).None?
    ensures Find(Unlapsed(ttl, m, now), id).None?
  {
    if m != [] {
      var before, last := m[..|m| - 1], m[|m| - 1];
      UnlapsedLacks(ttl, before, now, id);
      FindSnoc(Unlapsed(ttl, before, now), last, id);
      assert Unlapsed(ttl, before, now) + [] == Unlapsed(ttl, before, now);
    }
  }

  /** What the cap cuts off cannot bring an id back. */
  lemma TrimLacks(m: seq<Seen>, max: nat, id: string)
    requires Find(m, id).None?
    ensures Find(Trim(m, max), id).None?
  {
    hide Find;
    var kept := Trim(m, max);
    var head := m[..|m| - |kept|];
    assert m == head + kept;
    FindConcat(head, kept, id);
  }

  lemma TrimForgets(head: seq<Seen>, e: Seen, more: seq<Seen>, max: nat)
    requires Find(more, e.id).None? && 0 < max <= |more|
    ensures Find(Trim(head + [e] + more, max), e.id).None?
  {
    hide Find;
    var m := head + [e] + more;
    assert m[|m| - max..] == more[|more| - max..] by {
      assert m[|m| - |more|..] == more;
    }
    assert Trim(more, max) == more[|more| - max..];
    TrimLacks(more, max, e.id);
  }

  /** An id followed by fewer entries than the cap stays, one followed by as many goes. */
  lemma TrimEnds(m: seq<Seen>, max: nat, e: Seen, more: seq<Seen>)
    requires Ends(m, [e] + more) && Find(more, e.id).None?
    ensures if max > 0 && |more| >= max then Find(Trim(m, max), e.id).None? else Ends(Trim(m, max), [e] + more)
  {
    hide Find;
    if max > 0 && |more| >= max {
      var head := EndsSplit(m, [e] + more);
      assert m == head + [e] + more;
      TrimForgets(head, e, more, max);
    }
  }

  // ----- What a request does to the live ids -----

  /** Touching an id a second time at the same moment changes nothing. */
  lemma TouchTwice(s: Store, id: string, now: int)
    requires id != ""
    ensures TouchStep(TouchStep(s, id, now), id, now) == TouchStep(s, id, now)
  {
    hide Without, Trim;
    TouchedTwice(s.live, Seen(id, now), s.max);
    FindWithout(s.dead, id);
    WithoutAbsent(Without(s.dead, id), id);
  }

  lemma WithoutAbsent(m: seq<Seen>, id: string)
    requires Find(m, id).None?
    ensures Without(m, id) == m
  {
    hide Find, Without;
    FindIsLookup(m, id);
    WithoutShrinks(m, id);
  }

  lemma TouchedTwice(m: seq<Seen>, e: Seen, max: nat)
    ensures var kept := Trim(Without(m, e.id) + [e], max); Trim(Without(kept, e.id) + [e], max) == kept
  {
    hide Without, Find;
    var longer := Without(m, e.id) + [e];
    var kept := Trim(longer, max);
    var front := kept[..|kept| - 1];
    assert kept == front + [e];
    var head := longer[..|longer| - |kept|];
    assert Without(m, e.id) == head + front;
    FindWithout(m, e.id);
    FindConcat(head, front, e.id);
    WithoutConcat(front, [e], e.id);
    WithoutAbsent(front, e.id);
    WithoutItself(e);
  }

  lemma WithoutItself(e: Seen)
    ensures Without([e], e.id) == []
  {
    assert [e][..0] == [];
  }

  function LiveAfter(s: Store, e: Exchange): seq<Seen> {
    if e.arrival.request.Admin? then Unexpired(s, s.live, e.arrival.at)
    else if Accepted(e) != "" then Reinsert(s.live, Accepted(e), e.arrival.at, s.max)
    else Without(s.live, Removed(e))
  }

  ghost predicate NoEmptyId(s: Store) {
    Find(s.live, "").None?
  }

  lemma BuriedLacksLive(s: Store, now: int, id: string)
    requires Valid(s, now) && Find(s.dead, id).Some?
    ensures Without(s.live, id) == s.live
  {
    FindIsLookup(s.dead, id);
    FindIsLookup(s.live, id);
    WithoutAbsent(s.live, id);
  }

  lemma LiveIsAfter(s: Store, now: int, a: Arrival)
    requires Valid(s, now) && now <= a.at && NoEmptyId(s)
    ensures Serve(s, a).0.live == LiveAfter(s, Exchange(a, Serve(s, a).1))
  {
    hide Valid, Find, Without, Trim, Unexpired, IsExpired, TouchStep;
    WithoutAbsent(s.live, "");
    match a.request
    case Post(carried, initialize, generated) =>
      TouchLive(s, carried, a.at);
      TouchLive(s, generated, a.at);
      if carried != "" {
        TouchTwice(s, carried, a.at);
      }
    case Delete(carried) =>
      if carried != "" {
        DropLive(s, now, carried, a.at);
      }
    case Admin =>
  }

  lemma TouchLive(s: Store, id: string, now: int)
    ensures TouchStep(s, id, now).live == if id == "" then s.live else Reinsert(s.live, id, now, s.max)
  {
    hide Without, Trim;
  }

  lemma DropLive(s: Store, now: int, id: string, later: int)
    requires Valid(s, now) && id != ""
    ensures DropStep(s, id, later).0.live == Without(s.live, id)
  {
    hide Valid, Find, Without, Trim, IsExpired;
    if Find(s.dead, id).Some? {
      BuriedLacksLive(s, now, id);
    } else if Find(s.live, id).None? {
      WithoutAbsent(s.live, id);
    }
  }

  lemma StaysNamed(s: Store, now: int, a: Arrival)
    requires Valid(s, now) && now <= a.at && NoEmptyId(s)
    ensures NoEmptyId(Serve(s, a).0)
  {
    hide Valid, Find, Without, Trim, Unexpired, Serve, Unlapsed;
    LiveIsAfter(s, now, a);
    var e := Exchange(a, Serve(s, a).1);
    if a.request.Admin? {
      UnexpiredIsUnlapsed(s, s.live, a.at);
      UnlapsedLacks(s.ttl, s.live, a.at, "");
    } else if Accepted(e) != "" {
      ReinsertLacks(s.live, Accepted(e), a.at, s.max, "");
    } else if Removed(e) == "" {
      FindWithout(s.live, "");
    } else {
      FindWithoutOther(s.live, Removed(e), "");
    }
  }

  lemma ReinsertLacks(m: seq<Seen>, other: string, now: int, max: nat, id: string)
    requires Find(m, id).None? && other != id
    ensures Find(Reinsert(m, other, now, max), id).None?
  {
    hide Find, Without, Trim;
    FindWithoutOther(m, other, id);
    FindSnoc(Without(m, other), Seen(other, now), id);
    TrimLacks(Without(m, other) + [Seen(other, now)], max, id);
  }

  // ----- The store follows the lives -----

  ghost predicate Follows(s: Store, life: Life, id: string) {
    match life
    case Unknown => Find(s.live, id).None? && Find(s.dead, id).None?
    case Live(at, later) =>
      Ends(s.live, [Seen(id, at)] + later) && Find(later, id).None? && Find(s.dead, id).None?
    case Terminal(younger) => Find(s.live, id).None? && Buried(s, id, younger)
  }

  lemma LiveIsFound(s: Store, at: int, later: seq<Seen>, id: string)
    requires Follows(s, Live(at, later), id)
    ensures Find(s.live, id) == Some(at) && Find(s.dead, id).None?
  {
    hide Find;
    var head := EndsSplit(s.live, [Seen(id, at)] + later);
    assert s.live == (head + [Seen(id, at)]) + later;
    FindConcat(head + [Seen(id, at)], later, id);
    FindSnoc(head, Seen(id, at), id);
  }

  lemma BuriedIsFound(s: Store, younger: nat, id: string)
    requires Buried(s, id, younger)
    ensures Find(s.dead, id).Some?
  {
    FindIsLookup(s.dead, id);
  }

  lemma TouchSelf(s: Store, id: string, now: int)
    requires id != ""
    ensures Follows(TouchStep(s, id, now), Live(now, []), id)
  {
    hide Without, Find;
    var e := Seen(id, now);
    NothingFound(id);
    FindWithout(s.dead, id);
    TrimEnds(Without(s.live, id) + [e], s.max, e, []);
    TrimKeepsLast(Without(s.live, id), e, s.max);
    assert [e] + [] == [e];
  }

  lemma TrimKeepsLast(m: seq<Seen>, e: Seen, max: nat)
    ensures Ends(Trim(m + [e], max), [e])
  {
  }

  /** A request that carries the id itself. */
  lemma OwnRequest(s: Store, now: int, a: Arrival, id: string, life: Life)
    requires Valid(s, now) && now <= a.at && id != "" && Follows(s, life, id)
    requires !a.request.Admin? && a.request.id == id
    ensures Serve(s, a).1 == AnswerFor(s.ttl, life, a)
    ensures Follows(Serve(s, a).0, OwnStep(s.ttl, life, a), id)
  {
    hide Valid, Find, Without, Trim, TouchStep, HasId, Buried;
    FindWithout(s.live, id);
    if life.Live? {
      LiveIsFound(s, life.at, life.later, id);
    } else if life.Terminal? {
      BuriedIsFound(s, life.younger, id);
    }
    if a.request.Post? {
      TouchSelf(s, id, a.at);
      TouchTwice(s, id, a.at);
    } else {
      if Serve(s, a).1.Ok? {
        JustDropped(s, Serve(s, a).0, id, a.at);
      }
    }
  }

  lemma JustDropped(s: Store, dropped: Store, id: string, now: int)
    requires dropped.dead == Trim(Without(s.dead, id) + [Seen(id, now)], s.max)
    ensures Buried(dropped, id, 0)
  {
    hide Without;
  }

  /** An exchange about other ids leaves an unknown one unknown. */
  lemma StaysUnknown(s: Store, now: int, a: Arrival, id: string)
    requires Valid(s, now) && now <= a.at && NoEmptyId(s) && id != "" && !Concerns(a, id)
    requires Find(s.live, id).None?
    ensures Find(Serve(s, a).0.live, id).None?
  {
    hide Valid, Find, Without, Trim, Unexpired, Serve, Unlapsed;
    var e := Exchange(a, Serve(s, a).1);
    LiveIsAfter(s, now, a);
    if a.request.Admin? {
      UnexpiredIsUnlapsed(s, s.live, a.at);
      UnlapsedLacks(s.ttl, s.live, a.at, id);
    } else if Accepted(e) != "" {
      ReinsertLacks(s.live, Accepted(e), a.at, s.max, id);
    } else {
      FindWithoutOther(s.live, Removed(e), id);
    }
  }

  /** What it makes of the entries behind a live one. */
  lemma TailAfter(s: Store, now: int, a: Arrival, own: Seen, later: seq<Seen>)
    requires Valid(s, now) && now <= a.at && NoEmptyId(s) && own.id != "" && !Concerns(a, own.id)
    requires Ends(s.live, [own] + later) && Find(later, own.id).None?
    ensures var life := OthersStep(s.ttl, s.max, Live(own.at, later), Exchange(a, Serve(s, a).1));
            var live := Serve(s, a).0.live;
            && !life.Terminal?
            && (life.Unknown? ==> Find(live, own.id).None?)
            && (life.Live? ==>
                  life.at == own.at && Ends(live, [own] + life.later) && Find(life.later, own.id).None?)
  {
    hide Valid, Find, Without, Trim, Unexpired, Serve, Unlapsed, Lapsed, Ends;
    var e := Exchange(a, Serve(s, a).1);
    LiveIsAfter(s, now, a);
    if a.request.Admin? {
      UnexpiredIsUnlapsed(s, s.live, a.at);
      LiveDistinct(s, now);
      TailUnlapsed(s.ttl, s.live, own, later, a.at);
    } else if Accepted(e) != "" {
      var other := Seen(Accepted(e), a.at);
      TailWithout(s.live, own, later, other.id);
      TailSnoc(Without(s.live, other.id), own, Without(later, other.id), other);
      TrimEnds(Without(s.live, other.id) + [other], s.max, own, Without(later, other.id) + [other]);
    } else {
      TailWithout(s.live, own, later, Removed(e));
    }
  }

  lemma LiveDistinct(s: Store, now: int)
    requires Valid(s, now)
    ensures DistinctIds(s.live)
  {
  }

  lemma TailWithout(m: seq<Seen>, own: Seen, later: seq<Seen>, id: string)
    requires Ends(m, [own] + later) && Find(later, own.id).None? && id != own.id
    ensures Ends(Without(m, id), [own] + Without(later, id)) && Find(Without(later, id), own.id).None?
  {
    hide Without, Find;
    var head := EndsSplit(m, [own] + later);
    WithoutConcat(head, [own] + later, id);
    WithoutOther(own, later, id);
    FindWithoutOther(later, id, own.id);
  }

  lemma TailSnoc(m: seq<Seen>, own: Seen, later: seq<Seen>, e: Seen)
    requires Ends(m, [own] + later) && Find(later, own.id).None? && e.id != own.id
    ensures Ends(m + [e], [own] + (later + [e])) && Find(later + [e], own.id).None?
  {
    hide Find;
    var head := EndsSplit(m, [own] + later);
    assert m + [e] == head + ([own] + (later + [e]));
    FindSnoc(later, e, own.id);
  }

  lemma TailUnlapsed(ttl: nat, m: seq<Seen>, own: Seen, later: seq<Seen>, now: int)
    requires Ends(m, [own] + later) && Find(later, own.id).None?
    requires DistinctIds(m)
    ensures var kept := Unlapsed(ttl, m, now);
            if Lapsed(ttl, own.at, now) then Find(kept, own.id).None?
            else Ends(kept, [own] + Unlapsed(ttl, later, now)) && Find(Unlapsed(ttl, later, now), own.id).None?
  {
    hide Unlapsed, Find, Lapsed;
    var head := EndsSplit(m, [own] + later);
    UnlapsedConcat(ttl, head, [own] + later, now);
    UnlapsedConcat(ttl, [own], later, now);
    UnlapsedOne(ttl, own, now);
    UnlapsedLacks(ttl, later, now, own.id);
    if Lapsed(ttl, own.at, now) {
      HeadLacks(head, own, later);
      UnlapsedLacks(ttl, head, now, own.id);
      FindConcat(Unlapsed(ttl, head, now), Unlapsed(ttl, later, now), own.id);
      assert Unlapsed(ttl, m, now) == Unlapsed(ttl, head, now) + Unlapsed(ttl, later, now);
    } else {
      assert Unlapsed(ttl, m, now) == Unlapsed(ttl, head, now) + ([own] + Unlapsed(ttl, later, now));
    }
  }

  lemma UnlapsedOne(ttl: nat, e: Seen, now: int)
    ensures Unlapsed(ttl, [e], now) == if Lapsed(ttl, e.at, now) then [] else [e]
  {
    assert [e][..0] == [];
  }

  lemma HeadLacks(head: seq<Seen>, own: Seen, later: seq<Seen>)
    requires DistinctIds(head + ([own] + later))
    ensures Find(head, own.id).None?
  {
    hide Find;
    var m := head + ([own] + later);
    FindIsLookup(head, own.id);
    forall k | 0 <= k < |head| ensures head[k].id != own.id {
      assert m[k].id != m[|head|].id;
    }
  }

  /** What it makes of the tombstones. */
  lemma TombstoneAfter(s: Store, now: int, a: Arrival, id: string, younger: nat)
    requires Valid(s, now) && now <= a.at && !Concerns(a, id) && Buried(s, id, younger)
    requires a.request.Post? ==> !HasId(s.dead, a.request.generated)
    requires s.max > 0 ==> younger < s.max
    ensures var life := OthersStep(s.ttl, s.max, Terminal(younger), Exchange(a, Serve(s, a).1));
            var s' := Serve(s, a).0;
            if life.Unknown? then Find(s'.dead, id).None? else life.Terminal? && Buried(s', id, life.younger)
  {
    hide Valid, Serve, Trim, HasId, DistinctIds, WithinCap, Find;
    DeadAfter(s, now, a);
    DeadParts(s, now);
    FindIsLookup(Serve(s, a).0.dead, id);
    if Terminates(s, a) {
      BuriedDeeper(s.dead, Seen(a.request.id, a.at), s.max, id, younger);
    }
  }

  /** And of an id without a tombstone. */
  lemma StaysUnburied(s: Store, now: int, a: Arrival, id: string)
    requires Valid(s, now) && now <= a.at && !Concerns(a, id) && Find(s.dead, id).None?
    requires a.request.Post? ==> !HasId(s.dead, a.request.generated)
    ensures Find(Serve(s, a).0.dead, id).None?
  {
    hide Valid, Serve, Trim, HasId, Find;
    DeadAfter(s, now, a);
    if Terminates(s, a) {
      var e := Seen(a.request.id, a.at);
      FindSnoc(s.dead, e, id);
      TrimLacks(s.dead + [e], s.max, id);
    }
  }

  lemma BuriedInCap(s: Store, now: int, id: string, younger: nat)
    requires Valid(s, now) && Buried(s, id, younger)
    ensures s.max > 0 ==> younger < s.max
  {
  }

  lemma OtherRequest(s: Store, now: int, a: Arrival, id: string, life: Life)
    requires Valid(s, now) && now <= a.at && NoEmptyId(s) && id != "" && Follows(s, life, id) && !Concerns(a, id)
    requires a.request.Post? ==> !HasId(s.dead, a.request.generated)
    ensures Follows(Serve(s, a).0, OthersStep(s.ttl, s.max, life, Exchange(a, Serve(s, a).1)), id)
  {
    hide Valid, Serve, Find, Ends, Buried, HasId, NoEmptyId, Concerns, Lapsed, Accepted, Removed, Unlapsed, Without;
    match life
    case Unknown =>
      StaysUnknown(s, now, a, id);
      StaysUnburied(s, now, a, id);
    case Live(at, later) =>
      TailAfter(s, now, a, Seen(id, at), later);
      StaysUnburied(s, now, a, id);
    case Terminal(younger) =>
      BuriedInCap(s, now, id, younger);
      TombstoneAfter(s, now, a, id, younger);
      StaysUnknown(s, now, a, id);
  }

  lemma StepFollows(s: Store, now: int, a: Arrival, id: string, life: Life)
    requires Valid(s, now) && now <= a.at && NoEmptyId(s) && id != "" && Follows(s, life, id)
    requires a.request.Post? ==> !HasId(s.dead, a.request.generated)
    ensures Follows(Serve(s, a).0, LifeStep(s.ttl, s.max, life, id, Exchange(a, Serve(s, a).1)), id)
  {
    hide Valid, CheckStep, DropStep, TouchStep, Follows, HasId, NoEmptyId, OwnStep, OthersStep;
    if !Concerns(a, id) {
      OtherRequest(s, now, a, id, life);
    } else if a.request.id == id {
      OwnRequest(s, now, a, id, life);
    } else {
      TouchSelf(s, id, a.at);
    }
  }

  lemma TranscriptStep(s: Store, arrivals: seq<Arrival>, ttl: nat, max: nat, id: string)
    requires arrivals != []
    ensures var before, last := arrivals[..|arrivals| - 1], arrivals[|arrivals| - 1];
            LifeOf(ttl, max, Transcript(s, arrivals), id)
            == LifeStep(ttl, max, LifeOf(ttl, max, Transcript(s, before), id), id,
                        Exchange(last, Serve(ServeAll(s, before), last).1))
  {
    hide Serve, LifeStep;
    var log := Transcript(s, arrivals);
    assert log[..|log| - 1] == Transcript(s, arrivals[..|arrivals| - 1]);
  }

  lemma ServeKeepsSettings(s: Store, a: Arrival)
    ensures Serve(s, a).0.ttl == s.ttl && Serve(s, a).0.max == s.max
  {
    hide Find, Without, Trim, Unexpired, IsExpired;
  }

  lemma NothingYet(ttl: nat, max: nat, id: string, since: int)
    ensures var s := ServeAll(Store(ttl, max, [], []), []);
            && Valid(s, since) && s.ttl == ttl && s.max == max && NoEmptyId(s)
            && Follows(s, LifeOf(ttl, max, Transcript(s, []), id), id)
  {
  }

  lemma {:induction false} LivesAreFollowed(ttl: nat, max: nat, arrivals: seq<Arrival>, id: string, since: int)
    requires id != "" && Admissible(Store(ttl, max, [], []), arrivals, since)
    ensures var empty := Store(ttl, max, [], []);
            var s := ServeAll(empty, arrivals);
            && Valid(s, LastArrival(arrivals, since)) && s.ttl == ttl && s.max == max && NoEmptyId(s)
            && Follows(s, LifeOf(ttl, max, Transcript(empty, arrivals), id), id)
    decreases |arrivals|
  {
    hide Valid, Follows, Serve, LifeStep, LifeOf, Transcript, HasId, NoEmptyId, Admissible;
    var empty := Store(ttl, max, [], []);
    if arrivals == [] {
      NothingYet(ttl, max, id, since);
      SameStart(empty);
    } else {
      var before, last := arrivals[..|arrivals| - 1], arrivals[|arrivals| - 1];
      var s, now := ServeAll(empty, before), LastArrival(before, since);
      AdmissibleParts(empty, arrivals, since);
      LivesAreFollowed(ttl, max, before, id, since);
      ServeKeeps(s, now, last);
      ServeKeepsSettings(s, last);
      StaysNamed(s, now, last);
      StepFollows(s, now, last, id, LifeOf(ttl, max, Transcript(empty, before), id));
      TranscriptStep(empty, arrivals, ttl, max, id);
    }
  }

  lemma SameStart(s: Store)
    ensures ServeAll(s, []) == s && Transcript(s, []) == []
  {
  }

  /** Main result: in every run, with any cap, the answer to a request that carries an id follows from what its
      requests were and from what the others were answered: a POST is accepted exactly when nothing is known
      of the id or less than the time to live has passed since it was last accepted; a terminated id is not
      found; and an id is forgotten when a request or a listing finds it expired, when as many others as the
      cap are live after it, or when as many sessions as the cap were terminated after it. */
  lemma AnswersFollowLives(ttl: nat, max: nat, arrivals: seq<Arrival>, next: Arrival, since: int)
    requires !next.request.Admin? && next.request.id != "" && LastArrival(arrivals, since) <= next.at
    requires Admissible(Store(ttl, max, [], []), arrivals, since)
    ensures var empty := Store(ttl, max, [], []);
            Serve(ServeAll(empty, arrivals), next).1
            == AnswerFor(ttl, LifeOf(ttl, max, Transcript(empty, arrivals), next.request.id), next)
  {
    hide *;
    var id, empty := next.request.id, Store(ttl, max, [], []);
    LivesAreFollowed(ttl, max, arrivals, id, since);
    var life := LifeOf(ttl, max, Transcript(empty, arrivals), id);
    OwnRequest(ServeAll(empty, arrivals), LastArrival(arrivals, since), next, id, life);
  }

  // ----- Without a cap -----

  /** The exchanges that concern an id, and the listings. */
  function Concerning(log: seq<Exchange>, id: string): seq<Exchange> {
    if log == [] then []
    else
      var last := log[|log| - 1];
      Concerning(log[..|log| - 1], id)
      + if Concerns(last.arrival, id) || last.arrival.request.Admin? then [last] else []
  }

  /** A life without what is remembered of the others. */
  function Own(life: Life): Life {
    match life
    case Unknown => Unknown
    case Live(at, _) => Live(at, [])
    case Terminal(_) => Terminal(0)
  }

  lemma UncappedStep(ttl: nat, life: Life, other: Life, id: string, e: Exchange)
    requires Own(life) == Own(other)
    ensures Own(LifeStep(ttl, 0, life, id, e)) == Own(LifeStep(ttl, 0, other, id, e))
    ensures !Concerns(e.arrival, id) && !e.arrival.request.Admin? ==> Own(LifeStep(ttl, 0, life, id, e)) == Own(life)
  {
    hide Without, Unlapsed, Accepted, Removed;
  }

  lemma {:induction false} UncappedLife(ttl: nat, log: seq<Exchange>, id: string)
    ensures Own(LifeOf(ttl, 0, log, id)) == Own(LifeOf(ttl, 0, Concerning(log, id), id))
    decreases |log|
  {
    if log == [] {
    } else {
      hide LifeStep, Own, Concerns;
      var before, last := log[..|log| - 1], log[|log| - 1];
      var kept := Concerning(before, id);
      UncappedLife(ttl, before, id);
      UncappedStep(ttl, LifeOf(ttl, 0, before, id), LifeOf(ttl, 0, kept, id), id, last);
      assert (kept + [last])[..|kept|] == kept;
      assert kept + [] == kept;
    }
  }

  /** Without a cap only the requests that concern the id and the listings matter. */
  lemma NoCapNoOthers(ttl: nat, log: seq<Exchange>, id: string, next: Arrival)
    ensures AnswerFor(ttl, LifeOf(ttl, 0, log, id), next)
         == AnswerFor(ttl, LifeOf(ttl, 0, Concerning(log, id), id), next)
  {
    hide LifeOf, Concerning;
    UncappedLife(ttl, log, id);
  }
}
