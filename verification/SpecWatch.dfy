/**
 The watcher of a remote OpenAPI document: `bets/a-sdk-mcp-gen/src/fetch-spec.js` decides whether a poll
 saw a change, and `startUrlWatch` of `cli.js` regenerates the client code when it did.
 */
module SpecWatch {
  import opened Wrappers

  /** The SHA-256 hash of a body, taken to be injective. */
  datatype Digest = HashOf(body: string)

  datatype WatchState = WatchState(etag: Option<string>, lastModified: Option<string>, hash: Option<Digest>)

  /** What `fetchOpenApiText` returns; a 304 has no body. */
  datatype Fetched = Fetched(
    text: string, etag: Option<string>, lastModified: Option<string>, hash: Option<Digest>, notModified: bool)

  /** An absent header and an empty one count the same. */
  function OrNull(header: Option<string>): Option<string> {
    if header == Some("") then None else header
  }

  function Either(first: Option<string>, second: Option<string>): Option<string> {
    if OrNull(first).Some? then first else OrNull(second)
  }

  function StateFromFetch(f: Fetched): WatchState {
    WatchState(OrNull(f.etag), OrNull(f.lastModified), OrHash(f))
  }

  /** The hash that came with the answer, or else that of its text. */
  function OrHash(f: Fetched): Option<Digest> {
    if f.hash.Some? then f.hash else if !f.notModified then Some(HashOf(f.text)) else None
  }

  datatype Change = Skip | Regenerate

  function RemoteChange(prev: WatchState, f: Fetched): Change {
    if f.notModified then Skip
    else if OrNull(prev.etag).Some? && OrNull(f.etag).Some? && prev.etag == f.etag then Skip
    else
      var hash := if f.hash.Some? then f.hash else Some(HashOf(f.text));
      if prev.hash.Some? && prev.hash == hash then Skip else Regenerate
  }

  function NextState(prev: WatchState, f: Fetched): WatchState {
    if f.notModified then WatchState(Either(f.etag, prev.etag), Either(f.lastModified, prev.lastModified), prev.hash)
    else StateFromFetch(f)
  }

  // ----- Polls -----

  /** One poll, as seen from the server: no usable answer, or an answer while its document is `body`. The
      answer carries the body unless it is a 304, and perhaps its hash; `works` says whether generating from the
      body succeeds. */
  datatype Poll =
    | NoAnswer
    | Answer(body: string, etag: Option<string>, lastModified: Option<string>, notModified: bool, hashed: bool,
             works: bool)

  function Received(p: Poll): Fetched
    requires p.Answer?
  {
    if p.notModified then Fetched("", p.etag, p.lastModified, None, true)
    else Fetched(p.body, p.etag, p.lastModified, if p.hashed then Some(HashOf(p.body)) else None, false)
  }

  /** The watcher's state, and every body that was generated from, the first run included. */
  datatype Watcher = Watcher(prev: WatchState, generated: seq<string>)

  /** A timer tick whose fetch ended with `answer`, or failed. */
  function TickStep(w: Watcher, answer: Option<Fetched>, works: bool): Watcher {
    match answer
    case None => w
    case Some(f) =>
      var next := w.(prev := NextState(w.prev, f));
      if RemoteChange(w.prev, f).Skip? || f.notModified || f.text == "" || !works then next
      else next.(generated := w.generated + [f.text])
  }

  function PollStep(w: Watcher, p: Poll): Watcher {
    if p.NoAnswer? then TickStep(w, None, false) else TickStep(w, Some(Received(p)), p.works)
  }

  class UrlWatch {
    var prev: WatchState
    var generated: seq<string>

    ghost function Model(): Watcher
      reads this
    {
      Watcher(prev, generated)
    }

    constructor (first: Fetched)
      ensures Model() == Watcher(StateFromFetch(first), [first.text])
    {
      prev, generated := StateFromFetch(first), [first.text];
    }

    method Tick(answer: Option<Fetched>, works: bool)
      modifies this
      ensures Model() == TickStep(old(Model()), answer, works)
    {
      if answer.None? {
        return;
      }
      var fetched := answer.value;
      var change := RemoteChange(prev, fetched);
      prev := NextState(prev, fetched);
      if change != Regenerate {
        return;
      }
      if fetched.notModified || fetched.text == "" {
        return;
      }
      if works {
        generated := generated + [fetched.text];
      }
    }
  }

  // ----- The specification: bodies only -----

  /** The server's document at the last answered poll. */
  function BodyAfter(first: Poll, polls: seq<Poll>): string
    requires first.Answer?
  {
    if polls == [] then first.body
    else if polls[|polls| - 1].Answer? then polls[|polls| - 1].body
    else BodyAfter(first, polls[..|polls| - 1])
  }

  /** The bodies that a watcher should generate from: each one that differs from the one before it, unless it
      is empty or generating from it fails. */
  function Wanted(first: Poll, polls: seq<Poll>): seq<string>
    requires first.Answer?
  {
    if polls == [] then [first.body]
    else
      var before, last := polls[..|polls| - 1], polls[|polls| - 1];
      if last.Answer? && last.body != BodyAfter(first, before) && last.body != "" && last.works then
        Wanted(first, before) + [last.body]
      else Wanted(first, before)
  }

  predicate Tagged(p: Poll, etag: string) {
    p.Answer? && p.etag == Some(etag)
  }

  predicate ShareTag(p: Poll, q: Poll) {
    p.Answer? && q.Answer? && p.etag.Some? && p.etag.value != "" && p.etag == q.etag
  }

  /** Sections 13.1.2 and 15.4.5 of RFC 9110: answers with the same entity tag have the same body, and a 304
      answers for the body of the answer before it. */
  ghost predicate Honest(first: Poll, polls: seq<Poll>)
    requires first.Answer?
  {
    && (forall i, j :: 0 <= i < |polls| && 0 <= j < |polls| && ShareTag(polls[i], polls[j]) ==>
          polls[i].body == polls[j].body)
    && (forall i :: 0 <= i < |polls| && ShareTag(first, polls[i]) ==> polls[i].body == first.body)
    && (forall i :: 0 <= i < |polls| && polls[i].Answer? && polls[i].notModified
          ==> polls[i].body == BodyAfter(first, polls[..i]))
  }

  function Run(first: Poll, polls: seq<Poll>): Watcher
    requires first.Answer?
  {
    if polls == [] then Watcher(StateFromFetch(Received(first)), [first.body])
    else PollStep(Run(first, polls[..|polls| - 1]), polls[|polls| - 1])
  }

  // ----- Refinement -----

  /** The tag that the watcher keeps was seen on an answer with the current body. */
  ghost predicate TagSeen(first: Poll, polls: seq<Poll>, etag: string)
    requires first.Answer?
  {
    || (Tagged(first, etag) && first.body == BodyAfter(first, polls))
    || exists i :: 0 <= i < |polls| && Tagged(polls[i], etag) && polls[i].body == BodyAfter(first, polls)
  }

  ghost predicate UpToDate(first: Poll, polls: seq<Poll>)
    requires first.Answer?
  {
    var w := Run(first, polls);
    && w.prev.hash == Some(HashOf(BodyAfter(first, polls)))
    && (w.prev.etag.Some? ==> w.prev.etag.value != "" && TagSeen(first, polls, w.prev.etag.value))
    && w.generated == Wanted(first, polls)
  }

  lemma HonestPrefix(first: Poll, polls: seq<Poll>)
    requires first.Answer? && polls != [] && Honest(first, polls)
    ensures Honest(first, polls[..|polls| - 1])
  {
    var before := polls[..|polls| - 1];
    forall i | 0 <= i < |before| && before[i].Answer? && before[i].notModified
      ensures before[i].body == BodyAfter(first, before[..i])
    {
      assert before[..i] == polls[..i];
    }
  }

  lemma SameTagSameBody(first: Poll, polls: seq<Poll>, etag: string)
    requires first.Answer? && polls != [] && Honest(first, polls)
    requires TagSeen(first, polls[..|polls| - 1], etag) && etag != "" && Tagged(polls[|polls| - 1], etag)
    ensures polls[|polls| - 1].body == BodyAfter(first, polls[..|polls| - 1])
  {
    hide BodyAfter, Honest;
    var before, last := polls[..|polls| - 1], |polls| - 1;
    if Tagged(first, etag) && first.body == BodyAfter(first, before) {
      TagOfFirst(first, polls, last);
    } else {
      var i :| 0 <= i < |before| && Tagged(before[i], etag) && before[i].body == BodyAfter(first, before);
      TagOfPoll(first, polls, i, last);
    }
  }

  lemma TagOfFirst(first: Poll, polls: seq<Poll>, i: nat)
    requires first.Answer? && Honest(first, polls) && i < |polls| && ShareTag(first, polls[i])
    ensures polls[i].body == first.body
  {
    hide BodyAfter;
  }

  lemma TagOfPoll(first: Poll, polls: seq<Poll>, i: nat, j: nat)
    requires first.Answer? && Honest(first, polls) && i < |polls| && j < |polls| && ShareTag(polls[i], polls[j])
    ensures polls[i].body == polls[j].body
  {
    hide BodyAfter;
  }

  /** An up-to-date watcher sees a change exactly when the body has changed. */
  lemma ChangeWhenUpToDate(first: Poll, polls: seq<Poll>)
    requires first.Answer? && polls != [] && Honest(first, polls) && polls[|polls| - 1].Answer?
    requires UpToDate(first, polls[..|polls| - 1])
    ensures var before, last := polls[..|polls| - 1], polls[|polls| - 1];
            RemoteChange(Run(first, before).prev, Received(last)).Regenerate?
            <==> last.body != BodyAfter(first, before)
  {
    hide BodyAfter, Run, TagSeen, Wanted;
    var before, last := polls[..|polls| - 1], polls[|polls| - 1];
    var prev := Run(first, before).prev;
    if last.notModified {
      assert last.body == BodyAfter(first, polls[..|polls| - 1]);
    } else if prev.etag.Some? && prev.etag == last.etag {
      assert Tagged(last, prev.etag.value);
      SameTagSameBody(first, polls, prev.etag.value);
    }
  }

  lemma TagStaysSeen(first: Poll, polls: seq<Poll>, etag: string)
    requires first.Answer? && polls != [] && TagSeen(first, polls[..|polls| - 1], etag)
    requires BodyAfter(first, polls) == BodyAfter(first, polls[..|polls| - 1])
    ensures TagSeen(first, polls, etag)
  {
    hide BodyAfter;
    var before := polls[..|polls| - 1];
    if !(Tagged(first, etag) && first.body == BodyAfter(first, before)) {
      var i :| 0 <= i < |before| && Tagged(before[i], etag) && before[i].body == BodyAfter(first, before);
      assert Tagged(polls[i], etag);
    }
  }

  lemma NewTagIsSeen(first: Poll, polls: seq<Poll>, etag: string)
    requires first.Answer? && polls != [] && Tagged(polls[|polls| - 1], etag)
    ensures TagSeen(first, polls, etag)
  {
  }

  lemma UpToDateNext(first: Poll, polls: seq<Poll>)
    requires first.Answer? && polls != [] && Honest(first, polls) && UpToDate(first, polls[..|polls| - 1])
    ensures UpToDate(first, polls)
  {
    hide Honest, TagSeen, RemoteChange;
    var before, last := polls[..|polls| - 1], polls[|polls| - 1];
    var prev, next := Run(first, before).prev, Run(first, polls).prev;
    if last.Answer? {
      ChangeWhenUpToDate(first, polls);
      NotModifiedKeepsBody(first, polls);
      if next.etag.Some? {
        if next.etag == last.etag {
          NewTagIsSeen(first, polls, next.etag.value);
        } else {
          TagStaysSeen(first, polls, next.etag.value);
        }
      }
    } else if next.etag.Some? {
      TagStaysSeen(first, polls, next.etag.value);
    }
  }

  lemma NotModifiedKeepsBody(first: Poll, polls: seq<Poll>)
    requires first.Answer? && polls != [] && Honest(first, polls) && polls[|polls| - 1].Answer?
    ensures polls[|polls| - 1].notModified ==> polls[|polls| - 1].body == BodyAfter(first, polls[..|polls| - 1])
  {
    hide BodyAfter;
  }

  /** The document that the first run generated from. */
  ghost predicate Loaded(first: Poll) {
    first.Answer? && !first.notModified
  }

  lemma {:induction false} RunIsUpToDate(first: Poll, polls: seq<Poll>)
    requires Loaded(first) && Honest(first, polls)
    ensures UpToDate(first, polls)
    decreases |polls|
  {
    if polls == [] {
    } else {
      hide UpToDate, Honest;
      HonestPrefix(first, polls);
      RunIsUpToDate(first, polls[..|polls| - 1]);
      UpToDateNext(first, polls);
    }
  }

  /** Main result: on an honest server every poll that is answered, with a 304, a known tag or a new text, is
      taken for a change exactly when the document is not the one of the answer before it. */
  lemma ChangeIsChange(first: Poll, polls: seq<Poll>)
    requires Loaded(first) && Honest(first, polls) && polls != [] && polls[|polls| - 1].Answer?
    ensures var before, last := polls[..|polls| - 1], polls[|polls| - 1];
            RemoteChange(Run(first, before).prev, Received(last)).Regenerate?
            <==> last.body != BodyAfter(first, before)
  {
    hide UpToDate, Honest, RemoteChange;
    HonestPrefix(first, polls);
    RunIsUpToDate(first, polls[..|polls| - 1]);
    ChangeWhenUpToDate(first, polls);
  }

  /** Main result: on an honest server, whatever mixture of full answers, 304s, entity tags and failures it
      gives, the watcher generates from exactly the bodies that differ from the body before them, in
      order, leaving out the empty ones and those that fail. */
  lemma GeneratesOnChange(first: Poll, polls: seq<Poll>)
    requires Loaded(first) && Honest(first, polls)
    ensures Run(first, polls).generated == Wanted(first, polls)
  {
    RunIsUpToDate(first, polls);
  }

  // ----- What that means -----

  ghost predicate AllGenerate(polls: seq<Poll>) {
    forall i :: 0 <= i < |polls| && polls[i].Answer? ==> polls[i].body != "" && polls[i].works
  }

  ghost predicate NoRepeat(bodies: seq<string>) {
    forall i :: 0 < i < |bodies| ==> bodies[i - 1] != bodies[i]
  }

  lemma {:induction false} WantedIsCurrent(first: Poll, polls: seq<Poll>)
    requires first.Answer? && AllGenerate(polls)
    ensures var wanted := Wanted(first, polls);
            wanted != [] && wanted[|wanted| - 1] == BodyAfter(first, polls) && NoRepeat(wanted)
  {
    if polls != [] {
      WantedIsCurrent(first, polls[..|polls| - 1]);
    }
  }

  /** Main result: when every body is a document that generates, the last generated body is the server's at
      the last answered poll, and no body is generated twice in a row. */
  lemma GeneratedIsCurrent(first: Poll, polls: seq<Poll>)
    requires Loaded(first) && Honest(first, polls) && AllGenerate(polls)
    ensures var generated := Run(first, polls).generated;
            generated != [] && generated[|generated| - 1] == BodyAfter(first, polls) && NoRepeat(generated)
  {
    hide Run, Wanted, Honest;
    GeneratesOnChange(first, polls);
    WantedIsCurrent(first, polls);
  }

  // ----- Failures and returns -----

  /** The server's document at poll `k`; the document of the first run counts as poll -1. */
  function BodyAt(first: Poll, polls: seq<Poll>, k: int): string
    requires first.Answer? && -1 <= k < |polls| && (k >= 0 ==> polls[k].Answer?)
  {
    if k == -1 then first.body else polls[k].body
  }

  /** Poll `k` shows a document other than the one before it. */
  predicate Changed(first: Poll, polls: seq<Poll>, k: int)
    requires first.Answer?
  {
    0 <= k < |polls| && polls[k].Answer? && polls[k].body != BodyAfter(first, polls[..k])
  }

  /** Poll `k` shows a new document that is not empty and generates. */
  predicate Worked(first: Poll, polls: seq<Poll>, k: int)
    requires first.Answer?
  {
    Changed(first, polls, k) && polls[k].body != "" && polls[k].works
  }

  /** The last poll that showed a new document, -1 when all showed the first one. */
  ghost predicate LastChange(first: Poll, polls: seq<Poll>, k: int)
    requires first.Answer?
  {
    && -1 <= k < |polls| && (k >= 0 ==> Changed(first, polls, k))
    && forall m :: k < m < |polls| ==> !Changed(first, polls, m)
  }

  /** The last poll before `end` that showed a new document which generates, -1 for the first run: every new
      document after it was empty or failed. */
  ghost predicate LastWorked(first: Poll, polls: seq<Poll>, end: nat, k: int)
    requires first.Answer? && end <= |polls|
  {
    && -1 <= k < end && (k >= 0 ==> Worked(first, polls, k))
    && forall m :: k < m < end && Changed(first, polls, m) ==> polls[m].body == "" || !polls[m].works
  }

  /** Poll `k` brings back the document that was the last to generate before it, at `j`. */
  ghost predicate Returns(first: Poll, polls: seq<Poll>, j: int, k: int)
    requires first.Answer?
  {
    && 0 <= k < |polls| && Worked(first, polls, k) && LastWorked(first, polls, k, j)
    && polls[k].body == BodyAt(first, polls, j)
  }

  lemma PrefixSame(first: Poll, polls: seq<Poll>, k: int)
    requires first.Answer? && polls != [] && k < |polls| - 1
    ensures var before := polls[..|polls| - 1];
            && Changed(first, before, k) == Changed(first, polls, k)
            && Worked(first, before, k) == Worked(first, polls, k)
  {
    hide BodyAfter;
    if k >= 0 {
      assert polls[..|polls| - 1][..k] == polls[..k];
    }
  }

  lemma LastWorkedPrefix(first: Poll, polls: seq<Poll>, end: nat, j: int)
    requires first.Answer? && polls != [] && end < |polls|
    ensures LastWorked(first, polls[..|polls| - 1], end, j) == LastWorked(first, polls, end, j)
  {
    hide Changed, Worked;
    forall k | -1 <= k < end
      ensures Changed(first, polls[..|polls| - 1], k) == Changed(first, polls, k)
      ensures Worked(first, polls[..|polls| - 1], k) == Worked(first, polls, k)
    {
      PrefixSame(first, polls, k);
    }
  }

  lemma OneLastWorked(first: Poll, polls: seq<Poll>, end: nat, j: int, k: int)
    requires first.Answer? && end <= |polls| && LastWorked(first, polls, end, j) && LastWorked(first, polls, end, k)
    ensures j == k
  {
    hide BodyAfter;
  }

  /** The last body that was generated from is that of the last poll that worked, and there is one. */
  lemma {:induction false} LastWanted(first: Poll, polls: seq<Poll>) returns (j: int)
    requires first.Answer?
    ensures LastWorked(first, polls, |polls|, j)
    ensures Wanted(first, polls) != []
    ensures Wanted(first, polls)[|Wanted(first, polls)| - 1] == BodyAt(first, polls, j)
    decreases |polls|
  {
    if polls == [] {
      j := -1;
    } else {
      var last := |polls| - 1;
      var before := LastWanted(first, polls[..last]);
      LastWorkedPrefix(first, polls, last, before);
      j := if Worked(first, polls, last) then last else before;
    }
  }

  lemma NoRepeatSnoc(bodies: seq<string>, body: string)
    requires bodies != []
    ensures NoRepeat(bodies + [body]) <==> NoRepeat(bodies) && bodies[|bodies| - 1] != body
  {
    if NoRepeat(bodies + [body]) {
      forall i | 0 < i < |bodies| ensures bodies[i - 1] != bodies[i] {
        assert (bodies + [body])[i - 1] != (bodies + [body])[i];
      }
      assert (bodies + [body])[|bodies| - 1] != (bodies + [body])[|bodies|];
    }
  }

  ghost predicate SomeReturn(first: Poll, polls: seq<Poll>)
    requires first.Answer?
  {
    exists j, k :: Returns(first, polls, j, k)
  }

  lemma ReturnPrefix(first: Poll, polls: seq<Poll>, j: int, k: int)
    requires first.Answer? && polls != [] && k < |polls| - 1
    ensures Returns(first, polls[..|polls| - 1], j, k) == Returns(first, polls, j, k)
  {
    hide Changed, Worked, LastWorked;
    if 0 <= k {
      PrefixSame(first, polls, k);
      LastWorkedPrefix(first, polls, k, j);
      LastWorkedRange(first, polls, k, j);
      LastWorkedRange(first, polls[..|polls| - 1], k, j);
    }
  }

  lemma LastWorkedRange(first: Poll, polls: seq<Poll>, end: nat, j: int)
    requires first.Answer? && end <= |polls|
    ensures LastWorked(first, polls, end, j) ==> -1 <= j < end && (j >= 0 ==> polls[j].Answer?)
  {
    hide BodyAfter;
  }

  lemma SomeReturnNext(first: Poll, polls: seq<Poll>, j: int)
    requires first.Answer? && polls != [] && LastWorked(first, polls, |polls| - 1, j)
    ensures SomeReturn(first, polls)
       <==> SomeReturn(first, polls[..|polls| - 1]) || Returns(first, polls, j, |polls| - 1)
  {
    hide Returns, LastWorked;
    var before, last := polls[..|polls| - 1], |polls| - 1;
    if SomeReturn(first, before) {
      var a, k :| Returns(first, before, a, k);
      ReturnShape(first, before, a, k);
      ReturnPrefix(first, polls, a, k);
    }
    if SomeReturn(first, polls) {
      var a, k :| Returns(first, polls, a, k);
      ReturnShape(first, polls, a, k);
      if k < last {
        ReturnPrefix(first, polls, a, k);
      } else {
        OneLastWorked(first, polls, last, a, j);
      }
    }
  }

  lemma ReturnShape(first: Poll, polls: seq<Poll>, j: int, k: int)
    requires first.Answer? && Returns(first, polls, j, k)
    ensures 0 <= k < |polls| && LastWorked(first, polls, k, j)
  {
    hide LastWorked, Worked;
  }

  lemma WantedNext(first: Poll, polls: seq<Poll>)
    requires first.Answer? && polls != []
    ensures var last := |polls| - 1;
            Wanted(first, polls)
            == if Worked(first, polls, last) then Wanted(first, polls[..last]) + [polls[last].body]
               else Wanted(first, polls[..last])
    ensures Worked(first, polls, |polls| - 1) ==> polls[|polls| - 1].Answer?
  {
    hide BodyAfter;
  }

  lemma ReturnsLast(first: Poll, polls: seq<Poll>, j: int)
    requires first.Answer? && polls != [] && LastWorked(first, polls, |polls| - 1, j)
    ensures -1 <= j < |polls| - 1 && (j >= 0 ==> polls[j].Answer?)
    ensures Returns(first, polls, j, |polls| - 1)
       <==> Worked(first, polls, |polls| - 1) && polls[|polls| - 1].body == BodyAt(first, polls, j)
    ensures BodyAt(first, polls[..|polls| - 1], j) == BodyAt(first, polls, j)
  {
    hide BodyAfter;
  }

  lemma {:induction false} WantedRepeats(first: Poll, polls: seq<Poll>)
    requires first.Answer?
    ensures NoRepeat(Wanted(first, polls)) <==> !SomeReturn(first, polls)
    decreases |polls|
  {
    hide Wanted, Worked, Changed, LastWorked, Returns, NoRepeat, SomeReturn, BodyAt;
    if polls == [] {
      NothingReturns(first);
    } else {
      var last := |polls| - 1;
      WantedRepeats(first, polls[..last]);
      var j := LastWanted(first, polls[..last]);
      LastWorkedPrefix(first, polls, last, j);
      SomeReturnNext(first, polls, j);
      ReturnsLast(first, polls, j);
      WantedNext(first, polls);
      if Worked(first, polls, last) {
        NoRepeatSnoc(Wanted(first, polls[..last]), polls[last].body);
      }
    }
  }

  lemma NothingReturns(first: Poll)
    requires first.Answer?
    ensures NoRepeat(Wanted(first, [])) && !SomeReturn(first, [])
  {
  }

  /** Main result: over every run on an honest server a body is generated twice in a row exactly when some
      poll brings back, as a new document that generates, the one that was the last to generate, all new
      documents in between having been empty or failing. */
  lemma RepeatsExactlyOnReturn(first: Poll, polls: seq<Poll>)
    requires Loaded(first) && Honest(first, polls)
    ensures NoRepeat(Run(first, polls).generated) <==> !exists j, k :: Returns(first, polls, j, k)
  {
    hide Honest, Run, Wanted, NoRepeat, SomeReturn, Returns;
    GeneratesOnChange(first, polls);
    WantedRepeats(first, polls);
    SomeReturnMeans(first, polls);
  }

  lemma SomeReturnMeans(first: Poll, polls: seq<Poll>)
    requires first.Answer?
    ensures SomeReturn(first, polls) <==> exists j, k :: Returns(first, polls, j, k)
  {
    hide Returns;
  }

  lemma {:induction false} BodyOfLastChange(first: Poll, polls: seq<Poll>, c: int)
    requires first.Answer? && LastChange(first, polls, c)
    ensures BodyAfter(first, polls) == BodyAt(first, polls, c)
    decreases |polls|
  {
    if polls != [] && c < |polls| - 1 {
      var last := |polls| - 1;
      forall k | -1 <= k < last ensures Changed(first, polls[..last], k) == Changed(first, polls, k) {
        PrefixSame(first, polls, k);
      }
      assert !Changed(first, polls, last);
      BodyOfLastChange(first, polls[..last], c);
    }
  }

  /** There always is a last change. */
  lemma {:induction false} FindLastChange(first: Poll, polls: seq<Poll>) returns (c: int)
    requires first.Answer?
    ensures LastChange(first, polls, c)
    decreases |polls|
  {
    if polls == [] {
      c := -1;
    } else {
      var last := |polls| - 1;
      var before := FindLastChange(first, polls[..last]);
      forall k | -1 <= k < last ensures Changed(first, polls[..last], k) == Changed(first, polls, k) {
        PrefixSame(first, polls, k);
      }
      c := if Changed(first, polls, last) then last else before;
    }
  }

  /** Main result: after every poll of a run on an honest server, the last generated body is the server's exactly
      when the last new document was not empty and generated, or is the document that was the last to
      generate before it. `c` is the poll of the last new document, `j` that of the last one that generated
      before it; without a new document the first run counts. */
  lemma CurrentExactlyWhen(first: Poll, polls: seq<Poll>, c: int, j: int)
    requires Loaded(first) && Honest(first, polls)
    requires LastChange(first, polls, c) && (c >= 0 ==> LastWorked(first, polls, c, j))
    ensures var generated := Run(first, polls).generated;
            && generated != []
            && (generated[|generated| - 1] == BodyAfter(first, polls)
                <==> c == -1 || (polls[c].body != "" && polls[c].works) || polls[c].body == BodyAt(first, polls, j))
  {
    hide Run, Honest, Wanted, BodyAfter;
    GeneratesOnChange(first, polls);
    BodyOfLastChange(first, polls, c);
    var w := LastWanted(first, polls);
    if c >= 0 {
      LastWorkedSince(first, polls, c, j, w);
    }
  }

  /** After the last change nothing else can have worked. */
  lemma LastWorkedSince(first: Poll, polls: seq<Poll>, c: int, j: int, w: int)
    requires first.Answer? && LastChange(first, polls, c) && c >= 0
    requires LastWorked(first, polls, c, j) && LastWorked(first, polls, |polls|, w)
    ensures w == if polls[c].body != "" && polls[c].works then c else j
  {
    hide BodyAfter;
  }

  ghost predicate Repeats(polls: seq<Poll>, body: string) {
    forall i :: 0 <= i < |polls| && polls[i].Answer? ==> polls[i].body == body
  }

  lemma {:induction false} WantedStays(first: Poll, polls: seq<Poll>, more: seq<Poll>)
    requires first.Answer? && Repeats(more, BodyAfter(first, polls))
    ensures Wanted(first, polls + more) == Wanted(first, polls)
    ensures BodyAfter(first, polls + more) == BodyAfter(first, polls)
  {
    if more == [] {
      assert polls + more == polls;
    } else {
      assert (polls + more)[..|polls + more| - 1] == polls + more[..|more| - 1];
      WantedStays(first, polls, more[..|more| - 1]);
    }
  }

  /** A body is tried once: while the server keeps it, no later poll generates, even when the first try
      failed and another would succeed. */
  lemma FailureIsNotRetried(first: Poll, polls: seq<Poll>, more: seq<Poll>)
    requires Loaded(first) && Honest(first, polls) && Honest(first, polls + more)
    requires Repeats(more, BodyAfter(first, polls))
    ensures Run(first, polls + more).generated == Run(first, polls).generated
  {
    hide Run, Wanted, BodyAfter, Honest;
    GeneratesOnChange(first, polls);
    GeneratesOnChange(first, polls + more);
    WantedStays(first, polls, more);
  }

  /** After a body that fails, the body before it is generated a second time when it returns. */
  lemma ReturnAfterFailureRepeats(good: string, bad: string)
    requires good != bad && good != ""
    ensures var full := (body: string, works: bool) => Answer(body, None, None, false, true, works);
            && Honest(full(good, true), [full(bad, false), full(good, true)])
            && Run(full(good, true), [full(bad, false), full(good, true)]).generated == [good, good]
  {
    var failing, back := Answer(bad, None, None, false, true, false), Answer(good, None, None, false, true, true);
    var polls := [failing, back];
    assert polls[..1] == [failing] && [failing][..0] == [];
    assert BodyAfter(back, [failing]) == bad;
    assert Wanted(back, [failing]) == [good];
    assert Honest(back, polls);
    GeneratesOnChange(back, polls);
  }
}
