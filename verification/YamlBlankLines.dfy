/**
 Blank lines, comment lines and line ends mean nothing to the YAML loader: what it makes of a document depends
 only on the indents and the texts of the other lines. So it reads a printed tree however it is laid out.
 */
module YamlBlankLines {
  import opened Wrappers
  import opened Text
  import opened YamlTree
  import opened YamlLines
  import opened SdkYaml
  import PyRoundTrip = K8sYamlRoundTrip
  import opened YamlAgreement

  /** The lines from `i` on that are not blank, as the parser sees them. */
  ghost function Seen(lines: seq<string>, i: nat): seq<Cleaned>
    requires i <= |lines|
    decreases |lines| - i
  {
    if i == |lines| then []
    else if Clean(lines[i]).text == "" then Seen(lines, i + 1)
    else [Clean(lines[i])] + Seen(lines, i + 1)
  }

  lemma {:induction false} PeekSees(lines: seq<string>, i: nat)
    requires i <= |lines|
    ensures var j := Peek(lines, i);
            && Seen(lines, i) == Seen(lines, j)
            && Seen(lines, j) == if j == |lines| then [] else [Clean(lines[j])] + Seen(lines, j + 1)
    decreases |lines| - i
  {
    hide Clean;
    if i < |lines| && Clean(lines[i]).text == "" {
      PeekSees(lines, i + 1);
    }
  }

  /** The parsers of the two documents are at the same place. */
  ghost predicate Level(a: seq<string>, i: nat, b: seq<string>, k: nat) {
    i <= |a| && k <= |b| && Seen(a, i) == Seen(b, k)
  }

  /** Both parsers fail, or both give the same and are at the same place behind it. */
  ghost predicate Alike<T>(a: seq<string>, r: Result<(T, nat), Error>, b: seq<string>, s: Result<(T, nat), Error>) {
    r.Success? == s.Success? && (r.Success? ==> r.value.0 == s.value.0 && Level(a, r.value.1, b, s.value.1))
  }

  lemma BothPeek(a: seq<string>, i: nat, b: seq<string>, k: nat) returns (p: nat, q: nat)
    requires Level(a, i, b, k)
    ensures p == Peek(a, i) && q == Peek(b, k) && Level(a, p, b, q)
    ensures p == |a| <==> q == |b|
    ensures p < |a| ==> Clean(a[p]) == Clean(b[q]) && Level(a, p + 1, b, q + 1)
  {
    hide Clean, Peek, Seen;
    p, q := Peek(a, i), Peek(b, k);
    PeekSees(a, i);
    PeekSees(b, k);
    if p < |a| && q < |b| {
      assert Seen(a, p)[0] == Seen(b, q)[0] && Seen(a, p)[1..] == Seen(b, q)[1..];
    }
  }

  // ----- The parser, function by function -----

  lemma {:induction false} BlockAlike(a: seq<string>, i: nat, b: seq<string>, k: nat, minIndent: nat)
    requires Level(a, i, b, k)
    ensures Alike(a, ParseBlock(a, i, minIndent), b, ParseBlock(b, k, minIndent))
    decreases |a| - i, 4
  {
    hide Clean, Peek, ParseArray, ParseMapping, IsItem, Level;
    var p, q := BothPeek(a, i, b, k);
    if p < |a| {
      ArrayAlike(a, p, b, q, minIndent, Clean(a[p]).indent, []);
      MappingAlike(a, p, b, q, minIndent, Clean(a[p]).indent, []);
    }
  }

  lemma {:induction false} NestedAlike(a: seq<string>, i: nat, b: seq<string>, k: nat, indent: nat)
    requires Level(a, i, b, k)
    ensures Alike(a, ParseNested(a, i, indent), b, ParseNested(b, k, indent))
    decreases |a| - i, 5
  {
    hide Clean, Peek, ParseBlock, Level;
    var p, q := BothPeek(a, i, b, k);
    if p < |a| {
      BlockAlike(a, p, b, q, Clean(a[p]).indent);
    }
  }

  lemma {:induction false} ArrayAlike(a: seq<string>, i: nat, b: seq<string>, k: nat, minIndent: nat, base: nat,
                                      arr: seq<Value>)
    requires Level(a, i, b, k)
    ensures Alike(a, ParseArray(a, i, minIndent, base, arr), b, ParseArray(b, k, minIndent, base, arr))
    decreases |a| - i, 3
  {
    hide Clean, Peek, ParseItem, IsItem, Level;
    var p, q := BothPeek(a, i, b, k);
    if p < |a| && IsItem(Clean(a[p]).text) {
      ItemAlike(a, p, b, q);
      var r, s := ParseItem(a, p), ParseItem(b, q);
      if r.Success? {
        ArrayAlike(a, r.value.1, b, s.value.1, minIndent, base, arr + [r.value.0]);
      }
    }
  }

  lemma {:induction false} ItemAlike(a: seq<string>, i: nat, b: seq<string>, k: nat)
    requires i < |a| && k < |b| && Clean(a[i]) == Clean(b[k]) && IsItem(Clean(a[i]).text)
    requires Level(a, i + 1, b, k + 1)
    ensures Alike(a, ParseItem(a, i), b, ParseItem(b, k))
    decreases |a| - i, 2
  {
    hide Clean, ParseItemValue, ParseSiblings, ParseNested, ParseScalar, SplitItemEntry, Contains, EndsWith, Level;
    var cur := Clean(a[i]);
    NestedAlike(a, i + 1, b, k + 1, cur.indent);
    var (key, inline) := SplitItemEntry(cur.text[2..]);
    ItemValueAlike(a, i, b, k, inline, cur.indent);
    var r, s := ParseItemValue(a, i, inline, cur.indent), ParseItemValue(b, k, inline, cur.indent);
    if r.Success? {
      SiblingsAlike(a, r.value.1, b, s.value.1, cur.indent, [Entry(key, r.value.0)]);
    }
  }

  lemma {:induction false} ItemValueAlike(a: seq<string>, i: nat, b: seq<string>, k: nat, inline: string, indent: nat)
    requires i < |a| && k < |b| && Level(a, i + 1, b, k + 1)
    ensures Alike(a, ParseItemValue(a, i, inline, indent), b, ParseItemValue(b, k, inline, indent))
    decreases |a| - i, 1
  {
    hide ParseScalar, ParseNested, Level;
    NestedAlike(a, i + 1, b, k + 1, indent);
  }

  lemma {:induction false} SiblingsAlike(a: seq<string>, i: nat, b: seq<string>, k: nat, indent: nat, m: seq<Entry>)
    requires Level(a, i, b, k)
    ensures Alike(a, ParseSiblings(a, i, indent, m), b, ParseSiblings(b, k, indent, m))
    decreases |a| - i, 2
  {
    hide Clean, Peek, ParseItemValue, SplitItemEntry, IsItem, Put, Level;
    var p, q := BothPeek(a, i, b, k);
    if p < |a| {
      var (sib, (key, inline)) := (Clean(a[p]), SplitItemEntry(Clean(a[p]).text));
      ItemValueAlike(a, p, b, q, inline, sib.indent);
      var r, s := ParseItemValue(a, p, inline, sib.indent), ParseItemValue(b, q, inline, sib.indent);
      if r.Success? {
        SiblingsAlike(a, r.value.1, b, s.value.1, indent, Put(m, key, r.value.0));
      }
    }
  }

  lemma {:induction false} MappingAlike(a: seq<string>, i: nat, b: seq<string>, k: nat, minIndent: nat, base: nat,
                                        obj: seq<Entry>)
    requires Level(a, i, b, k)
    ensures Alike(a, ParseMapping(a, i, minIndent, base, obj), b, ParseMapping(b, k, minIndent, base, obj))
    decreases |a| - i, 3
  {
    hide Clean, ParseEntryValue, SplitEntry, IsItem, Put, Level;
    var p, q := BothPeek(a, i, b, k);
    if p < |a| {
      var (cur, (key, inline)) := (Clean(a[p]), SplitEntry(Clean(a[p]).text));
      EntryValueAlike(a, p, b, q, inline, cur.indent);
      var r, s := ParseEntryValue(a, p, inline, cur.indent), ParseEntryValue(b, q, inline, cur.indent);
      if r.Success? {
        MappingAlike(a, r.value.1, b, s.value.1, minIndent, base, Put(obj, key, r.value.0));
      }
    }
  }

  lemma {:induction false} EntryValueAlike(a: seq<string>, i: nat, b: seq<string>, k: nat, inline: string, indent: nat)
    requires i < |a| && k < |b| && Level(a, i + 1, b, k + 1)
    ensures Alike(a, ParseEntryValue(a, i, inline, indent), b, ParseEntryValue(b, k, inline, indent))
    decreases |a| - i, 1
  {
    hide ParseInline, ParseNested, Level;
    NestedAlike(a, i + 1, b, k + 1, indent);
  }

  /** Two documents that differ only in blank lines, comments, blanks at line ends and the kind of line end are
      both rejected or both read as the same tree. */
  lemma BlankLinesSayNothing(s: string, t: string)
    requires Seen(SplitLines(s), 0) == Seen(SplitLines(t), 0)
    ensures ParseYaml(s).Success? <==> ParseYaml(t).Success?
    ensures ParseYaml(s).Success? ==> ParseYaml(s) == ParseYaml(t)
  {
    hide SplitLines, ParseBlock, Seen;
    BlockAlike(SplitLines(s), 0, SplitLines(t), 0, 0);
  }

  // ----- A printed tree, laid out in any way -----

  /** The texts are the lines, each with blanks or a comment behind it, and any blank and comment lines between. */
  predicate Shows(texts: seq<string>, lines: seq<Line>)
    decreases |texts|
  {
    if texts == [] then lines == []
    else
      || (CommentOrTail(texts[0]) && Shows(texts[1..], lines))
      || (&& lines != [] && Render(lines[0]) <= texts[0] && Tail(texts[0][|Render(lines[0])|..])
          && Shows(texts[1..], lines[1..]))
  }

  ghost function CleanedLines(lines: seq<Line>): seq<Cleaned> {
    if lines == [] then [] else [Cleaned(lines[0].indent, lines[0].content)] + CleanedLines(lines[1..])
  }

  /** Nothing in the text ends it: it is a line of its own before either line end. */
  ghost predicate OneLine(text: string) {
    '\n' !in text && (text != "" ==> text[|text| - 1] != '\r')
  }

  lemma BlankIsCut(text: string)
    requires text == "" || CommentOrTail(text)
    ensures Clean(text).text == "" && OneLine(text)
  {
    EmptyTail();
    if text != "" && text[0] == '#' {
      assert text[..0] == "";
    } else {
      assert text[0..] == text;
      TailIsCut(text, 0, false);
      var k := CommentStart(text, 0, false, false);
      assert "" + text[..k] == text[..k];
      TrimRightBlanks("", text[..k]);
    }
    TailHasNoReturn(text);
  }

  lemma {:induction false} ShownAreSeen(all: seq<string>, i: nat, texts: seq<string>, lines: seq<Line>)
    requires Shows(texts, lines) && AllClean(lines)
    requires i <= |all| && (all[i..] == texts || all[i..] == texts + [""])
    ensures Seen(all, i) == CleanedLines(lines)
    ensures forall k :: 0 <= k < |texts| ==> OneLine(texts[k])
    decreases |texts|
  {
    hide Clean, Render, CleanContent, CommentOrTail, Tail, OneLine;
    if texts == [] {
      BlankIsCut("");
    } else {
      assert all[i] == texts[0];
      assert all[i + 1..] == all[i..][1..];
      if CommentOrTail(texts[0]) && Shows(texts[1..], lines) {
        BlankIsCut(texts[0]);
        ShownAreSeen(all, i + 1, texts[1..], lines);
      } else {
        ShownLine(texts[0], lines[0]);
        LineHasText(lines[0]);
        LineIsOne(texts[0]);
        ShownAreSeen(all, i + 1, texts[1..], lines[1..]);
      }
    }
  }

  lemma LineIsOne(text: string)
    requires text != [] && text[|text| - 1] != '\r' && forall i :: 0 <= i < |text| ==> text[i] != '\n'
    ensures OneLine(text)
  {
  }

  lemma {:induction false} SplitInvertsJoin(texts: seq<string>, ends: seq<string>)
    requires |ends| == |texts| && PyRoundTrip.AreEnds(ends)
    requires forall k :: 0 <= k < |texts| ==> OneLine(texts[k])
    ensures SplitLines(PyRoundTrip.JoinTexts(texts, ends)) == texts + [""]
  {
    hide SplitLines, OneLine;
    if texts == [] {
      NothingSplits();
    } else {
      SplitInvertsJoin(texts[1..], ends[1..]);
      FirstLineSplits(texts[0], ends[0], PyRoundTrip.JoinTexts(texts[1..], ends[1..]));
    }
  }

  lemma NothingSplits()
    ensures SplitLines("") == [""]
  {
  }

  lemma FirstLineSplits(line: string, end: string, rest: string)
    requires OneLine(line) && PyRoundTrip.IsEnd(end)
    ensures SplitLines(line + end + rest) == [line] + SplitLines(rest)
  {
    hide IndexFrom, SplitLines;
    var text := line + end + rest;
    var k := |line| + |end| - 1;
    assert text[k] == '\n' && text[..|line|] == line && text[k + 1..] == rest;
    assert forall i :: 0 <= i < |line| ==> text[i] == line[i];
    FeedAt(text, k);
    SplitAtFeed(text, k);
  }

  lemma FeedAt(text: string, k: nat)
    requires k < |text| && text[k] == '\n' && forall i :: 0 <= i < k ==> text[i] != '\n'
    ensures IndexFrom(text, '\n', 0) == k
  {
    hide IndexFrom;
  }

  lemma SplitAtFeed(text: string, k: nat)
    requires k < |text| && IndexFrom(text, '\n', 0) == k
    ensures var end := if k > 0 && text[k - 1] == '\r' then k - 1 else k;
            SplitLines(text) == [text[..end]] + SplitLines(text[k + 1..])
  {
    hide IndexFrom;
  }

  lemma {:induction false} RenderedAreShown(lines: seq<Line>)
    ensures Shows(Rendered(lines), lines)
  {
    hide Render;
    if lines != [] {
      var t := Render(lines[0]);
      assert t[|t|..] == "";
      assert Rendered(lines)[1..] == Rendered(lines[1..]);
      RenderedAreShown(lines[1..]);
    }
  }

  /** Main result: the YAML loader reads every document whose lines are those of a printed tree of the common
      sublanguage, scalars written in whatever way, with comments, blanks at line ends, blank lines and comment
      lines anywhere and either kind of line end, as the tree that it says. */
  lemma YamlReadsDocument(texts: seq<string>, ends: seq<string>, v: Value)
    requires CommonTree(v) && v.IsCollection() && Shows(texts, Block(v, 0))
    requires |ends| == |texts| && PyRoundTrip.AreEnds(ends)
    ensures ParseYaml(PyRoundTrip.JoinTexts(texts, ends)) == Success(Says(v))
  {
    hide *;
    var lines := Block(v, 0);
    DocumentLines(v);
    SplitBody(lines);
    RenderedAreShown(lines);
    ShownAreSeen(Rendered(lines), 0, Rendered(lines), lines);
    WholeIsRest(Rendered(lines));
    ShownAreSeen(texts + [""], 0, texts, lines);
    SplitInvertsJoin(texts, ends);
    BlankLinesSayNothing(PyRoundTrip.JoinTexts(texts, ends), BodyText(lines));
    YamlInvertsPrint(v);
  }

  lemma WholeIsRest(texts: seq<string>)
    ensures texts[0..] == texts
  {
  }
}
