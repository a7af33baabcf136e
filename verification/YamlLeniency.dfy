/**
 Which documents the loader of the SDK generator takes for YAML, and three kinds of documents that it accepts
 although the parser of the manifest checks rejects them or reads them otherwise.
 */
module YamlLeniency {
  import opened Wrappers
  import opened Text
  import opened YamlTree
  import opened YamlLines
  import opened SdkYaml
  import opened YamlAgreement
  import opened YamlBlankLines
  import Py = K8sYaml
  import PyRoundTrip = K8sYamlRoundTrip

  // ----- What is taken for YAML -----

  lemma {:induction false} LowerAt(s: string)
    ensures |Lower(s)| == |s| && forall k :: 0 <= k < |s| ==> Lower(s)[k] == LowerAscii(s[k])
  {
    hide LowerAscii;
    if s != [] {
      LowerAt(s[1..]);
    }
  }

  predicate EndsInYaml(f: string) {
    && |f| >= 5 && f[|f| - 5] == '.' && f[|f| - 4] in {'y', 'Y'} && f[|f| - 3] in {'a', 'A'}
    && f[|f| - 2] in {'m', 'M'} && f[|f| - 1] in {'l', 'L'}
  }

  predicate EndsInYml(f: string) {
    && |f| >= 4 && f[|f| - 4] == '.' && f[|f| - 3] in {'y', 'Y'} && f[|f| - 2] in {'m', 'M'}
    && f[|f| - 1] in {'l', 'L'}
  }

  lemma LowerLetters(c: char)
    ensures LowerAscii(c) == '.' <==> c == '.'
    ensures LowerAscii(c) == 'y' <==> c in {'y', 'Y'}
    ensures LowerAscii(c) == 'a' <==> c in {'a', 'A'}
    ensures LowerAscii(c) == 'm' <==> c in {'m', 'M'}
    ensures LowerAscii(c) == 'l' <==> c in {'l', 'L'}
  {
  }

  lemma EndsInFour(s: string)
    ensures EndsWith(s, ".yml")
       <==> |s| >= 4 && s[|s| - 4] == '.' && s[|s| - 3] == 'y' && s[|s| - 2] == 'm' && s[|s| - 1] == 'l'
  {
    if |s| >= 4 {
      assert s[|s| - 4..] == [s[|s| - 4], s[|s| - 3], s[|s| - 2], s[|s| - 1]];
    }
  }

  lemma EndsInFive(s: string)
    ensures EndsWith(s, ".yaml")
       <==> && |s| >= 5 && s[|s| - 5] == '.' && s[|s| - 4] == 'y' && s[|s| - 3] == 'a' && s[|s| - 2] == 'm'
            && s[|s| - 1] == 'l'
  {
    if |s| >= 5 {
      assert s[|s| - 5..] == [s[|s| - 5], s[|s| - 4], s[|s| - 3], s[|s| - 2], s[|s| - 1]];
    }
  }

  /** A file name counts as that of a YAML document exactly when it ends in `.yaml` or `.yml`, letter case aside. */
  lemma NamesYamlExactly(filename: string)
    ensures NamesYaml(filename) <==> EndsInYaml(filename) || EndsInYml(filename)
  {
    hide EndsWith, LowerAscii, Lower;
    var s := Lower(filename);
    LowerAt(filename);
    EndsInFour(s);
    EndsInFive(s);
    forall k | 0 <= k < |s| ensures LowerAscii(filename[k]) == s[k] {
    }
    forall c: char
      ensures (LowerAscii(c) == '.' <==> c == '.') && (LowerAscii(c) == 'y' <==> c in {'y', 'Y'})
      ensures (LowerAscii(c) == 'a' <==> c in {'a', 'A'}) && (LowerAscii(c) == 'm' <==> c in {'m', 'M'})
      ensures LowerAscii(c) == 'l' <==> c in {'l', 'L'}
    {
      LowerLetters(c);
    }
  }

  predicate EndsLine(c: char) {
    c == '\n' || c == '\r' || c == '\U{2028}' || c == '\U{2029}'
  }

  /** A colon at `j` with no line end between `i` and it. */
  predicate ColonOf(t: string, i: int, j: int) {
    -1 <= i < j < |t| && t[j] == ':' && forall k :: i < k < j ==> !EndsLine(t[k])
  }

  /** A colon on a line that follows a line feed or carriage return, which are at `i`. */
  predicate ColonBehind(t: string, i: int, j: int) {
    0 <= i < |t| && (t[i] == '\n' || t[i] == '\r') && ColonOf(t, i, j)
  }

  ghost predicate HasColonBehind(t: string) {
    exists i, j :: ColonBehind(t, i, j)
  }

  ghost predicate StartsWithColonLine(t: string) {
    exists j :: ColonOf(t, -1, j)
  }

  lemma ColonShifts(t: string, i: int, j: int)
    requires t != [] && i >= -1
    ensures ColonOf(t[1..], i, j) <==> ColonOf(t, i + 1, j + 1)
  {
    if ColonOf(t, i + 1, j + 1) {
      forall k | i < k < j ensures !EndsLine(t[1..][k]) {
        assert t[1..][k] == t[k + 1];
      }
    }
    if ColonOf(t[1..], i, j) {
      forall k | i + 1 < k < j + 1 ensures !EndsLine(t[k]) {
        assert t[1..][k - 1] == t[k];
      }
    }
  }

  lemma FirstLineStep(t: string)
    requires t != []
    ensures StartsWithColonLine(t) <==> t[0] == ':' || (!EndsLine(t[0]) && StartsWithColonLine(t[1..]))
  {
    hide EndsLine;
    if j :| ColonOf(t, -1, j) {
      if j > 0 {
        var m := j - 1;
        assert !EndsLine(t[0]);
        assert ColonOf(t, 0, j);
        ColonShifts(t, -1, m);
      }
    }
    if t[0] == ':' {
      assert ColonOf(t, -1, 0);
    }
    if !EndsLine(t[0]) && StartsWithColonLine(t[1..]) {
      var j :| ColonOf(t[1..], -1, j);
      ColonShifts(t, -1, j);
      assert ColonOf(t, -1, j + 1);
    }
  }

  lemma LaterLineStep(t: string)
    requires t != []
    ensures HasColonBehind(t)
       <==> HasColonBehind(t[1..]) || ((t[0] == '\n' || t[0] == '\r') && StartsWithColonLine(t[1..]))
  {
    hide EndsLine, ColonOf;
    if i, j :| ColonBehind(t, i, j) {
      ColonIsInside(t, i, j);
      var m := j - 1;
      ColonShifts(t, i - 1, m);
      if i > 0 {
        assert ColonBehind(t[1..], i - 1, m);
      }
    }
    if i, j :| ColonBehind(t[1..], i, j) {
      ColonShifts(t, i, j);
      assert ColonBehind(t, i + 1, j + 1);
    }
    if (t[0] == '\n' || t[0] == '\r') && StartsWithColonLine(t[1..]) {
      var j :| ColonOf(t[1..], -1, j);
      ColonShifts(t, -1, j);
      assert ColonBehind(t, 0, j + 1);
    }
  }

  lemma ColonIsInside(t: string, i: int, j: int)
    requires ColonOf(t, i, j)
    ensures -1 <= i < j < |t|
  {
  }

  lemma {:induction false} ColonSearch(t: string, onLine: bool)
    ensures LaterColon(t, onLine) <==> HasColonBehind(t) || (onLine && StartsWithColonLine(t))
  {
    hide HasColonBehind, StartsWithColonLine;
    if t == [] {
      NoColonInNothing();
    } else {
      FirstLineStep(t);
      LaterLineStep(t);
      ColonSearch(t[1..], true);
      ColonSearch(t[1..], false);
    }
  }

  lemma NoColonInNothing()
    ensures !HasColonBehind("") && !StartsWithColonLine("")
  {
  }

  /** A document whose name says nothing is taken for YAML exactly when a colon stands on a line behind a line
      feed or a carriage return. */
  lemma LaterColonExactly(t: string)
    ensures LaterColon(t, false) <==> exists i, j :: ColonBehind(t, i, j)
  {
    ColonSearch(t, false);
  }

  // ----- What is dropped -----

  /** A document ends for the loader where its first block ends: a row that does not continue it, an item behind a
      mapping or none behind a list, is dropped with everything below. The other parser rejects it
      (`K8sYamlRoundTrip.TrailingRowIsRejected`). */
  lemma RestIsDropped(src: string, v: Value)
    requires CommonTree(v) && v.IsCollection()
    requires var (page, lines) := (PageOf(SplitLines(src)), Block(v, 0));
             && At(page, 0, lines) && |lines| < |page| && page[|lines|].Some? && page[|lines|].value.indent == 0
             && (IsItem(page[|lines|].value.content) <==> v.Map?)
    ensures ParseYaml(src) == Success(Says(v))
  {
    hide *;
    var texts, end := SplitLines(src), |Block(v, 0)|;
    OtherKindEnds(PageOf(texts), end, 0, v);
    BlockParses(texts, 0, v, 0, 0);
    CollectionIsDocument(src, v, end);
  }

  lemma OtherKindEnds(page: Page, i: nat, n: nat, v: Value)
    requires v.IsCollection() && i < |page| && page[i].Some? && page[i].value.indent == n
    requires IsItem(page[i].value.content) <==> v.Map?
    ensures Ends(page, i, n, v.Seq?)
  {
  }

  lemma CollectionIsDocument(src: string, v: Value, end: nat)
    requires v.IsCollection() && ParseBlock(SplitLines(src), 0, 0) == Success((Says(v), end))
    ensures ParseYaml(src) == Success(Says(v))
  {
    hide SplitLines, ParseBlock;
  }

  /** A row deeper than a key that has its value on its own line ends the mapping, whatever was read before: it is
      dropped with everything below. The other parser rejects it (`K8sYamlRoundTrip.DeeperRowIsRejected`). */
  lemma DeeperRowEndsMapping(lines: seq<string>, i: nat, e: Entry, n: nat, minIndent: nat, acc: seq<Entry>)
    requires CommonKey(e.key) && CommonScalar(e.value) && minIndent <= n
    requires At(PageOf(lines), i, [Line(n, KeyText(e))])
    requires i + 1 < |lines| && Clean(lines[i + 1]).text != "" && Clean(lines[i + 1]).indent > n
    ensures ParseMapping(lines, i, minIndent, n, acc) == Success((Map(Put(acc, e.key, Says(e.value))), i + 1))
  {
    hide *;
    AtLine(PageOf(lines), i, [Line(n, KeyText(e))], 0);
    ShownIsClean(lines, i);
    ScalarIsNoCollection(e.value);
    EntryKeyLine(lines, i, e, n);
    InlineInverts(e.value);
    FullInline(lines, i, ScalarText(e.value), n);
    MappingStep(lines, i, minIndent, n, acc, Entry(e.key, Says(e.value)), ScalarText(e.value), i + 1);
    DeeperLineEnds(lines, i + 1, minIndent, n, Put(acc, e.key, Says(e.value)));
  }

  lemma ScalarIsNoCollection(v: Value)
    requires CommonScalar(v)
    ensures !v.IsCollection() && InlineText(v) == ScalarText(v)
  {
  }

  lemma DeeperLineEnds(lines: seq<string>, i: nat, minIndent: nat, n: nat, acc: seq<Entry>)
    requires i < |lines| && Clean(lines[i]).text != "" && Clean(lines[i]).indent > n
    ensures ParseMapping(lines, i, minIndent, n, acc) == Success((Map(acc), i))
  {
    hide Clean, ParseEntryValue, SplitEntry;
  }

  /** What is rejected: behind a printed mapping a line at its column without a colon, in an error that names it. */
  lemma LineWithoutColonIsRejected(src: string, v: Value)
    requires CommonTree(v) && v.Map?
    requires var (page, lines) := (PageOf(SplitLines(src)), Block(v, 0));
             && At(page, 0, lines) && |lines| < |page| && page[|lines|].Some?
             && page[|lines|].value.indent == 0 && !IsItem(page[|lines|].value.content)
             && ':' !in page[|lines|].value.content
    ensures ParseYaml(src) == Failure(ExpectedKey(|Block(v, 0)| + 1))
  {
    hide *;
    var texts, end := SplitLines(src), |Block(v, 0)|;
    CommonCollection(v, 0);
    CollectionOfMap(v);
    MapParts(v.entries);
    SameColumn(PageOf(texts), end, 0);
    EntriesParse(texts, 0, v.entries, 0, 0, []);
    ShownIsClean(texts, end);
    NoKeyFails(texts, end, 0, PutAll([], SaysEntries(v.entries)));
    FirstLine(texts, 0, v, 0);
    BlockStep(texts, 0, 0);
    FailureIsDocument(src, end + 1);
  }

  lemma CollectionOfMap(v: Value)
    requires v.Map?
    ensures v.IsCollection() && v == Map(v.entries)
  {
  }

  lemma SameColumn(page: Page, i: nat, n: nat)
    requires i < |page| && page[i].Some? && page[i].value.indent == n
    ensures Stops(page, i, n + 1)
  {
  }

  lemma NoKeyFails(lines: seq<string>, i: nat, n: nat, acc: seq<Entry>)
    requires i < |lines| && Clean(lines[i]).text != "" && Clean(lines[i]).indent == n
    requires !IsItem(Clean(lines[i]).text) && ':' !in Clean(lines[i]).text
    ensures ParseMapping(lines, i, 0, n, acc) == Failure(ExpectedKey(i + 1))
  {
    hide Clean, IsItem, ParseEntryValue, SplitEntry;
  }

  lemma FailureIsDocument(src: string, lineno: nat)
    requires ParseBlock(SplitLines(src), 0, 0) == Failure(ExpectedKey(lineno))
    ensures ParseYaml(src) == Failure(ExpectedKey(lineno))
  {
    hide SplitLines, ParseBlock;
  }

  // ----- Flow collections -----

  /** A value that starts with a brace or bracket is left to the JSON parser with its whole text, whatever colons,
      quotes and commas it holds, and the mapping goes on behind its line. */
  lemma FlowIsOneValue(lines: seq<string>, i: nat, key: string, flow: string, n: nat, minIndent: nat,
                       acc: seq<Entry>)
    requires CommonKey(key) && flow != "" && flow[0] in {'{', '['} && !IsJsSpace(flow[|flow| - 1])
    requires i < |lines| && Clean(lines[i]) == Cleaned(n, key + (": " + flow)) && minIndent <= n
    ensures ParseMapping(lines, i, minIndent, n, acc)
         == ParseMapping(lines, i + 1, minIndent, n, Put(acc, key, Flow(flow)))
  {
    hide *;
    FlowKeyLine(key, flow);
    FlowInline(flow);
    FullInline(lines, i, flow, n);
    MappingStep(lines, i, minIndent, n, acc, Entry(key, Flow(flow)), flow, i + 1);
  }

  lemma FlowInline(flow: string)
    requires flow != "" && flow[0] in {'{', '['}
    ensures ParseInline(flow) == Flow(flow) && flow !in {"", "|", ">"}
  {
  }

  lemma FlowKeyLine(key: string, flow: string)
    requires CommonKey(key) && flow != "" && flow[0] in {'{', '['} && !IsJsSpace(flow[|flow| - 1])
    ensures var t := key + (": " + flow);
            t != "" && !IsItem(t) && ':' in t && SplitEntry(t) == (key, flow)
  {
    hide Trim, IndexOfString, IsQuoted, PlainKeyChar, IsItem;
    var t := key + (": " + flow);
    assert t == key + ": " + flow;
    TrimKeeps(key, IsJsSpace);
    TrimKeeps(flow, IsJsSpace);
    KeyIsNotQuoted(key);
    FirstSeparator(key, flow);
    assert t[|key|] == ':' && t[|key| + 2..] == flow && t[..|key|] == key;
    KeyStartsNoItem(key, ": " + flow);
  }

  lemma KeyStartsNoItem(key: string, rest: string)
    requires PlainKey(key) && rest != "" && rest[0] == ':'
    ensures !IsItem(key + rest)
  {
    var t := key + rest;
    assert t[0] == key[0] && (|key| > 1 ==> t[1] == key[1]) && (|key| == 1 ==> t[1] == ':');
  }

  /** The keys that continue a list item are split in another way: a key whose colons neither end it nor stand before a
      space is the whole line, and its value stands below it. */
  lemma SiblingKeepsColon(lines: seq<string>, i: nat, s: string, n: nat, column: nat, acc: seq<Entry>)
    requires InnerColon(s) && i < |lines| && Clean(lines[i]) == Cleaned(column, s) && column > n
    requires NothingBelow(lines, i, column)
    ensures ParseSiblings(lines, i, n, acc) == ParseSiblings(lines, Peek(lines, i + 1), n, Put(acc, s, Null))
  {
    hide *;
    InnerColonIsText(s);
    WholeLineIsKey(s);
    NothingNested(lines, i, column);
    EmptyInline(lines, i, column, Success((Null, Peek(lines, i + 1))));
    SiblingStep(lines, i, n, acc, Entry(s, Null), "", Peek(lines, i + 1));
  }

  lemma WholeLineIsKey(s: string)
    requires InnerColon(s)
    ensures SplitItemEntry(s) == (s, "")
  {
    hide IndexOfString, NoBreaks, Trim;
    TrimKeeps(s, IsJsSpace);
    assert s[..|s|] == s;
    assert !EndsWith(s, ":") by {
      assert s[|s| - 1..] == [s[|s| - 1]];
    }
  }

  // ----- Quotes -----

  predicate IsQuote(c: char) {
    c == '"' || c == '\''
  }

  lemma QuoteIsNoDigit(t: string, k: nat)
    requires k < |t| && IsQuote(t[k])
    ensures !AllDigits(t)
  {
  }

  lemma QuoteIsNoInt(t: string, k: nat)
    requires k < |t| && IsQuote(t[k])
    ensures !IsIntText(t)
  {
    hide AllDigits;
    QuoteIsNoDigit(t, k);
    if t[0] == '-' {
      assert k > 0 && t[1..][k - 1] == t[k];
      QuoteIsNoDigit(t[1..], k - 1);
    }
  }

  lemma QuoteIsNoDecimal(t: string, k: nat)
    requires k < |t| && IsQuote(t[k])
    ensures !IsDecimalText(t)
  {
    hide AllDigits, IsIntText, IndexFrom;
    var dot := IndexFrom(t, '.', 0);
    if k < dot < |t| {
      QuoteIsNoInt(t[..dot], k);
    } else if dot < k {
      assert t[dot + 1..][k - dot - 1] == t[k];
      QuoteIsNoDigit(t[dot + 1..], k - dot - 1);
    }
  }

  /** A scalar that starts or ends with a quote is what stands between its ends when these are the same quote, nothing
      escaped and whatever quotes stand inside; it is a text of its own otherwise, and empty when it is one quote. */
  lemma QuotesExactly(t: string)
    requires t != "" && !IsJsSpace(t[0]) && !IsJsSpace(t[|t| - 1]) && (IsQuote(t[0]) || IsQuote(t[|t| - 1]))
    ensures ParseScalar(t)
         == Str(if |t| == 1 then "" else if t[0] == t[|t| - 1] then t[1..|t| - 1] else t)
  {
    hide IsIntText, IsDecimalText, Trim;
    TrimKeeps(t, IsJsSpace);
    var k := if IsQuote(t[0]) then 0 else |t| - 1;
    QuoteIsNoInt(t, k);
    QuoteIsNoDecimal(t, k);
    assert t[..1] == [t[0]] && t[|t| - 1..] == [t[|t| - 1]];
  }

  // ----- Colons without a space -----

  /** A plain text with a colon that neither ends it nor stands before a space. */
  predicate InnerColon(s: string) {
    Unquoted(s) && !("- " <= s) && ':' in s && s[|s| - 1] != ':' && !Contains(s, ": ")
  }

  lemma {:induction false} TrimKeepsPart(s: string, space: char -> bool, c: char)
    ensures c in TrimRight(s, space) ==> c in s
    ensures c in TrimLeft(s, space) ==> c in s
  {
    if s != "" {
      TrimKeepsPart(s[..|s| - 1], space, c);
      TrimKeepsPart(s[1..], space, c);
    }
  }

  lemma {:induction false} TrimKeepsOthers(s: string, space: char -> bool, c: char)
    requires !space(c)
    ensures c in s ==> c in TrimRight(s, space) && c in TrimLeft(s, space)
  {
    if s != "" {
      assert s == s[..|s| - 1] + [s[|s| - 1]] == [s[0]] + s[1..];
      TrimKeepsOthers(s[..|s| - 1], space, c);
      TrimKeepsOthers(s[1..], space, c);
    }
  }

  lemma TrimKeepsMarks(s: string, c: char)
    ensures c in Trim(s, IsJsSpace) ==> c in s
    ensures !IsJsSpace(c) && c in s ==> c in Trim(s, IsJsSpace)
  {
    hide TrimLeft, TrimRight;
    TrimKeepsPart(s, IsJsSpace, c);
    TrimKeepsPart(TrimLeft(s, IsJsSpace), IsJsSpace, c);
    TrimKeepsPart(TrimRight(s, IsJsSpace), IsJsSpace, c);
    if !IsJsSpace(c) {
      TrimKeepsOthers(s, IsJsSpace, c);
      TrimKeepsOthers(TrimLeft(s, IsJsSpace), IsJsSpace, c);
      TrimKeepsOthers(TrimRight(s, IsJsSpace), IsJsSpace, c);
    }
  }

  lemma SplitWithoutSpace(s: string)
    requires InnerColon(s)
    ensures SplitEntry(s) == (Trim(s[..|s| - 1], IsJsSpace), Trim(s[1..], IsJsSpace))
    ensures ':' in Trim(s[..|s| - 1], IsJsSpace)
  {
    hide Trim, IndexOfString, NoBreaks, Tight;
    var key := Trim(s[..|s| - 1], IsJsSpace);
    TrimKeepsMarks(s[..|s| - 1], ':');
    TrimKeepsMarks(s[..|s| - 1], '"');
    TrimKeepsMarks(s[..|s| - 1], '\'');
    assert s == s[..|s| - 1] + [s[|s| - 1]];
    assert !EndsWith(s, ":");
    assert !IsQuoted(key) by {
      if key != "" {
        assert key[0] in key;
      }
    }
  }

  /** The shape of a line at the first column. */
  lemma UnquotedLine(s: string)
    requires Unquoted(s)
    ensures Render(Line(0, s)) == s && s + "\n" + "" == s + "\n"
    ensures s != "" && !IsJsSpace(s[0]) && !IsJsSpace(s[|s| - 1]) && Bland(s) && NoFeed(s) && s[|s| - 1] != '\r'
    ensures forall i :: 0 <= i < |s| ==> s[i] != '\n'
  {
    assert Spaces(0) == "";
  }

  lemma OneLineDocument(s: string)
    requires InnerColon(s)
    ensures SplitLines(s) == [s] && Clean(s) == Cleaned(0, s)
    ensures SplitLines(s + "\n") == [s, ""]
  {
    hide *;
    ColonTextIsUnquoted(s);
    UnquotedLine(s);
    CleanAlone(s);
    RenderedLine(Line(0, s));
    SplitFirst(s, "");
    NothingSplits();
  }

  lemma ColonTextIsUnquoted(s: string)
    requires InnerColon(s)
    ensures Unquoted(s)
  {
  }

  lemma LastLine(lines: seq<string>, inline: string, indent: nat) returns (v: Value)
    requires |lines| == 1
    ensures ParseEntryValue(lines, 0, inline, indent) == Success((v, 1))
    ensures inline !in {"", "|", ">"} ==> v == ParseInline(inline)
  {
    hide Clean, ParseInline, ParseBlock;
    v := if inline in {"", "|", ">"} then Null else ParseInline(inline);
  }

  lemma MappingIsDocument(s: string, entries: seq<Entry>, end: nat)
    requires SplitLines(s) == [s] && Clean(s) == Cleaned(0, s) && s != "" && !IsItem(s)
    requires ParseMapping([s], 0, 0, 0, []) == Success((Map(entries), end))
    ensures ParseYaml(s) == Success(Map(entries))
  {
    hide SplitLines, Clean, ParseMapping, IsItem;
    BlockStep([s], 0, 0);
  }

  lemma OneEntryPut(e: Entry)
    ensures Put([], e.key, e.value) == [e]
  {
  }

  lemma InnerColonIsText(s: string)
    requires InnerColon(s)
    ensures s != "" && !IsItem(s) && ':' in s
  {
    assert "- " <= s || !IsItem(s);
  }

  /** `indexOf` gives -1 for a line whose only colons stand before no space, and both slices are taken with it: the
      key is the line without its last character, the value the line without its first. */
  lemma ReadsShiftedEntry(s: string) returns (v: Value)
    requires InnerColon(s)
    ensures ParseYaml(s) == Success(Map([Entry(Trim(s[..|s| - 1], IsJsSpace), v)]))
    ensures var text := Trim(s[1..], IsJsSpace); CommonScalar(Spelt(text)) ==> v == ScriptReading(text)
  {
    hide *;
    InnerColonIsText(s);
    var key, text := Trim(s[..|s| - 1], IsJsSpace), Trim(s[1..], IsJsSpace);
    OneLineDocument(s);
    SplitWithoutSpace(s);
    v := LastLine([s], text, 0);
    MappingStep([s], 0, 0, 0, [], Entry(key, v), text, 1);
    NothingAfterLine(s);
    MappingEnd([s], 1, 0, 0, Put([], key, v));
    OneEntryPut(Entry(key, v));
    MappingIsDocument(s, [Entry(key, v)], 1);
    if CommonScalar(Spelt(text)) {
      InlineInverts(Spelt(text));
      SpeltText(text);
    }
  }

  lemma SpeltText(text: string)
    ensures ScalarText(Spelt(text)) == text && Says(Spelt(text)) == ScriptReading(text)
  {
  }

  lemma NothingAfterLine(s: string)
    ensures Ends(PageOf([s]), 1, 0, false)
  {
  }

  // ----- The same line in the other parser -----

  lemma UnquotedIsClean(s: string)
    requires Unquoted(s)
    ensures PyRoundTrip.CleanContent(s)
  {
    hide PyRoundTrip.Neutral;
    assert "" + s == s && Bland("");
    assert PyRoundTrip.Neutral(s) by {
      BlandIsNeutral(s);
    }
    assert PyRoundTrip.CleanParts(s, "", s);
  }

  lemma BlandIsNeutral(s: string)
    requires Bland(s)
    ensures PyRoundTrip.Neutral(s)
  {
  }

  lemma OneRow(s: string) returns (rows: seq<Py.Row>)
    requires InnerColon(s)
    ensures Py.Tokenize(Py.SplitLines(s + "\n"), 1) == Success(rows)
    ensures |rows| == 1 && rows[0].indent == 0 && rows[0].content == s
  {
    hide *;
    ColonTextIsUnquoted(s);
    UnquotedLine(s);
    UnquotedIsClean(s);
    OneLineIsShown(s);
    PyRoundTrip.ShownHaveNoBreaks([s], [Line(0, s)]);
    PyRoundTrip.SplitInvertsJoin([s], ["\n"]);
    rows := PyRoundTrip.TokenizeShown([s], [Line(0, s)], 1);
  }

  lemma OneLineIsShown(s: string)
    requires Render(Line(0, s)) == s && PyRoundTrip.CleanContent(s)
    ensures PyRoundTrip.Shows([s], [Line(0, s)]) && PyRoundTrip.AllClean([Line(0, s)])
    ensures PyRoundTrip.JoinTexts([s], ["\n"]) == s + "\n" && PyRoundTrip.AreEnds(["\n"])
  {
    hide Render, PyRoundTrip.CleanContent;
    assert s[|s|..] == "" && [s][1..] == [] && [Line(0, s)][1..] == [] && ["\n"][1..] == [];
    assert PyRoundTrip.Shows([], []) && PyRoundTrip.JoinTexts([], []) == "";
  }

  lemma KeyHasNoColon(rows: seq<Py.Row>, s: string)
    requires InnerColon(s) && |rows| == 1 && rows[0].indent == 0 && rows[0].content == s
    ensures var r := Py.ParseRows(rows);
            r.Success? ==> r.value.Map? && |r.value.entries| == 1 && ':' !in r.value.entries[0].key
  {
    hide Py.SplitKey, Py.ParseMap, Py.ParseSeq, Py.ParseEntryValue;
    InnerColonIsText(s);
    assert !Py.IsDashed(s);
    OneRowMapping(rows, s);
  }

  lemma OneRowMapping(rows: seq<Py.Row>, s: string)
    requires InnerColon(s) && |rows| == 1 && rows[0].indent == 0 && rows[0].content == s && !Py.IsDashed(s)
    ensures var r := Py.ParseMap(rows, 0, 0, []);
            r.Success? ==> && r.value.1 == 1 && r.value.0.Map? && |r.value.0.entries| == 1
                           && ':' !in r.value.0.entries[0].key
  {
    hide Py.SplitKey, Py.ParseEntryValue, Py.IsDashed;
    var split := Py.SplitKey(s);
    if split.Success? {
      var (key, rest) := split.value;
      PyRoundTrip.FirstColonCuts(s, key, rest);
      OneRowValue(rows, rest);
      var v := Py.ParseEntryValue(rows, 0, rest, 0, 1);
      if v.Success? {
        OneEntryPut(Entry(key, v.value.0));
        assert Py.ParseMap(rows, 1, 0, Put([], key, v.value.0)) == Success((Map([Entry(key, v.value.0)]), 1));
      }
    }
  }

  lemma OneRowValue(rows: seq<Py.Row>, rest: string)
    requires |rows| == 1
    ensures var v := Py.ParseEntryValue(rows, 0, rest, 0, 1); v.Success? && v.value.1 == 1
  {
    hide Py.ParseScalar, Py.ParseValueBlock;
  }

  /** Both parsers read a line with such a colon as one entry, but never with the same key: the loader keeps the
      colon in it. */
  lemma ColonNeedsSpace(s: string)
    requires InnerColon(s)
    ensures var (r, tree) := (ParseYaml(s + "\n"), Py.ParseDocument(s + "\n"));
            && r.Success? && r.value.Map? && |r.value.entries| == 1
            && r.value.entries[0].key == Trim(s[..|s| - 1], IsJsSpace)
            && (tree.Success? ==> tree.value != r.value)
  {
    hide InnerColon, SplitLines, ParseYaml, Py.ParseRows, Py.Tokenize, Py.SplitLines, Trim;
    var v := ReadsShiftedEntry(s);
    OneLineDocument(s);
    SameSeen(s);
    BlankLinesSayNothing(s, s + "\n");
    SplitWithoutSpace(s);
    var rows := OneRow(s);
    KeyHasNoColon(rows, s);
  }

  lemma SameSeen(s: string)
    ensures Seen([s], 0) == Seen([s, ""], 0)
  {
    BlankIsCut("");
    assert Seen([s, ""], 2) == [] == Seen([s], 1);
    assert Seen([s, ""], 1) == Seen([s, ""], 2);
  }
}
