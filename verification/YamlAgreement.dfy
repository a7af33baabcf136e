/**
 Both YAML loaders of the repository build the same tree from the canonical print of every tree of
 their common sublanguage.
 */
module YamlAgreement {
  import opened Wrappers
  import opened Text
  import opened YamlTree
  import opened YamlLines
  import opened SdkYaml
  import Py = K8sYaml
  import PyRoundTrip = K8sYamlRoundTrip

  // ----- The common sublanguage -----

  /** Text characters that are printed as themselves and that end no list item key. */
  predicate WordChar(c: char) {
    c != '"' && c != '\\' && c != '\n' && c != '\t' && c != ':'
  }

  predicate Word(s: string) {
    forall i :: 0 <= i < |s| ==> WordChar(s[i])
  }

  /** `__proto__` is no ordinary property name in JavaScript. */
  predicate CommonKey(key: string) {
    PlainKey(key) && !IsJsSpace(key[0]) && !IsJsSpace(key[|key| - 1]) && key != "__proto__"
  }

  /** A spelt scalar that neither opens a flow collection or a block text nor ends like a key. */
  predicate CommonSpelling(t: string) {
    (Unquoted(t) || SingleQuoted(t)) && t[0] !in {'{', '[', '|', '>'} && t[|t| - 1] != ':'
  }

  ghost predicate Common(v: Value)
    decreases v
  {
    match v
    case Str(s) => Word(s)
    case Int(n) => -MAX_SAFE_INTEGER <= n <= MAX_SAFE_INTEGER
    case Spelt(text) => CommonSpelling(text)
    case Seq(items) => CommonItems(items)
    case Map(entries) => CommonEntries(entries)
    case _ => true
  }

  ghost predicate CommonItems(items: seq<Value>)
    decreases items
  {
    forall i :: 0 <= i < |items| ==> !items[i].Seq? && Common(items[i])
  }

  ghost predicate CommonEntries(entries: seq<Entry>)
    decreases entries
  {
    forall i :: 0 <= i < |entries| ==> CommonKey(entries[i].key) && Common(entries[i].value)
  }

  // ----- What spelt scalars are -----

  ghost predicate SpellsDecimal(t: string) {
    exists k :: DotAt(t, k)
  }

  predicate DotAt(t: string, k: int) {
    0 <= k < |t| && t[k] == '.' && IsIntText(t[..k]) && t[k + 1..] != "" && AllDigits(t[k + 1..])
  }

  /** Numbers with a fraction or beyond 53 bits are kept as their text; words are lower case. */
  ghost function ScriptReading(t: string): Value {
    if SingleQuoted(t) then Str(t[1..|t| - 1])
    else if t == "null" || t == "~" then Null
    else if t == "true" then Bool(true)
    else if t == "false" then Bool(false)
    else if IsIntText(t) then (if -0x1F_FFFF_FFFF_FFFF <= IntValue(t) <= 0x1F_FFFF_FFFF_FFFF then Int(IntValue(t))
                               else Decimal(t))
    else if SpellsDecimal(t) then Decimal(t)
    else Str(t)
  }

  ghost function Says(v: Value): Value {
    Meaning(v, ScriptReading)
  }

  ghost function SaysAll(items: seq<Value>): seq<Value> {
    Meanings(items, ScriptReading)
  }

  ghost function SaysEntries(entries: seq<Entry>): seq<Entry> {
    EntryMeanings(entries, ScriptReading)
  }

  lemma SaysParts(v: Value)
    ensures v.Map? ==> Says(v) == Map(SaysEntries(v.entries))
    ensures v.Seq? ==> Says(v) == Seq(SaysAll(v.items))
  {
    MeaningParts(v, ScriptReading);
  }

  lemma FirstSays(entries: seq<Entry>)
    requires entries != []
    ensures var all := SaysEntries(entries);
            && all != [] && all[0] == Entry(entries[0].key, Says(entries[0].value))
            && all[1..] == SaysEntries(entries[1..])
  {
    FirstMeaning(entries, ScriptReading);
  }

  lemma FirstItemSays(items: seq<Value>)
    requires items != []
    ensures SaysAll(items) == [Says(items[0])] + SaysAll(items[1..])
  {
    FirstItemMeaning(items, ScriptReading);
  }

  lemma PrintableSays(entries: seq<Entry>)
    requires Printable(Map(entries))
    ensures var all := SaysEntries(entries); PutAll([], all) == all && all != [] && PutAll([all[0]], all[1..]) == all
  {
    PrintableMap(entries, ScriptReading);
  }

  lemma NothingSays()
    ensures SaysEntries([]) == [] && SaysAll([]) == []
  {
  }

  // ----- Scalars -----

  predicate CommonScalar(v: Value) {
    match v
    case Null => true
    case Bool(_) => true
    case Int(n) => -MAX_SAFE_INTEGER <= n <= MAX_SAFE_INTEGER
    case Str(s) => Word(s)
    case Spelt(text) => CommonSpelling(text)
    case _ => false
  }

  lemma {:induction false} WordsEscapeToThemselves(s: string)
    requires Word(s)
    ensures Escape(s) == s
  {
    if s != [] {
      WordsEscapeToThemselves(s[1..]);
    }
  }

  predicate HasNoColon(s: string) {
    forall i :: 0 <= i < |s| ==> s[i] != ':'
  }

  /** A text that a scan passes through from outside quotes to outside quotes. */
  ghost predicate Neutral(t: string) {
    Bland(t) || SingleQuoted(t) || exists s :: Word(s) && t == "\"" + s + "\""
  }

  lemma ScalarTextShape(v: Value)
    requires CommonScalar(v)
    ensures var t := ScalarText(v);
            && t != [] && !IsJsSpace(t[0]) && !IsJsSpace(t[|t| - 1]) && t[|t| - 1] != ':'
            && (!v.Spelt? ==> HasNoColon(t))
            && t[0] !in {'{', '[', '|', '>'} && Neutral(t)
  {
    match v
    case Str(s) =>
      WordsEscapeToThemselves(s);
      var t := "\"" + s + "\"";
      assert ScalarText(v) == t && t[|t| - 1] == '"';
      forall i | 0 <= i < |t| ensures t[i] != ':' {
        assert 1 <= i < |t| - 1 ==> t[i] == s[i - 1];
      }
    case Int(n) => IntShape(n);
    case _ =>
  }

  lemma ParseScalarOfWord(s: string)
    requires Word(s)
    ensures ParseScalar(Quoted(s)) == Str(s)
  {
    var t := "\"" + s + "\"";
    WordsEscapeToThemselves(s);
    assert t[|t| - 1..] == "\"" && t[1..|t| - 1] == s;
    TrimKeeps(t, IsJsSpace);
  }

  lemma ParseScalarOfInt(n: int)
    requires -MAX_SAFE_INTEGER <= n <= MAX_SAFE_INTEGER
    ensures ParseScalar(IntText(n)) == Int(n)
  {
    var t := IntText(n);
    IntShape(n);
    TrimKeeps(t, IsJsSpace);
    IntTextValue(n);
    assert t[0] == '-' || IsDigit(t[0]);
  }

  lemma DecimalIsDecimal(t: string)
    ensures SpellsDecimal(t) <==> IsDecimalText(t)
  {
    if IsDecimalText(t) {
      assert DotAt(t, IndexFrom(t, '.', 0));
    }
    if k :| DotAt(t, k) {
      assert forall i :: 0 <= i < k ==> t[..k][i] == t[i] && t[i] != '.';
    }
  }

  lemma EndsInSingleQuote(t: string)
    requires t != ""
    ensures EndsWith(t, "'") <==> t[|t| - 1] == '\''
    ensures EndsWith(t, "\"") <==> t[|t| - 1] == '"'
  {
    assert t[|t| - 1..] == [t[|t| - 1]];
  }

  /** Every way to write a scalar is read as the schema of the loader says. */
  lemma ParseScalarOfSpelt(t: string)
    requires CommonSpelling(t)
    ensures ParseScalar(t) == ScriptReading(t)
  {
    hide IsIntText, IsDecimalText, SpellsDecimal, EndsWith;
    DecimalIsDecimal(t);
    EndsInSingleQuote(t);
    if SingleQuoted(t) {
      TrimKeeps(t, IsJsSpace);
    } else {
      TrimKeeps(t, IsJsSpace);
      assert t[0] !in {'"', '\'', '#'};
    }
  }

  lemma ParseScalarInverts(v: Value)
    requires CommonScalar(v)
    ensures ParseScalar(ScalarText(v)) == Says(v)
  {
    match v
    case Str(s) => ParseScalarOfWord(s);
    case Int(n) => ParseScalarOfInt(n);
    case Spelt(t) => ParseScalarOfSpelt(t);
    case _ =>
      ScalarTextShape(v);
      TrimKeeps(ScalarText(v), IsJsSpace);
  }

  // ----- Lines -----

  lemma {:induction false} ScanBland(line: string, k: nat, end: nat)
    requires k <= end <= |line| && Bland(line[k..end])
    ensures CommentStart(line, k, false, false) == CommentStart(line, end, false, false)
    decreases end - k
  {
    if k < end {
      assert line[k] == line[k..end][0];
      assert line[k + 1..end] == line[k..end][1..];
      ScanBland(line, k + 1, end);
    }
  }

  /** Between double quotes nothing but a double quote matters. */
  lemma {:induction false} ScanWord(line: string, k: nat, end: nat)
    requires k <= end <= |line| && Word(line[k..end])
    ensures CommentStart(line, k, false, true) == CommentStart(line, end, false, true)
    decreases end - k
  {
    if k < end {
      assert line[k] == line[k..end][0];
      assert line[k + 1..end] == line[k..end][1..];
      ScanWord(line, k + 1, end);
    }
  }

  /** A line made of bland text that may end in a quoted word. */
  ghost predicate CleanParts(content: string, prefix: string, last: string) {
    content == prefix + last && Bland(prefix) && Neutral(last)
  }

  lemma {:induction false} ScanSingle(line: string, k: nat, end: nat)
    requires k <= end <= |line| && forall i :: k <= i < end ==> line[i] != '\''
    ensures CommentStart(line, k, true, false) == CommentStart(line, end, true, false)
    decreases end - k
  {
    if k < end {
      ScanSingle(line, k + 1, end);
    }
  }

  lemma ScanNeutral(line: string, k: nat, last: string)
    requires k + |last| <= |line| && line[k..k + |last|] == last && Neutral(last)
    ensures CommentStart(line, k, false, false) == CommentStart(line, k + |last|, false, false)
  {
    var end := k + |last|;
    assert forall i :: k <= i < end ==> line[i] == last[i - k];
    if Bland(last) {
      ScanBland(line, k, end);
    } else if SingleQuoted(last) {
      ScanSingle(line, k + 1, end - 1);
    } else {
      var s :| Word(s) && last == "\"" + s + "\"";
      assert line[k + 1..end - 1] == s;
      ScanWord(line, k + 1, end - 1);
    }
  }

  /** What may follow on a line: blanks, and after a blank a comment. */
  predicate Tail(s: string)
    decreases |s|, 0
  {
    s == "" || ((s[0] == ' ' || s[0] == '\t') && CommentOrTail(s[1..]))
  }

  predicate CommentOrTail(s: string)
    decreases |s|, 1
  {
    (s != "" && s[0] == '#' && NoBreaks(s)) || Tail(s)
  }

  lemma {:induction false} TailIsCut(line: string, k: nat, comment: bool)
    requires k <= |line|
    requires if comment then k > 0 && IsJsSpace(line[k - 1]) && CommentOrTail(line[k..]) else Tail(line[k..])
    ensures NoBreaks(line[k..])
    ensures k <= CommentStart(line, k, false, false) <= |line|
    ensures forall i :: k <= i < CommentStart(line, k, false, false) ==> line[i] == ' ' || line[i] == '\t'
    decreases |line| - k
  {
    if k < |line| && line[k] != '#' {
      assert line[k..][1..] == line[k + 1..];
      TailIsCut(line, k + 1, true);
      assert line[k..] == [line[k]] + line[k + 1..];
    }
  }

  lemma {:induction false} TrimRightBlanks(text: string, blanks: string)
    requires text == "" || !IsJsSpace(text[|text| - 1])
    requires forall i :: 0 <= i < |blanks| ==> blanks[i] == ' ' || blanks[i] == '\t'
    ensures TrimRight(text + blanks, IsJsSpace) == text
    decreases |blanks|
  {
    var all := text + blanks;
    if blanks == "" {
      assert all == text;
    } else {
      assert all[..|all| - 1] == text + blanks[..|blanks| - 1];
      TrimRightBlanks(text, blanks[..|blanks| - 1]);
    }
  }

  /** A line loses the comment behind its text, if there is one, and nothing else. */
  lemma NoComment(line: string, prefix: string, last: string, tail: string)
    requires CleanParts(line, prefix, last) && line != "" && !IsJsSpace(line[|line| - 1]) && Tail(tail)
    ensures StripComment(line + tail) == line && NoBreaks(tail)
  {
    hide Neutral, Tail, NoBreaks, CommentStart, IsJsSpace;
    var all := line + tail;
    assert all[0..|prefix|] == prefix;
    ScanBland(all, 0, |prefix|);
    assert all[|prefix|..|prefix| + |last|] == last;
    ScanNeutral(all, |prefix|, last);
    assert all[|line|..] == tail;
    TailIsCut(all, |line|, false);
    var k := CommentStart(all, 0, false, false);
    assert all[..k] == line + all[|line|..k];
    TrimRightBlanks(line, all[|line|..k]);
  }

  ghost predicate CleanContent(c: string) {
    && c != [] && !IsJsSpace(c[0]) && !IsJsSpace(c[|c| - 1])
    && (forall i :: 0 <= i < |c| ==> c[i] != '\n')
    && exists prefix, last :: CleanParts(c, prefix, last)
  }

  ghost predicate AllClean(lines: seq<Line>) {
    forall k :: 0 <= k < |lines| ==> CleanContent(lines[k].content)
  }

  lemma CleanRendered(line: Line, tail: string)
    requires CleanContent(line.content) && Tail(tail)
    ensures Clean(Render(line) + tail) == Cleaned(line.indent, line.content)
    ensures Render(line) != [] && !IsJsSpace(Render(line)[|Render(line)| - 1])
    ensures forall i :: 0 <= i < |Render(line) + tail| ==> (Render(line) + tail)[i] != '\n'
  {
    hide Tail, Neutral, StripComment;
    var t, c := Render(line), line.content;
    var prefix, last :| CleanParts(c, prefix, last);
    assert t == (Spaces(line.indent) + prefix) + last;
    BlandSpaces(line.indent, prefix);
    assert CleanParts(t, Spaces(line.indent) + prefix, last);
    assert t[|t| - 1] == c[|c| - 1];
    NoComment(t, Spaces(line.indent) + prefix, last, tail);
    TrimLeftSpaces(line.indent, c, IsJsSpace);
    TrimKeeps(c, IsJsSpace);
  }

  lemma BlandSpaces(n: nat, prefix: string)
    requires Bland(prefix)
    ensures Bland(Spaces(n) + prefix)
  {
  }

  // ----- Key lines -----

  /** The value text of an entry as the loader sees it after trimming. */
  function InlineText(v: Value): string {
    if v.IsCollection() then "" else ScalarText(v)
  }

  lemma KeyTextShape(e: Entry)
    requires CommonKey(e.key) && (e.value.IsCollection() || CommonScalar(e.value))
    ensures var t := KeyText(e);
            && |t| > |e.key| && t[..|e.key|] == e.key && ':' in t && !IsItem(t)
            && (e.value.IsCollection() ==> t == e.key + ":")
            && (!e.value.IsCollection() ==>
                  t == e.key + ": " + ScalarText(e.value) && !EndsWith(t, ":")
                  && t[|t| - 1] == ScalarText(e.value)[|ScalarText(e.value)| - 1])
  {
    var t := KeyText(e);
    assert t[|e.key|] == ':';
    if !e.value.IsCollection() {
      var s := ScalarText(e.value);
      ScalarTextShape(e.value);
      assert t == e.key + ": " + s;
      assert t[|t| - 1] == s[|s| - 1];
    }
  }

  /** The first colon-space of a key line is the one that ends its key. */
  lemma FirstSeparator(key: string, rest: string)
    requires PlainKey(key)
    ensures IndexOfString(key + ": " + rest, ": ") == |key|
  {
    var t := key + ": " + rest;
    assert t[|key|..] == ": " + rest;
    IndexOfStringBound(t, ": ", |key|);
    forall j | 0 <= j < |key| ensures t[j..][0] != ':' {
      assert t[j] == key[j] && PlainKeyChar(key[j]);
    }
  }

  lemma {:induction false} NoSeparator(t: string)
    requires forall i :: 0 <= i < |t| - 1 ==> t[i] != ':'
    ensures IndexOfString(t, ": ") == |t|
  {
    if t != [] {
      NoSeparator(t[1..]);
      assert t[0] != ':' || |t| == 1;
    }
  }

  lemma SplitBareKey(key: string)
    requires CommonKey(key)
    ensures var t := key + ":";
            t != "" && EndsWith(t, ":") && SplitItemEntry(t) == (key, "") && SplitEntry(t) == (key, "")
  {
    var t := key + ":";
    TrimKeeps(key, IsJsSpace);
    KeyIsNotQuoted(key);
    assert t[..|t| - 1] == key && EndsWith(t, ":");
    assert forall i :: 0 <= i < |key| ==> PlainKeyChar(key[i]);
    NoSeparator(t);
  }

  lemma SplitFullKey(key: string, s: string)
    requires CommonKey(key)
    requires s != "" && !IsJsSpace(s[0]) && !IsJsSpace(s[|s| - 1]) && s[|s| - 1] != ':'
    ensures var t := key + ": " + s;
            t != "" && Contains(t, ": ") && SplitItemEntry(t) == (key, s) && SplitEntry(t) == (key, s)
  {
    var t := key + ": " + s;
    TrimKeeps(key, IsJsSpace);
    KeyIsNotQuoted(key);
    FirstSeparator(key, s);
    TrimKeeps(s, IsJsSpace);
    assert t[|t| - 1] == s[|s| - 1] && t[|key| + 2..] == s && t[..|key|] == key;
  }

  lemma SplitInverts(e: Entry)
    requires CommonKey(e.key) && (e.value.IsCollection() || CommonScalar(e.value))
    ensures var t := KeyText(e);
            && t != "" && SplitItemEntry(t) == (e.key, InlineText(e.value))
            && SplitEntry(t) == (e.key, InlineText(e.value))
            && (Contains(t, ": ") || EndsWith(t, ":"))
  {
    hide SplitItemEntry, SplitEntry, Contains, EndsWith, CommonKey;
    KeyTextShape(e);
    if e.value.IsCollection() {
      SplitBareKey(e.key);
    } else {
      ScalarTextShape(e.value);
      SplitFullKey(e.key, ScalarText(e.value));
    }
  }

  lemma KeyIsNotQuoted(key: string)
    requires PlainKey(key)
    ensures !IsQuoted(key)
  {
    assert PlainKeyChar(key[0]);
  }

  lemma ScalarIsNoEntry(v: Value)
    requires CommonScalar(v) && (v.Spelt? ==> NoEntry(v.text))
    ensures var t := ScalarText(v); !Contains(t, ": ") && !EndsWith(t, ":") && t !in {"", "|", ">"}
  {
    ScalarTextShape(v);
    if v.Spelt? {
      PyRoundTrip.NoColonSpace(v.text);
    } else {
      NoSeparator(ScalarText(v));
    }
  }

  lemma InlineInverts(v: Value)
    requires CommonScalar(v)
    ensures ScalarText(v) !in {"", "|", ">"}
    ensures ParseInline(ScalarText(v)) == Says(v) && ParseScalar(ScalarText(v)) == Says(v)
  {
    ScalarTextShape(v);
    ParseScalarInverts(v);
  }

  // ----- Positions -----

  /** The lines that are not blank, with their comments stripped. */
  function PageOf(lines: seq<string>): (page: Page)
    ensures |page| == |lines|
    ensures forall k :: 0 <= k < |lines| ==> page[k] == Shown(lines[k])
  {
    seq(|lines|, k requires 0 <= k < |lines| => Shown(lines[k]))
  }

  function Shown(line: string): Option<Line> {
    var cleaned := Clean(line);
    if cleaned.text == "" then None else Some(Line(cleaned.indent, cleaned.text))
  }

  /** What a line of the page says of the line that it shows. */
  lemma {:induction false} ShownIsClean(lines: seq<string>, i: nat)
    requires i < |lines| && PageOf(lines)[i].Some?
    ensures var line := PageOf(lines)[i].value;
            Clean(lines[i]) == Cleaned(line.indent, line.content) && line.content != ""
  {
    hide Clean;
  }

  /** The collection at column `n` ends before line `i`: there is none, it is less indented, or it stands in the same
      column and is no item behind a list or an item behind a mapping. */
  ghost predicate Ends(page: Page, i: nat, n: nat, list: bool) {
    || Stops(page, i, n)
    || (i < |page| && page[i].Some? && page[i].value.indent == n && (IsItem(page[i].value.content) <==> !list))
  }

  lemma StopsIsEnd(page: Page, i: nat, n: nat, list: bool)
    requires Stops(page, i, n)
    ensures Ends(page, i, n, list)
  {
  }

  lemma EndsWithin(page: Page, i: nat, n: nat, list: bool)
    requires Ends(page, i, n, list)
    ensures Stops(page, i, n + 1) && i <= |page|
  {
  }

  // ----- One step of each loop -----

  lemma {:induction false} MappingEnd(lines: seq<string>, i: nat, minIndent: nat, n: nat, acc: seq<Entry>)
    requires Ends(PageOf(lines), i, n, false)
    ensures ParseMapping(lines, i, minIndent, n, acc) == Success((Map(acc), i))
  {
    hide Clean, ParseEntryValue, SplitEntry, IsItem;
    if i < |lines| {
      ShownIsClean(lines, i);
    }
  }

  lemma {:induction false} SiblingsStop(lines: seq<string>, i: nat, n: nat, acc: seq<Entry>)
    requires Stops(PageOf(lines), i, n + 1)
    ensures ParseSiblings(lines, i, n, acc) == Success((acc, i))
  {
    hide Clean, ParseItemValue, SplitItemEntry;
    if i < |lines| {
      ShownIsClean(lines, i);
    }
  }

  lemma MappingStep(lines: seq<string>, i: nat, minIndent: nat, n: nat, acc: seq<Entry>, e: Entry, inline: string,
                    next: nat)
    requires i < |lines| && minIndent <= n
    requires var cur := Clean(lines[i]);
             && cur.text != "" && cur.indent == n && !IsItem(cur.text) && ':' in cur.text
             && SplitEntry(cur.text) == (e.key, inline)
    requires ParseEntryValue(lines, i, inline, n) == Success((e.value, next))
    ensures next <= |lines|
    ensures ParseMapping(lines, i, minIndent, n, acc)
         == ParseMapping(lines, next, minIndent, n, Put(acc, e.key, e.value))
  {
    hide SplitEntry, ParseEntryValue, Put, IsItem, Clean;
  }

  lemma SiblingStep(lines: seq<string>, i: nat, indent: nat, acc: seq<Entry>, e: Entry, inline: string, next: nat)
    requires i < |lines|
    requires var cur := Clean(lines[i]);
             cur.text != "" && cur.indent > indent && !IsItem(cur.text) && ':' in cur.text
             && SplitItemEntry(cur.text) == (e.key, inline)
             && ParseItemValue(lines, i, inline, cur.indent) == Success((e.value, next))
    ensures next <= |lines|
    ensures ParseSiblings(lines, i, indent, acc) == ParseSiblings(lines, next, indent, Put(acc, e.key, e.value))
  {
    hide SplitItemEntry, ParseItemValue, Put, IsItem, Clean;
  }

  lemma {:induction false} ArrayEnd(lines: seq<string>, i: nat, minIndent: nat, n: nat, acc: seq<Value>)
    requires Ends(PageOf(lines), i, n, true)
    ensures ParseArray(lines, i, minIndent, n, acc) == Success((Seq(acc), i))
  {
    hide Clean, ParseItem, IsItem;
    if i < |lines| {
      ShownIsClean(lines, i);
    }
  }

  lemma ArrayStep(lines: seq<string>, i: nat, minIndent: nat, n: nat, acc: seq<Value>, v: Value, next: nat)
    requires i < |lines| && minIndent <= n
    requires Clean(lines[i]).text != "" && Clean(lines[i]).indent == n && IsItem(Clean(lines[i]).text)
    requires ParseItem(lines, i) == Success((v, next))
    ensures next <= |lines|
    ensures ParseArray(lines, i, minIndent, n, acc) == ParseArray(lines, next, minIndent, n, acc + [v])
  {
    hide ParseItem, IsItem, Clean;
  }

  lemma NestedStep(lines: seq<string>, i: nat, indent: nat, n: nat, r: Parsed)
    requires i < |lines| && Clean(lines[i]).text != "" && Clean(lines[i]).indent == n > indent
    requires ParseBlock(lines, i, n) == r
    ensures ParseNested(lines, i, indent) == r
  {
    hide ParseBlock, Clean;
  }

  lemma BlockStep(lines: seq<string>, i: nat, minIndent: nat)
    requires i < |lines| && Clean(lines[i]).text != ""
    ensures ParseBlock(lines, i, minIndent) ==
            if IsItem(Clean(lines[i]).text) then ParseArray(lines, i, minIndent, Clean(lines[i]).indent, [])
            else ParseMapping(lines, i, minIndent, Clean(lines[i]).indent, [])
  {
    hide ParseArray, ParseMapping, Clean;
  }

  lemma MapItemStep(lines: seq<string>, i: nat, n: nat, rest: string, e: Entry, inline: string, next: nat,
                    entries: seq<Entry>, end: nat)
    requires i < |lines| && Clean(lines[i]) == Cleaned(n, "- " + rest)
    requires Contains(rest, ": ") || EndsWith(rest, ":")
    requires SplitItemEntry(rest) == (e.key, inline)
    requires ParseItemValue(lines, i, inline, n) == Success((e.value, next)) && next <= |lines|
    requires ParseSiblings(lines, next, n, [e]) == Success((entries, end))
    ensures IsItem(Clean(lines[i]).text)
    ensures ParseItem(lines, i) == Success((Map(entries), end))
  {
    hide SplitItemEntry, ParseItemValue, ParseSiblings, Clean, Contains, EndsWith;
    assert Clean(lines[i]).text[2..] == rest;
    assert Entry(e.key, e.value) == e;
  }

  // ----- The loader on canonical lines -----

  /** Trees that both loaders read back. */
  ghost predicate CommonTree(v: Value) {
    Printable(v) && Common(v)
  }

  ghost predicate CommonTreeEntries(entries: seq<Entry>) {
    PrintableEntries(entries) && CommonEntries(entries)
  }

  ghost predicate CommonTreeItems(items: seq<Value>) {
    PrintableItems(items) && CommonItems(items)
  }

  lemma EntryParts(entries: seq<Entry>)
    requires entries != [] && CommonTreeEntries(entries)
    ensures CommonKey(entries[0].key) && CommonTree(entries[0].value) && CommonTreeEntries(entries[1..])
    ensures entries[0].value.IsCollection() || CommonScalar(entries[0].value)
  {
  }

  lemma ItemParts(items: seq<Value>)
    requires items != [] && CommonTreeItems(items)
    ensures !items[0].Seq? && CommonTree(items[0]) && CommonTreeItems(items[1..]) && PrintableItems(items)
    ensures items[0].Spelt? ==> NoEntry(items[0].text)
    ensures items[0].Map? || CommonScalar(items[0])
  {
  }

  lemma MapParts(entries: seq<Entry>)
    requires CommonTree(Map(entries))
    ensures entries != [] && CommonTreeEntries(entries)
    ensures var all := SaysEntries(entries); PutAll([], all) == all && all != [] && PutAll([all[0]], all[1..]) == all
  {
    hide SaysEntries, PutAll;
    PrintableSays(entries);
  }

  lemma {:induction false} FirstLine(lines: seq<string>, i: nat, v: Value, n: nat)
    requires Printable(v) && v.IsCollection() && At(PageOf(lines), i, Block(v, n))
    ensures i < |lines| && Clean(lines[i]).text != "" && Clean(lines[i]).indent == n
    ensures IsItem(Clean(lines[i]).text) ==> v.Seq?
    ensures v.Seq? && Common(v) ==> IsItem(Clean(lines[i]).text)
  {
    PyRoundTrip.BlockStart(v, n);
    AtLine(PageOf(lines), i, Block(v, n), 0);
    if v.Seq? && Common(v) {
      ItemParts(v.items);
      assert Block(v, n) == ItemLines(v.items[0], n) + SeqLines(v.items[1..], n);
      PyRoundTrip.ItemLinesCases(v.items[0], n);
      if v.items[0].Map? {
        MapLinesSplit(v.items[0].entries, n + 2);
      }
    }
  }

  lemma {:induction false} BlockParses(lines: seq<string>, i: nat, v: Value, n: nat, minIndent: nat)
    requires CommonTree(v) && v.IsCollection() && minIndent <= n
    requires At(PageOf(lines), i, Block(v, n)) && Ends(PageOf(lines), i + |Block(v, n)|, n, v.Seq?)
    ensures ParseBlock(lines, i, minIndent) == Success((Says(v), i + |Block(v, n)|))
    decreases v, 1
  {
    hide *;
    CommonCollection(v, n);
    FirstLine(lines, i, v, n);
    BlockStep(lines, i, minIndent);
    SaysParts(v);
    match v
    case Map(entries) =>
      MapParts(entries);
      MapParses(lines, i, entries, n, minIndent, []);
    case Seq(items) =>
      assert [] + SaysAll(items) == SaysAll(items);
      SeqParses(lines, i, items, n, minIndent, []);
  }

  lemma CommonCollection(v: Value, n: nat)
    requires CommonTree(v) && v.IsCollection()
    ensures Printable(v) && Common(v) && (v.Map? || v.Seq?)
    ensures v.Map? ==> Block(v, n) == MapLines(v.entries, n)
    ensures v.Seq? ==> Block(v, n) == SeqLines(v.items, n) && CommonTreeItems(v.items)
  {
  }

  /** The value of an entry printed at column `n` whose key line `i` has indent `indent`. */
  lemma {:induction false} ValueParses(lines: seq<string>, i: nat, e: Entry, n: nat, indent: nat)
    requires CommonTree(e.value) && (e.value.IsCollection() || CommonScalar(e.value))
    requires i < |lines| && indent < n + 2
    requires At(PageOf(lines), i + 1, Nested(e, n)) && Stops(PageOf(lines), i + 1 + |Nested(e, n)|, n + 2)
    ensures var expected: Parsed := Success((Says(e.value), i + 1 + |Nested(e, n)|));
            && ParseEntryValue(lines, i, InlineText(e.value), indent) == expected
            && ParseItemValue(lines, i, InlineText(e.value), indent) == expected
    decreases e, 0
  {
    hide *;
    NestedCases(e, n);
    if e.value.IsCollection() {
      var end := i + 1 + |Block(e.value, n + 2)|;
      CommonCollection(e.value, n + 2);
      FirstLine(lines, i + 1, e.value, n + 2);
      StopsIsEnd(PageOf(lines), end, n + 2, e.value.Seq?);
      BlockParses(lines, i + 1, e.value, n + 2, n + 2);
      NestedStep(lines, i + 1, indent, n + 2, Success((Says(e.value), end)));
      EmptyInline(lines, i, indent, Success((Says(e.value), end)));
    } else {
      InlineInverts(e.value);
      FullInline(lines, i, ScalarText(e.value), indent);
    }
  }

  lemma NestedCases(e: Entry, n: nat)
    ensures InlineText(e.value) == if e.value.IsCollection() then "" else ScalarText(e.value)
    ensures Nested(e, n) == if e.value.IsCollection() then Block(e.value, n + 2) else []
  {
  }

  lemma EmptyInline(lines: seq<string>, i: nat, indent: nat, r: Parsed)
    requires i < |lines| && ParseNested(lines, i + 1, indent) == r
    ensures ParseEntryValue(lines, i, "", indent) == r && ParseItemValue(lines, i, "", indent) == r
  {
    hide ParseNested;
  }

  lemma FullInline(lines: seq<string>, i: nat, inline: string, indent: nat)
    requires i < |lines| && inline !in {"", "|", ">"}
    ensures ParseEntryValue(lines, i, inline, indent) == Success((ParseInline(inline), i + 1))
    ensures ParseItemValue(lines, i, inline, indent) == Success((ParseScalar(inline), i + 1))
  {
    hide ParseInline, ParseScalar;
  }

  lemma EntryKeyLine(lines: seq<string>, i: nat, e: Entry, n: nat)
    requires CommonKey(e.key) && (e.value.IsCollection() || CommonScalar(e.value))
    requires i < |lines| && Clean(lines[i]) == Cleaned(n, KeyText(e))
    ensures var cur := Clean(lines[i]);
            && cur.text != "" && cur.indent == n && !IsItem(cur.text) && ':' in cur.text
            && SplitEntry(cur.text) == (e.key, InlineText(e.value))
            && SplitItemEntry(cur.text) == (e.key, InlineText(e.value))
  {
    hide SplitEntry, SplitItemEntry, Clean, InlineText;
    KeyTextShape(e);
    SplitInverts(e);
  }

  lemma {:induction false} MapParses(lines: seq<string>, i: nat, entries: seq<Entry>, n: nat, minIndent: nat,
                                     acc: seq<Entry>)
    requires CommonTreeEntries(entries) && minIndent <= n
    requires At(PageOf(lines), i, MapLines(entries, n)) && Ends(PageOf(lines), i + |MapLines(entries, n)|, n, false)
    ensures ParseMapping(lines, i, minIndent, n, acc)
         == Success((Map(PutAll(acc, SaysEntries(entries))), i + |MapLines(entries, n)|))
    decreases entries, 1
  {
    hide *;
    var end := i + |MapLines(entries, n)|;
    EndsWithin(PageOf(lines), end, n, false);
    EntriesParse(lines, i, entries, n, minIndent, acc);
    MappingEnd(lines, end, minIndent, n, PutAll(acc, SaysEntries(entries)));
  }

  /** The mapping goes on behind the printed entries, when no deeper line follows them. */
  lemma {:induction false} EntriesParse(lines: seq<string>, i: nat, entries: seq<Entry>, n: nat, minIndent: nat,
                                        acc: seq<Entry>)
    requires CommonTreeEntries(entries) && minIndent <= n
    requires At(PageOf(lines), i, MapLines(entries, n)) && Stops(PageOf(lines), i + |MapLines(entries, n)|, n + 1)
    ensures i + |MapLines(entries, n)| <= |lines|
    ensures ParseMapping(lines, i, minIndent, n, acc)
         == ParseMapping(lines, i + |MapLines(entries, n)|, minIndent, n, PutAll(acc, SaysEntries(entries)))
    decreases entries, 0
  {
    hide *;
    StopsWithin(PageOf(lines), i + |MapLines(entries, n)|, n + 1, n + 1);
    if entries == [] {
      NoEntries(n, acc);
    } else {
      var e, rest := entries[0], entries[1..];
      var next := i + 1 + |Nested(e, n)|;
      FirstSays(entries);
      PutAllStep(acc, SaysEntries(entries));
      EntryParts(entries);
      FirstEntry(PageOf(lines), i, entries, n);
      ShownIsClean(lines, i);
      EntryKeyLine(lines, i, e, n);
      StopsWithin(PageOf(lines), next, n + 1, n + 2);
      ValueParses(lines, i, e, n, n);
      MappingStep(lines, i, minIndent, n, acc, Entry(e.key, Says(e.value)), InlineText(e.value), next);
      EntriesParse(lines, next, rest, n, minIndent, Put(acc, e.key, Says(e.value)));
    }
  }

  lemma NoEntries(n: nat, acc: seq<Entry>)
    ensures |MapLines([], n)| == 0 && PutAll(acc, SaysEntries([])) == acc
  {
  }

  /** The keys that follow the first one of a mapping item whose dash is at column `n`. */
  lemma {:induction false} SiblingsParse(lines: seq<string>, i: nat, entries: seq<Entry>, n: nat, acc: seq<Entry>)
    requires CommonTreeEntries(entries)
    requires At(PageOf(lines), i, MapLines(entries, n + 2))
    requires Stops(PageOf(lines), i + |MapLines(entries, n + 2)|, n + 1)
    ensures ParseSiblings(lines, i, n, acc)
         == Success((PutAll(acc, SaysEntries(entries)), i + |MapLines(entries, n + 2)|))
    decreases entries, 0
  {
    hide *;
    if entries == [] {
      NoEntries(n + 2, acc);
      SiblingsStop(lines, i, n, acc);
    } else {
      var e, rest := entries[0], entries[1..];
      var next := i + 1 + |Nested(e, n + 2)|;
      FirstSays(entries);
      PutAllStep(acc, SaysEntries(entries));
      EntryParts(entries);
      StopsWithin(PageOf(lines), i + |MapLines(entries, n + 2)|, n + 1, n + 3);
      FirstEntry(PageOf(lines), i, entries, n + 2);
      ShownIsClean(lines, i);
      EntryKeyLine(lines, i, e, n + 2);
      StopsWithin(PageOf(lines), next, n + 3, n + 4);
      ValueParses(lines, i, e, n + 2, n + 2);
      SiblingStep(lines, i, n, acc, Entry(e.key, Says(e.value)), InlineText(e.value), next);
      SiblingsParse(lines, next, rest, n, Put(acc, e.key, Says(e.value)));
    }
  }

  lemma {:induction false} MapItemParses(lines: seq<string>, i: nat, entries: seq<Entry>, n: nat)
    requires CommonTree(Map(entries))
    requires At(PageOf(lines), i, Dash(MapLines(entries, n + 2), n))
    requires Stops(PageOf(lines), i + |MapLines(entries, n + 2)|, n + 1)
    ensures i < |lines| && Clean(lines[i]).text != "" && Clean(lines[i]).indent == n && IsItem(Clean(lines[i]).text)
    ensures ParseItem(lines, i) == Success((Says(Map(entries)), i + |MapLines(entries, n + 2)|))
    decreases entries, 1
  {
    hide *;
    MapParts(entries);
    EntryParts(entries);
    var e, rest := entries[0], entries[1..];
    var next := i + 1 + |Nested(e, n + 2)|;
    MapItemLines(PageOf(lines), i, entries, n);
    ShownIsClean(lines, i);
    StopsWithin(PageOf(lines), next, n + 3, n + 4);
    ValueParses(lines, i, e, n + 2, n);
    SaysParts(Map(entries));
    FirstSays(entries);
    var all := SaysEntries(entries);
    SiblingsParse(lines, next, rest, n, [all[0]]);
    SplitInverts(e);
    MapItemStep(lines, i, n, KeyText(e), all[0], InlineText(e.value), next, all, next + |MapLines(rest, n + 2)|);
  }

  /** A bare first key with a mapping below it, at the column of its siblings. */
  lemma {:induction false} BareKeyAboveEntries(lines: seq<string>, i: nat, key: string, entries: seq<Entry>, n: nat)
    requires CommonKey(key) && CommonTree(Map(entries))
    requires At(PageOf(lines), i, [Line(n, "- " + (key + ":"))] + MapLines(entries, n + 2))
    requires Stops(PageOf(lines), i + 1 + |MapLines(entries, n + 2)|, n + 1)
    ensures i < |lines| && IsItem(Clean(lines[i]).text)
    ensures ParseItem(lines, i)
         == Success((Map([Entry(key, Says(Map(entries)))]), i + 1 + |MapLines(entries, n + 2)|))
  {
    hide *;
    var e := Entry(key, Map(entries));
    var end := i + 1 + |MapLines(entries, n + 2)|;
    AtCons(PageOf(lines), i, Line(n, "- " + (key + ":")), MapLines(entries, n + 2));
    ShownIsClean(lines, i);
    BareKeyText(e);
    BareKeyNested(e, n);
    StopsWithin(PageOf(lines), end, n + 1, n + 2);
    MapIsCollection(e.value);
    ValueParses(lines, i, e, n, n);
    var m := Entry(key, Says(e.value));
    SiblingsStop(lines, end, n, [m]);
    SplitInverts(e);
    MapItemStep(lines, i, n, KeyText(e), m, InlineText(e.value), end, [m], end);
  }

  /** The next text line behind line `i`, if there is one, is not indented more than `n`. */
  predicate NothingBelow(lines: seq<string>, i: nat, n: nat)
    requires i < |lines|
  {
    var j := Peek(lines, i + 1);
    j == |lines| || Clean(lines[j]).indent <= n
  }

  lemma BlockTakesLine(lines: seq<string>, i: nat, n: nat)
    requires i < |lines| && !NothingBelow(lines, i, n)
    ensures var r := ParseNested(lines, i + 1, n); r.Success? ==> r.value.1 > Peek(lines, i + 1)
  {
    hide Clean, ParseItem, ParseEntryValue, SplitEntry;
    var j := Peek(lines, i + 1);
    BlockStep(lines, j, Clean(lines[j]).indent);
  }

  lemma NothingNested(lines: seq<string>, i: nat, n: nat)
    requires i < |lines| && NothingBelow(lines, i, n)
    ensures ParseNested(lines, i + 1, n) == Success((Null, Peek(lines, i + 1)))
  {
    hide Clean, ParseBlock;
  }

  lemma SiblingsEnd(lines: seq<string>, i: nat, n: nat, m: seq<Entry>)
    requires i < |lines| && NothingBelow(lines, i, n)
    ensures ParseSiblings(lines, Peek(lines, i + 1), n, m) == Success((m, Peek(lines, i + 1)))
  {
    hide Clean, ParseItemValue, SplitItemEntry;
  }

  /** The item ends behind the value of its first key. */
  lemma ItemGoesOn(lines: seq<string>, i: nat, n: nat, rest: string, key: string)
    requires i < |lines| && Clean(lines[i]) == Cleaned(n, "- " + rest)
    requires (Contains(rest, ": ") || EndsWith(rest, ":")) && SplitItemEntry(rest) == (key, "")
    ensures IsItem(Clean(lines[i]).text)
    ensures var (r, value) := (ParseItem(lines, i), ParseNested(lines, i + 1, n));
            r.Success? ==> value.Success? && r.value.1 >= value.value.1
  {
    hide SplitItemEntry, ParseNested, ParseSiblings, Clean, Contains, EndsWith;
    assert Clean(lines[i]).text[2..] == rest;
  }

  /** An item that is a bare key reads as that key with null exactly when the next text line, if there is one, is
      not indented more than the dash. */
  lemma {:induction false} BareFirstKeyIsNull(lines: seq<string>, i: nat, key: string, n: nat)
    requires CommonKey(key) && At(PageOf(lines), i, [Line(n, "- " + (key + ":"))])
    ensures i < |lines| && IsItem(Clean(lines[i]).text)
    ensures ParseItem(lines, i) == Success((Map([Entry(key, Null)]), Peek(lines, i + 1))) <==> NothingBelow(lines, i, n)
  {
    hide *;
    var e, line := Entry(key, Map([])), Line(n, "- " + (key + ":"));
    assert [line] + [] == [line];
    AtCons(PageOf(lines), i, line, []);
    ShownIsClean(lines, i);
    BareKeyText(e);
    MapIsCollection(e.value);
    MapHasNoInline(e.value);
    SplitInverts(e);
    ItemGoesOn(lines, i, n, KeyText(e), key);
    var next := Peek(lines, i + 1);
    if NothingBelow(lines, i, n) {
      NothingNested(lines, i, n);
      EmptyInline(lines, i, n, Success((Null, next)));
      SiblingsEnd(lines, i, n, [Entry(key, Null)]);
      MapItemStep(lines, i, n, KeyText(e), Entry(key, Null), "", next, [Entry(key, Null)], next);
    } else {
      BlockTakesLine(lines, i, n);
    }
  }

  lemma MapHasNoInline(v: Value)
    requires v.Map?
    ensures InlineText(v) == ""
  {
  }

  lemma StoppedHasNothing(lines: seq<string>, i: nat, n: nat)
    requires i < |lines| && Stops(PageOf(lines), i + 1, n + 1)
    ensures NothingBelow(lines, i, n) && Peek(lines, i + 1) == i + 1
  {
    hide Clean;
    if i + 1 < |lines| {
      ShownIsClean(lines, i + 1);
    }
  }

  /** A list item whose first key has no text of its own takes the keys below it, which stand at the column of
      its siblings, as its value: the other parser reads it in the same way. So the key reads as null, followed
      by its siblings, exactly when there are none. */
  lemma {:induction false} BareFirstKeyTakesSiblings(lines: seq<string>, i: nat, key: string, entries: seq<Entry>,
                                                     n: nat)
    requires CommonKey(key) && (entries == [] || CommonTree(Map(entries)))
    requires At(PageOf(lines), i, [Line(n, "- " + (key + ":"))] + MapLines(entries, n + 2))
    requires Stops(PageOf(lines), i + 1 + |MapLines(entries, n + 2)|, n + 1)
    ensures i < |lines| && IsItem(Clean(lines[i]).text)
    ensures var (r, end) := (ParseItem(lines, i), i + 1 + |MapLines(entries, n + 2)|);
            && r == Success((Map([Entry(key, if entries == [] then Null else Says(Map(entries)))]), end))
            && (r == Success((Map([Entry(key, Null)] + SaysEntries(entries)), end)) <==> entries == [])
  {
    hide *;
    if entries == [] {
      NoEntries(n + 2, []);
      var line := Line(n, "- " + (key + ":"));
      assert [line] + MapLines(entries, n + 2) == [line];
      BareFirstKeyIsNull(lines, i, key, n);
      StoppedHasNothing(lines, i, n);
      NothingSays();
      assert [Entry(key, Null)] + [] == [Entry(key, Null)];
    } else {
      SaysParts(Map(entries));
      assert ([Entry(key, Null)] + SaysEntries(entries))[0] == Entry(key, Null);
      BareKeyAboveEntries(lines, i, key, entries, n);
    }
  }

  lemma MapIsCollection(v: Value)
    requires v.Map?
    ensures v.IsCollection()
  {
  }

  lemma ScalarItemParses(lines: seq<string>, i: nat, v: Value, n: nat)
    requires CommonScalar(v) && (v.Spelt? ==> NoEntry(v.text))
    requires i < |lines| && Clean(lines[i]) == Cleaned(n, "- " + ScalarText(v))
    ensures IsItem(Clean(lines[i]).text)
    ensures ParseItem(lines, i) == Success((Says(v), i + 1))
  {
    hide Says, NoEntry, Clean, ParseScalar, ScalarText, Contains, EndsWith, CommonScalar;
    assert Clean(lines[i]).text[2..] == ScalarText(v);
    ScalarIsNoEntry(v);
    ParseScalarInverts(v);
  }

  lemma {:induction false} ItemParses(lines: seq<string>, i: nat, v: Value, n: nat)
    requires CommonTree(v) && (v.Map? || CommonScalar(v)) && (v.Spelt? ==> NoEntry(v.text))
    requires At(PageOf(lines), i, ItemLines(v, n)) && Stops(PageOf(lines), i + |ItemLines(v, n)|, n + 1)
    ensures i < |lines| && Clean(lines[i]).text != "" && Clean(lines[i]).indent == n && IsItem(Clean(lines[i]).text)
    ensures ParseItem(lines, i) == Success((Says(v), i + |ItemLines(v, n)|))
    decreases v, 0
  {
    hide *;
    CommonItemLines(v, n);
    if v.Map? {
      MapItemParses(lines, i, v.entries, n);
    } else {
      var line := Line(n, "- " + ScalarText(v));
      assert [line] + [] == [line];
      AtCons(PageOf(lines), i, line, []);
      ShownIsClean(lines, i);
      ScalarItemParses(lines, i, v, n);
    }
  }

  lemma CommonItemLines(v: Value, n: nat)
    requires CommonTree(v) && (v.Map? || CommonScalar(v))
    ensures v.Map? ==> ItemLines(v, n) == Dash(MapLines(v.entries, n + 2), n)
    ensures v.Map? ==> |ItemLines(v, n)| == |MapLines(v.entries, n + 2)|
    ensures !v.Map? ==> ItemLines(v, n) == [Line(n, "- " + ScalarText(v))]
  {
    PyRoundTrip.ItemLinesCases(v, n);
  }

  lemma {:induction false} SeqParses(lines: seq<string>, i: nat, items: seq<Value>, n: nat, minIndent: nat,
                                     acc: seq<Value>)
    requires CommonTreeItems(items) && minIndent <= n
    requires At(PageOf(lines), i, SeqLines(items, n)) && Ends(PageOf(lines), i + |SeqLines(items, n)|, n, true)
    ensures ParseArray(lines, i, minIndent, n, acc) == Success((Seq(acc + SaysAll(items)), i + |SeqLines(items, n)|))
    decreases items, 0
  {
    hide *;
    if items == [] {
      NoItems(n, acc);
      ArrayEnd(lines, i, minIndent, n, acc);
    } else {
      var v, rest := items[0], items[1..];
      var next := i + |ItemLines(v, n)|;
      ItemParts(items);
      EndsWithin(PageOf(lines), i + |SeqLines(items, n)|, n, true);
      FirstItem(PageOf(lines), i, items, n);
      ItemParses(lines, i, v, n);
      ArrayStep(lines, i, minIndent, n, acc, Says(v), next);
      FirstItemSays(items);
      assert (acc + [Says(v)]) + SaysAll(rest) == acc + ([Says(v)] + SaysAll(rest));
      SeqParses(lines, next, rest, n, minIndent, acc + [Says(v)]);
    }
  }

  lemma NoItems(n: nat, acc: seq<Value>)
    ensures |SeqLines([], n)| == 0 && acc + SaysAll([]) == acc
  {
  }

  // ----- Whole documents -----

  /** A text in front of a clean one, when it holds nothing that matters to the loader. */
  lemma CleanConcat(prefix: string, last: string)
    requires prefix != [] && !IsJsSpace(prefix[0]) && Bland(prefix) && last != [] && !IsJsSpace(last[|last| - 1])
    requires Neutral(last)
    requires NoFeed(prefix) && NoFeed(last)
    ensures CleanContent(prefix + last)
  {
    var c := prefix + last;
    assert CleanParts(c, prefix, last);
    forall i | 0 <= i < |c| ensures c[i] != '\n' {
      assert c[i] == if i < |prefix| then prefix[i] else last[i - |prefix|];
    }
  }

  predicate NoFeed(s: string) {
    forall i :: 0 <= i < |s| ==> s[i] != '\n'
  }

  /** The start of an entry line, alone or after the dash of a list item. */
  lemma KeyStart(dash: string, key: string, colon: string)
    requires CommonKey(key) && dash in {"", "- "} && colon in {":", ": "}
    ensures var t := dash + key + colon; t != [] && !IsJsSpace(t[0]) && Bland(t) && NoFeed(t)
  {
    var t := dash + key + colon;
    forall i | 0 <= i < |t| ensures t[i] !in {'"', '\'', '#', '\n'} {
      assert t[i] == if i < |dash| then dash[i]
                     else if i < |dash| + |key| then key[i - |dash|]
                     else colon[i - |dash| - |key|];
      if |dash| <= i < |dash| + |key| {
        assert PlainKeyChar(key[i - |dash|]);
      }
    }
    assert t[0] == if dash == "" then key[0] else '-';
  }

  lemma KeyTextClean(e: Entry, dash: string)
    requires CommonKey(e.key) && (e.value.IsCollection() || CommonScalar(e.value)) && dash in {"", "- "}
    ensures CleanContent(dash + KeyText(e))
  {
    hide CleanContent, Bland, NoFeed, CommonScalar, CommonKey, ScalarText;
    if e.value.IsCollection() {
      KeyStart(dash, e.key, ":");
      CleanAlone(dash + e.key + ":");
      assert dash + KeyText(e) == dash + e.key + ":";
    } else {
      var s := ScalarText(e.value);
      KeyStart(dash, e.key, ": ");
      ScalarTextShape(e.value);
      ScalarHasNoBreak(e.value);
      CleanConcat(dash + e.key + ": ", s);
      assert dash + KeyText(e) == dash + e.key + ": " + s;
    }
  }

  lemma CleanAlone(c: string)
    requires c != [] && !IsJsSpace(c[0]) && !IsJsSpace(c[|c| - 1]) && Bland(c) && NoFeed(c)
    ensures CleanContent(c)
  {
    assert Bland("") && "" + c == c;
    assert CleanParts(c, "", c);
  }

  lemma ScalarHasNoBreak(v: Value)
    requires CommonScalar(v)
    ensures NoFeed(ScalarText(v))
  {
    match v
    case Str(s) =>
      WordsEscapeToThemselves(s);
      var t := "\"" + s + "\"";
      assert ScalarText(v) == t;
      assert forall i :: 1 <= i < |t| - 1 ==> t[i] == s[i - 1];
    case Int(n) => IntShape(n);
    case _ =>
  }

  lemma ScalarClean(v: Value)
    requires CommonScalar(v)
    ensures CleanContent("- " + ScalarText(v))
  {
    hide CleanContent, CommonScalar, ScalarText;
    ScalarTextShape(v);
    ScalarHasNoBreak(v);
    CleanConcat("- ", ScalarText(v));
  }

  lemma {:induction false} BlockClean(v: Value, n: nat)
    requires CommonTree(v) && v.IsCollection()
    ensures AllClean(Block(v, n))
    decreases v, 1
  {
    match v
    case Map(entries) => MapLinesClean(entries, n);
    case Seq(items) => SeqLinesClean(items, n);
  }

  lemma CleanFollows(line: Line, a: seq<Line>, b: seq<Line>)
    requires CleanContent(line.content) && AllClean(a) && AllClean(b)
    ensures AllClean([line] + (a + b))
  {
    hide CleanContent;
  }

  lemma {:induction false} NestedClean(e: Entry, n: nat)
    requires CommonTree(e.value)
    ensures AllClean(Nested(e, n))
    decreases e, 0
  {
    hide AllClean;
    if e.value.IsCollection() {
      BlockClean(e.value, n + 2);
    } else {
      NothingUnclean();
    }
  }

  lemma NothingUnclean()
    ensures AllClean([])
  {
  }

  lemma {:induction false} MapLinesClean(entries: seq<Entry>, n: nat)
    requires CommonTreeEntries(entries)
    ensures AllClean(MapLines(entries, n))
    decreases entries, 0
  {
    hide AllClean, CleanContent, CommonTree, CommonTreeEntries, CommonScalar, CommonKey;
    if entries == [] {
      NothingUnclean();
    } else {
      var e := entries[0];
      MapLinesSplit(entries, n);
      EntryParts(entries);
      KeyTextClean(e, "");
      assert "" + KeyText(e) == KeyText(e);
      NestedClean(e, n);
      MapLinesClean(entries[1..], n);
      CleanFollows(Line(n, KeyText(e)), Nested(e, n), MapLines(entries[1..], n));
    }
  }

  /** A mapping item: only the first of its lines changes. */
  lemma {:induction false} MapItemClean(entries: seq<Entry>, n: nat)
    requires entries != [] && CommonTreeEntries(entries)
    ensures AllClean(Dash(MapLines(entries, n + 2), n))
    decreases entries, 1
  {
    hide AllClean, CleanContent, CommonTree, CommonTreeEntries, CommonScalar, CommonKey, Dash;
    var e := entries[0];
    var nested, rest := Nested(e, n + 2), MapLines(entries[1..], n + 2);
    MapLinesSplit(entries, n + 2);
    DashSplit(KeyText(e), nested + rest, n);
    EntryParts(entries);
    KeyTextClean(e, "- ");
    NestedClean(e, n + 2);
    MapLinesClean(entries[1..], n + 2);
    CleanFollows(Line(n, "- " + KeyText(e)), nested, rest);
  }

  lemma {:induction false} SeqLinesClean(items: seq<Value>, n: nat)
    requires CommonTreeItems(items)
    ensures AllClean(SeqLines(items, n))
    decreases items, 0
  {
    hide AllClean, CleanContent, CommonTree, CommonTreeItems, CommonScalar;
    if items == [] {
      NothingUnclean();
    } else {
      var v := items[0];
      ItemParts(items);
      CommonItemLines(v, n);
      SeqLinesSplit(items, n);
      SeqLinesClean(items[1..], n);
      if v.Map? {
        MapParts(v.entries);
        MapItemClean(v.entries, n);
        AllCleanJoin(ItemLines(v, n), SeqLines(items[1..], n));
      } else {
        ScalarClean(v);
        NothingUnclean();
        CleanFollows(Line(n, "- " + ScalarText(v)), [], SeqLines(items[1..], n));
        assert [] + SeqLines(items[1..], n) == SeqLines(items[1..], n);
      }
    }
  }

  lemma AllCleanJoin(a: seq<Line>, b: seq<Line>)
    requires AllClean(a) && AllClean(b)
    ensures AllClean(a + b)
  {
    hide CleanContent;
  }

  /** The canonical document without its last line end. */
  function BodyText(lines: seq<Line>): string {
    if lines == [] then ""
    else if |lines| == 1 then Render(lines[0]) else Render(lines[0]) + "\n" + BodyText(lines[1..])
  }

  lemma SplitFirst(line: string, rest: string)
    requires line != [] && line[|line| - 1] != '\r'
    requires forall i :: 0 <= i < |line| ==> line[i] != '\n'
    ensures SplitLines(line + "\n" + rest) == [line] + SplitLines(rest)
    ensures SplitLines(line) == [line]
  {
    var text := line + "\n" + rest;
    assert forall k :: 0 <= k < |line| ==> text[k] == line[k];
    assert text[|line|] == '\n';
    assert text[..|line|] == line && text[|line| + 1..] == rest;
  }

  lemma ShownLine(text: string, line: Line)
    requires CleanContent(line.content) && Render(line) <= text && Tail(text[|Render(line)|..])
    ensures Clean(text) == Cleaned(line.indent, line.content)
    ensures text != [] && text[|text| - 1] != '\r' && forall i :: 0 <= i < |text| ==> text[i] != '\n'
  {
    hide CleanContent, Render, Clean, Tail;
    var t := Render(line);
    assert text == t + text[|t|..];
    CleanRendered(line, text[|t|..]);
    TailHasNoReturn(text[|t|..]);
  }

  lemma {:induction false} TailHasNoReturn(s: string)
    requires CommentOrTail(s)
    ensures s != "" ==> s[|s| - 1] != '\r'
  {
    if s != "" && s[0] != '#' && |s| > 1 {
      TailHasNoReturn(s[1..]);
      assert s[|s| - 1] == s[1..][|s[1..]| - 1];
    }
  }

  lemma RenderedLine(line: Line)
    requires CleanContent(line.content)
    ensures Clean(Render(line)) == Cleaned(line.indent, line.content)
    ensures var text := Render(line);
            text != [] && text[|text| - 1] != '\r' && forall i :: 0 <= i < |text| ==> text[i] != '\n'
  {
    hide CleanContent, Render, Clean;
    var text := Render(line);
    assert text[|text|..] == "";
    ShownLine(text, line);
  }

  lemma {:induction false} SplitBody(lines: seq<Line>)
    requires lines != [] && AllClean(lines)
    ensures SplitLines(BodyText(lines)) == Rendered(lines)
  {
    hide SplitLines, CleanContent, Render, Clean;
    RenderedLine(lines[0]);
    if |lines| == 1 {
      SplitFirst(Render(lines[0]), "");
    } else {
      SplitFirst(Render(lines[0]), BodyText(lines[1..]));
      SplitBody(lines[1..]);
    }
  }

  lemma {:induction false} RenderedAt(lines: seq<Line>)
    ensures |Rendered(lines)| == |lines|
    ensures forall k :: 0 <= k < |lines| ==> Rendered(lines)[k] == Render(lines[k])
  {
    hide Render;
    if lines != [] {
      RenderedAt(lines[1..]);
    }
  }

  lemma RenderedShow(lines: seq<Line>)
    requires AllClean(lines)
    ensures At(PageOf(Rendered(lines)), 0, lines) && |Rendered(lines)| == |lines|
  {
    hide CleanContent, Clean, Render, Rendered;
    RenderedAt(lines);
    forall k | 0 <= k < |lines| ensures PageOf(Rendered(lines))[k] == Some(lines[k]) {
      RenderedLine(lines[k]);
      LineHasText(lines[k]);
    }
  }

  lemma LineHasText(line: Line)
    requires CleanContent(line.content)
    ensures line.content != ""
  {
  }

  lemma EmptyTail()
    ensures Tail("")
  {
  }

  lemma {:induction false} BodyEnds(lines: seq<Line>)
    requires lines != [] && AllClean(lines)
    ensures var t := BodyText(lines);
            && JoinLines(lines) == t + "\n"
            && t != [] && t[0] == Render(lines[0])[0] && !IsJsSpace(t[|t| - 1])
  {
    hide CleanContent, Render, Clean;
    var line := Render(lines[0]);
    EmptyTail();
    CleanRendered(lines[0], "");
    if |lines| == 1 {
      assert JoinLines(lines[1..]) == "";
      assert line + "\n" + "" == line + "\n";
    } else {
      var rest := BodyText(lines[1..]);
      BodyEnds(lines[1..]);
      var text := line + "\n" + rest;
      assert text[|text| - 1] == rest[|rest| - 1];
      assert line + "\n" + (rest + "\n") == text + "\n";
    }
  }

  lemma DocumentLines(v: Value)
    requires CommonTree(v) && v.IsCollection()
    ensures var lines := Block(v, 0);
            lines != [] && AllClean(lines) && Trim(Print(v), IsJsSpace) == BodyText(lines)
  {
    hide SplitLines, CleanContent, Clean, Trim, BodyText;
    var lines := Block(v, 0);
    PyRoundTrip.BlockStart(v, 0);
    BlockClean(v, 0);
    BodyEnds(lines);
    FirstChar(lines);
    TrimDropsBreak(BodyText(lines));
  }

  lemma FirstChar(lines: seq<Line>)
    requires lines != [] && AllClean(lines) && lines[0].indent == 0
    ensures Render(lines[0]) != [] && !IsJsSpace(Render(lines[0])[0])
  {
    assert Render(lines[0])[0] == lines[0].content[0];
  }

  lemma TrimDropsBreak(s: string)
    requires s != [] && !IsJsSpace(s[0]) && !IsJsSpace(s[|s| - 1])
    ensures Trim(s + "\n", IsJsSpace) == s
  {
    var t := s + "\n";
    assert t[0] == s[0] && t[|t| - 1] == '\n' && t[..|t| - 1] == s;
    TrimKeeps(s, IsJsSpace);
  }

  /** The YAML loader itself on the print of a tree, without its last line end: it gives what the print says. */
  lemma YamlInvertsPrint(v: Value)
    requires CommonTree(v) && v.IsCollection()
    ensures ParseYaml(BodyText(Block(v, 0))) == Success(Says(v))
  {
    hide *;
    var lines := Block(v, 0);
    var texts := Rendered(lines);
    DocumentLines(v);
    CommonCollection(v, 0);
    SplitBody(lines);
    RenderedShow(lines);
    PyRoundTrip.NothingAfter(PageOf(texts), |lines|);
    StopsIsEnd(PageOf(texts), |lines|, 0, v.Seq?);
    BlockParses(texts, 0, v, 0, 0);
    DocumentIsBlock(lines, v);
  }

  lemma DocumentIsBlock(lines: seq<Line>, v: Value)
    requires SplitLines(BodyText(lines)) == Rendered(lines) && v.IsCollection()
    requires ParseBlock(Rendered(lines), 0, 0).Success? && ParseBlock(Rendered(lines), 0, 0).value.0 == Says(v)
    ensures ParseYaml(BodyText(lines)) == Success(Says(v))
  {
    hide SplitLines, BodyText, Rendered, ParseBlock;
  }

  // ----- Which documents reach the YAML loader -----

  ghost predicate ColonAfterFirst(lines: seq<Line>) {
    exists k :: 1 <= k < |lines| && ':' in lines[k].content
  }

  lemma {:induction false} ColonOnLine(line: string, rest: string, onLine: bool)
    requires NoBreaks(line)
    ensures LaterColon(line + rest, onLine) == ((onLine && ':' in line) || LaterColon(rest, onLine))
  {
    if line == [] {
      assert line + rest == rest;
    } else {
      var text := line + rest;
      assert text[0] == line[0] && text[1..] == line[1..] + rest;
      ColonOnLine(line[1..], rest, onLine);
      assert ':' in line <==> line[0] == ':' || ':' in line[1..];
    }
  }

  lemma RenderedColon(line: Line)
    requires NoBreaks(line.content)
    ensures NoBreaks(Render(line)) && (':' in Render(line) <==> ':' in line.content)
  {
    assert Render(line) == Spaces(line.indent) + line.content;
  }

  ghost predicate UnbrokenLines(lines: seq<Line>) {
    forall k :: 0 <= k < |lines| ==> NoBreaks(lines[k].content)
  }

  lemma {:induction false} ColonInBody(lines: seq<Line>, onLine: bool)
    requires lines != [] && UnbrokenLines(lines)
    ensures LaterColon(BodyText(lines), onLine)
       <==> (onLine && ':' in lines[0].content) || ColonAfterFirst(lines)
  {
    hide NoBreaks, Render, LaterColon;
    var line := Render(lines[0]);
    RenderedColon(lines[0]);
    if |lines| == 1 {
      ColonOnLine(line, "", onLine);
      assert line + "" == line;
      NoColonInNothing(onLine);
    } else {
      var rest := BodyText(lines[1..]);
      ColonInBody(lines[1..], true);
      ColonOnLine(line, "\n" + rest, onLine);
      BreakOpensLine(rest, onLine);
      assert line + "\n" + rest == line + ("\n" + rest);
      ColonAfterSecond(lines);
    }
  }

  lemma NoColonInNothing(onLine: bool)
    ensures !LaterColon("", onLine)
  {
  }

  lemma BreakOpensLine(rest: string, onLine: bool)
    ensures LaterColon("\n" + rest, onLine) == LaterColon(rest, true)
  {
    assert ("\n" + rest)[1..] == rest;
  }

  lemma ColonAfterSecond(lines: seq<Line>)
    requires |lines| > 1
    ensures ColonAfterFirst(lines) <==> ':' in lines[1].content || ColonAfterFirst(lines[1..])
  {
    if ColonAfterFirst(lines) {
      var k :| 1 <= k < |lines| && ':' in lines[k].content;
      assert k > 1 ==> lines[1..][k - 1] == lines[k];
    }
    if ColonAfterFirst(lines[1..]) {
      var k :| 1 <= k < |lines[1..]| && ':' in lines[1..][k].content;
      assert lines[k + 1] == lines[1..][k];
    }
  }

  /** How a canonical document starts: with a key and its colon, or with a dash and a space. */
  predicate StartsLike(t: string, v: Value) {
    match v
    case Map(entries) =>
      entries != [] && PlainKey(entries[0].key) && entries[0].key + ":" <= t
    case _ => "- " <= t
  }

  lemma DocumentStart(v: Value)
    requires CommonTree(v) && v.IsCollection()
    ensures StartsLike(BodyText(Block(v, 0)), v)
  {
    hide PlainKey;
    CommonCollection(v, 0);
    PyRoundTrip.BlockStart(v, 0);
    BodyStart(Block(v, 0));
    if v.Map? {
      MapParts(v.entries);
      EntryParts(v.entries);
      MapLinesSplit(v.entries, 0);
      EntryLineStart(v.entries[0]);
    } else {
      ItemParts(v.items);
      SeqLinesSplit(v.items, 0);
      CommonItemLines(v.items[0], 0);
    }
  }

  lemma EntryLineStart(e: Entry)
    requires CommonKey(e.key)
    ensures PlainKey(e.key) && e.key + ":" <= KeyText(e)
  {
    hide PlainKey;
  }

  /** No canonical document of the common sublanguage is JSON: in a mapping the first colon ends a key, which
      has no quote, and a sequence starts with a minus sign that no digit follows. */
  lemma CanonicalIsNotJson(t: string, v: Value)
    requires v.IsCollection() && StartsLike(t, v)
    ensures !Json.IsJson(t)
  {
    hide Json.IsJson;
    if Json.IsJson(t) {
      if v.Map? {
        KeyHasNoQuote(t, v.entries[0].key);
        Json.QuoteBeforeColon(t, |v.entries[0].key|);
      } else {
        Json.DigitAfterMinus(t);
      }
    }
  }

  lemma KeyHasNoQuote(t: string, key: string)
    requires PlainKey(key) && key + ":" <= t
    ensures |key| < |t| && t[|key|] == ':' && '"' !in t[..|key|]
  {
    assert t[..|key|] == key && (key + ":")[|key|] == ':';
    assert forall i :: 0 <= i < |key| ==> PlainKeyChar(key[i]);
  }

  lemma BodyStart(lines: seq<Line>)
    requires lines != [] && lines[0].indent == 0
    ensures lines[0].content <= BodyText(lines)
  {
    assert Spaces(0) + lines[0].content == lines[0].content;
  }

  /** Whether `loadOpenApiSpec` takes the canonical document for YAML: its first character opens no JSON
      document, and the file name or a colon after the first line speaks for YAML. */
  ghost predicate TakenForYaml(v: Value, filename: string)
    requires Print(v) != []
  {
    && Print(v)[0] !in {'{', '['}
    && (NamesYaml(filename) || ColonAfterFirst(Block(v, 0)))
  }

  lemma DocumentBody(v: Value)
    requires CommonTree(v) && v.IsCollection()
    ensures var t := BodyText(Block(v, 0));
            && t != "" && Trim(WithoutMark(Print(v)), IsJsSpace) == t
            && Print(v) != [] && Print(v)[0] == t[0] && WithoutMark(Print(v)) == Print(v)
  {
    hide CleanContent, Clean, Trim, BodyText, Block, CommonTree, CleanContent;
    var lines := Block(v, 0);
    DocumentLines(v);
    PrintableBlock(v);
    BodyEnds(lines);
    FirstChar(lines);
    var t := BodyText(lines);
    assert (t + "\n")[0] == t[0];
    TrimDropsBreak(t);
  }

  lemma PrintableBlock(v: Value)
    requires CommonTree(v) && v.IsCollection()
    ensures Block(v, 0) != [] && Block(v, 0)[0].indent == 0 && UnbrokenLines(Block(v, 0))
  {
    PyRoundTrip.BlockStart(v, 0);
    PyRoundTrip.BlockClean(v, 0);
  }

  /** The loader that the repository exports, on every print of a tree of the common sublanguage and for every
      file name: it gives what the print says when it takes the document for YAML, and fails otherwise. */
  lemma LoadInvertsPrint(v: Value, filename: string)
    requires Printable(v) && Common(v) && v.IsCollection()
    ensures Print(v) != []
    ensures LoadOpenApiSpec(Print(v), filename)
         == if TakenForYaml(v, filename) then Success(Says(v)) else Failure(NotJson)
  {
    hide Printable, Common, Print, ParseYaml, Trim, WithoutMark, BodyText, StartsLike, LaterColon, NamesYaml, Block,
         ColonAfterFirst, Json.IsJson, Says;
    var t := BodyText(Block(v, 0));
    DocumentBody(v);
    YamlInvertsPrint(v);
    DocumentStart(v);
    CanonicalIsNotJson(t, v);
    PrintableBlock(v);
    ColonInBody(Block(v, 0), false);
  }

  // ----- Where the two parsers agree -----

  /** Both parsers read the spelling alike: no capitalised word, no fraction, no integer beyond 53 bits. */
  ghost predicate ReadAlike(t: string) {
    SingleQuoted(t)
    || (&& t !in {"Null", "NULL", "True", "TRUE", "False", "FALSE"}
        && !SpellsDecimal(t)
        && (IsIntText(t) ==> -0x1F_FFFF_FFFF_FFFF <= IntValue(t) <= 0x1F_FFFF_FFFF_FFFF))
  }

  ghost predicate AllReadAlike(v: Value)
    decreases v
  {
    match v
    case Spelt(text) => ReadAlike(text)
    case Seq(items) => forall i :: 0 <= i < |items| ==> AllReadAlike(items[i])
    case Map(entries) => forall i :: 0 <= i < |entries| ==> AllReadAlike(entries[i].value)
    case _ => true
  }

  lemma IntIsNoDecimal(t: string)
    requires IsIntText(t)
    ensures !SpellsDecimal(t)
  {
    var digits := if t[0] == '-' then t[1..] else t;
    forall k ensures !DotAt(t, k) {
      assert 0 <= k < |t| ==> t[k] == if t[0] != '-' then digits[k] else if k == 0 then '-' else digits[k - 1];
    }
  }

  lemma ReadingsAgree(t: string)
    ensures ScriptReading(t) == PyRoundTrip.CoreReading(t) <==> ReadAlike(t)
  {
    hide SpellsDecimal, IsIntText;
    if IsIntText(t) {
      IntIsNoDecimal(t);
      IntIsNoWord(t);
    } else if t in {"Null", "NULL", "True", "TRUE", "False", "FALSE", "null", "~", "true", "false"} {
      WordIsNoDecimal(t);
    }
  }

  lemma IntIsNoWord(t: string)
    requires IsIntText(t)
    ensures t !in {"Null", "NULL", "True", "TRUE", "False", "FALSE", "null", "~", "true", "false"} && !SingleQuoted(t)
  {
    assert t[0] == '-' || IsDigit(t[0]);
  }

  lemma WordIsNoDecimal(t: string)
    requires t in {"Null", "NULL", "True", "TRUE", "False", "FALSE", "null", "~", "true", "false"}
    ensures !SpellsDecimal(t)
  {
    assert '.' !in t;
  }

  lemma {:induction false} MeaningsAgree(v: Value)
    ensures Says(v) == PyRoundTrip.Means(v) <==> AllReadAlike(v)
    decreases v, 1
  {
    hide ReadAlike;
    match v
    case Spelt(text) => ReadingsAgree(text);
    case Seq(items) => ItemMeaningsAgree(items);
    case Map(entries) => EntryMeaningsAgree(entries);
    case _ =>
  }

  lemma {:induction false} ItemMeaningsAgree(items: seq<Value>)
    ensures SaysAll(items) == PyRoundTrip.MeansAll(items) <==> forall i :: 0 <= i < |items| ==> AllReadAlike(items[i])
    decreases items, 0
  {
    hide AllReadAlike;
    if items != [] {
      var rest := items[1..];
      MeaningsAgree(items[0]);
      ItemMeaningsAgree(rest);
      FirstItemSays(items);
      PyRoundTrip.FirstItemMeans(items);
      FirstOrRest(SaysAll(items), PyRoundTrip.MeansAll(items));
      assert forall i :: 1 <= i < |items| ==> items[i] == rest[i - 1];
      assert (forall i :: 0 <= i < |rest| ==> AllReadAlike(rest[i]))
        <==> forall i :: 1 <= i < |items| ==> AllReadAlike(items[i]);
    }
  }

  lemma FirstOrRest<T>(a: seq<T>, b: seq<T>)
    requires a != [] && |a| == |b|
    ensures a == b <==> a[0] == b[0] && a[1..] == b[1..]
  {
    assert a == [a[0]] + a[1..] && b == [b[0]] + b[1..];
  }

  lemma {:induction false} EntryMeaningsAgree(entries: seq<Entry>)
    ensures SaysEntries(entries) == PyRoundTrip.MeansEntries(entries)
       <==> forall i :: 0 <= i < |entries| ==> AllReadAlike(entries[i].value)
    decreases entries, 0
  {
    hide AllReadAlike;
    if entries != [] {
      var rest := entries[1..];
      MeaningsAgree(entries[0].value);
      EntryMeaningsAgree(rest);
      FirstSays(entries);
      PyRoundTrip.FirstMeans(entries);
      FirstOrRest(SaysEntries(entries), PyRoundTrip.MeansEntries(entries));
      assert forall i :: 1 <= i < |entries| ==> entries[i] == rest[i - 1];
      assert (forall i :: 0 <= i < |rest| ==> AllReadAlike(rest[i].value))
        <==> forall i :: 1 <= i < |entries| ==> AllReadAlike(entries[i].value);
    }
  }

  /** Main result: on every print of a tree of the common sublanguage the parser of the manifest checks and the
      loader of the SDK generator give the same tree, exactly when the loader takes the document for YAML and
      no scalar is spelt in a way that they read differently. It is taken for YAML when it starts with neither
      brace nor bracket, and the file name ends in `.yaml` or `.yml` or some line after the first holds a
      colon. */
  lemma LoadersAgree(v: Value, filename: string)
    requires Printable(v) && Common(v) && v.IsCollection()
    ensures Py.ParseDocument(Print(v)).Success? && Print(v) != []
    ensures var tree := Py.ParseDocument(Print(v)).value;
            LoadOpenApiSpec(Print(v), filename) == Success(tree) <==> TakenForYaml(v, filename) && AllReadAlike(v)
  {
    hide *;
    LoadInvertsPrint(v, filename);
    PyRoundTrip.ParseInvertsPrint(v);
    MeaningsAgree(v);
  }

  const BRACE_KEY := Map([Entry("{a", Null)])

  /** An input on which they differ: a key that starts with a brace, under any file name. */
  lemma BraceKeyIsRejected(filename: string)
    ensures Print(BRACE_KEY) == "{a: null\n"
    ensures Py.ParseDocument(Print(BRACE_KEY)) == Success(BRACE_KEY)
    ensures LoadOpenApiSpec(Print(BRACE_KEY), filename) == Failure(NotJson)
  {
    hide LoadOpenApiSpec, Says, Print, Py.ParseDocument, ColonAfterFirst, NamesYaml;
    BraceKeyPrint();
    assert Printable(BRACE_KEY) && Common(BRACE_KEY) && Unspelt(BRACE_KEY);
    LoadInvertsPrint(BRACE_KEY, filename);
    PyRoundTrip.ParseInvertsPrint(BRACE_KEY);
  }

  lemma BraceKeyPrint()
    ensures Print(BRACE_KEY) == "{a: null\n"
  {
    var e, line := Entry("{a", Null), Line(0, "{a: null");
    assert "{a" + ": " + "null" == "{a: null";
    assert EntryLines(e, 0) == [line];
    assert BRACE_KEY.entries == [e] && [e][1..] == [];
    assert Block(BRACE_KEY, 0) == EntryLines(e, 0) + MapLines([], 0) == [line];
    OneLine(line);
  }

  lemma OneLine(line: Line)
    requires line.indent == 0
    ensures JoinLines([line]) == line.content + "\n"
  {
    assert Render(line) == Spaces(0) + line.content == line.content;
    assert [line][1..] == [];
  }
}
