/** Parsing the canonical print of a tree with the parser of `scripts/check-k8s.py` gives the tree back. */
module K8sYamlRoundTrip {
  import opened Wrappers
  import opened Text
  import opened YamlTree
  import opened YamlLines
  import opened K8sYaml

  // ----- Escapes -----

  /** What each of the four replacements looks for after a backslash, and what it puts there. */
  function Pass(k: nat): (char, string)
    requires k < 4
  {
    if k == 0 then ('\\', "\0") else if k == 1 then ('n', "\n") else if k == 2 then ('t', "\t") else ('"', "\"")
  }

  /** The text of one escaped character after the first `passes` replacements. */
  function Unit(c: char, passes: nat): string {
    if c == '\\' && passes >= 1 then "\0"
    else if c == '\n' && passes >= 2 then "\n"
    else if c == '\t' && passes >= 3 then "\t"
    else if c == '"' && passes >= 4 then "\""
    else EscapeChar(c)
  }

  function PartlyUnescaped(s: string, passes: nat): string {
    if s == [] then [] else Unit(s[0], passes) + PartlyUnescaped(s[1..], passes)
  }

  lemma {:induction false} EscapeIsPassZero(s: string)
    ensures Escape(s) == PartlyUnescaped(s, 0)
  {
    if s != [] {
      EscapeIsPassZero(s[1..]);
    }
  }

  /** One `replace` of a two-character escape undoes exactly the units of that escape. */
  lemma {:induction false} ReplacePass(s: string, passes: nat)
    requires passes < 4
    ensures ReplacePair(PartlyUnescaped(s, passes), '\\', Pass(passes).0, Pass(passes).1)
         == PartlyUnescaped(s, passes + 1)
  {
    hide ReplacePair, Pass, Unit;
    if s == [] {
      ReplaceNothing('\\', Pass(passes).0, Pass(passes).1);
    } else {
      ReplacePass(s[1..], passes);
      UnitPass(s[0], passes, PartlyUnescaped(s[1..], passes));
    }
  }

  lemma ReplaceNothing(a: char, b: char, with: string)
    ensures ReplacePair("", a, b, with) == ""
  {
  }

  lemma UnitPass(c: char, passes: nat, rest: string)
    requires passes < 4
    ensures var (b, with) := Pass(passes);
            ReplacePair(Unit(c, passes) + rest, '\\', b, with) == Unit(c, passes + 1) + ReplacePair(rest, '\\', b, with)
  {
    var (b, with) := Pass(passes);
    ReplaceUnit(Unit(c, passes), rest, b, with);
  }

  lemma ReplaceUnit(unit: string, rest: string, b: char, with: string)
    requires (|unit| == 1 && unit[0] != '\\') || (|unit| == 2 && unit[0] == '\\')
    requires |unit| == 2 && unit[1] != b ==> unit[1] != '\\'
    ensures ReplacePair(unit + rest, '\\', b, with) ==
            (if |unit| == 2 && unit[1] == b then with else unit) + ReplacePair(rest, '\\', b, with)
  {
    assert (unit + rest)[|unit|..] == rest;
    if |unit| == 2 && unit[1] != b {
      assert (unit + rest)[1..] == [unit[1]] + rest;
      assert ([unit[1]] + rest)[1..] == rest;
      assert unit == [unit[0]] + [unit[1]];
    }
  }

  lemma {:induction false} RestorePlaceholder(s: string)
    requires '\0' !in s
    ensures ReplaceChar(PartlyUnescaped(s, 4), '\0', "\\") == s
  {
    if s != [] {
      RestorePlaceholder(s[1..]);
      assert s == [s[0]] + s[1..];
    }
  }

  /** The chain of replacements through the NUL placeholder inverts the one-pass escape. */
  lemma UnescapeInvertsEscape(s: string)
    requires '\0' !in s
    ensures Unescape(Escape(s)) == s
  {
    EscapeIsPassZero(s);
    ReplacePass(s, 0);
    ReplacePass(s, 1);
    ReplacePass(s, 2);
    ReplacePass(s, 3);
    RestorePlaceholder(s);
  }

  // ----- What spelt scalars are -----

  /** The core schema of YAML 1.2.2, section 10.3.2, with decimal integers only; between single quotes a text
      stands for itself. */
  function CoreReading(t: string): Value {
    if SingleQuoted(t) then Str(t[1..|t| - 1])
    else if t == "null" || t == "Null" || t == "NULL" || t == "~" then Null
    else if t == "true" || t == "True" || t == "TRUE" then Bool(true)
    else if t == "false" || t == "False" || t == "FALSE" then Bool(false)
    else if IsIntText(t) then Int(IntValue(t))
    else Str(t)
  }

  function Means(v: Value): Value {
    Meaning(v, CoreReading)
  }

  // ----- Comment stripping -----

  lemma {:induction false} ScanBland(s: string, rest: string)
    requires Bland(s)
    ensures CommentStart(s + rest, Plain) == |s| + CommentStart(rest, Plain)
  {
    if s == [] {
      assert s + rest == rest;
    } else {
      assert (s + rest)[1..] == s[1..] + rest;
      ScanBland(s[1..], rest);
    }
  }

  /** Nothing between the quotes is taken for a comment or a closing quote. */
  lemma {:induction false} ScanEscaped(s: string, rest: string)
    ensures CommentStart(Escape(s) + rest, Double) == |Escape(s)| + CommentStart(rest, Double)
  {
    if s == [] {
      assert Escape(s) + rest == rest;
    } else {
      var unit := EscapeChar(s[0]);
      var tail := Escape(s[1..]) + rest;
      assert Escape(s) + rest == unit + tail;
      ScanEscaped(s[1..], rest);
      ScanEscapeUnit(s[0], tail);
    }
  }

  lemma ScanEscapeUnit(c: char, tail: string)
    ensures CommentStart(EscapeChar(c) + tail, Double) == |EscapeChar(c)| + CommentStart(tail, Double)
  {
    var unit := EscapeChar(c);
    var line := unit + tail;
    if |unit| == 2 {
      assert line[1..][1..] == tail;
      assert CommentStart(line, Double) == 1 + CommentStart(line[1..], Escaped);
    } else {
      assert line[1..] == tail;
    }
  }

  lemma ScanQuoted(s: string, rest: string)
    ensures CommentStart(Quoted(s) + rest, Plain) == |Quoted(s)| + CommentStart(rest, Plain)
  {
    var q := Quoted(s);
    assert (q + rest)[1..] == Escape(s) + ("\"" + rest);
    ScanEscaped(s, "\"" + rest);
    assert ("\"" + rest)[1..] == rest;
    assert CommentStart("\"" + rest, Double) == 1 + CommentStart(rest, Plain);
  }

  /** Between single quotes nothing but a single quote matters. */
  lemma {:induction false} ScanSingle(s: string, rest: string)
    requires forall i :: 0 <= i < |s| ==> s[i] != '\''
    ensures CommentStart(s + rest, Single) == |s| + CommentStart(rest, Single)
  {
    if s == [] {
      assert s + rest == rest;
    } else {
      assert (s + rest)[1..] == s[1..] + rest;
      ScanSingle(s[1..], rest);
    }
  }

  lemma ScanSingleQuoted(t: string, rest: string)
    requires SingleQuoted(t)
    ensures CommentStart(t + rest, Plain) == |t| + CommentStart(rest, Plain)
  {
    var inner := t[1..|t| - 1];
    assert (t + rest)[1..] == inner + ("'" + rest);
    ScanSingle(inner, "'" + rest);
    assert ("'" + rest)[1..] == rest;
    assert CommentStart("'" + rest, Single) == 1 + CommentStart(rest, Plain);
  }

  /** A text that a scan passes through from outside quotes to outside quotes. */
  ghost predicate Neutral(t: string) {
    Bland(t) || SingleQuoted(t) || exists s :: t == Quoted(s)
  }

  lemma ScanNeutral(t: string, rest: string)
    requires Neutral(t)
    ensures CommentStart(t + rest, Plain) == |t| + CommentStart(rest, Plain)
  {
    hide Bland, SingleQuoted, CommentStart, Quoted;
    if Bland(t) {
      ScanBland(t, rest);
    } else if SingleQuoted(t) {
      ScanSingleQuoted(t, rest);
    } else {
      var s :| t == Quoted(s);
      ScanQuoted(s, rest);
    }
  }

  /** What may follow on a line: blanks, and from a `#` on a comment. */
  predicate Tail(s: string) {
    s == "" || (s[0] == '#' && NoBreaks(s)) || ((s[0] == ' ' || s[0] == '\t') && Tail(s[1..]))
  }

  lemma {:induction false} TailIsCut(s: string)
    requires Tail(s)
    ensures NoBreaks(s)
    ensures forall i :: 0 <= i < CommentStart(s, Plain) ==> s[i] == ' ' || s[i] == '\t'
  {
    if s != "" && s[0] != '#' {
      TailIsCut(s[1..]);
      assert s == [s[0]] + s[1..];
    }
  }

  lemma {:induction false} TrimRightBlanks(text: string, blanks: string)
    requires text == "" || !IsPySpace(text[|text| - 1])
    requires forall i :: 0 <= i < |blanks| ==> blanks[i] == ' ' || blanks[i] == '\t'
    ensures TrimRight(text + blanks, IsPySpace) == text
    decreases |blanks|
  {
    var all := text + blanks;
    if blanks == "" {
      assert all == text;
    } else {
      assert all[..|all| - 1] == text + blanks[..|blanks| - 1];
      TrimRightBlanks(text, blanks[..|blanks| - 1]);
    }
  }

  /** A line of bland text that may end in a quoted text loses the comment behind it, if there is one, and
      nothing else. */
  lemma StripKeeps(prefix: string, last: string, tail: string)
    requires Bland(prefix) && Neutral(last) && last != [] && !IsPySpace(last[|last| - 1]) && Tail(tail)
    ensures StripInlineComment(prefix + last + tail) == prefix + last
  {
    hide Bland, CommentStart, Neutral, IsPySpace, TrimRight, Tail;
    var line := prefix + last + tail;
    assert line == prefix + (last + tail);
    ScanBland(prefix, last + tail);
    ScanNeutral(last, tail);
    TailIsCut(tail);
    var k := CommentStart(tail, Plain);
    assert line[..|prefix + last| + k] == (prefix + last) + tail[..k];
    TrimRightBlanks(prefix + last, tail[..k]);
  }

  /** A line of blanks and a comment is blank. */
  lemma TailIsBlank(tail: string)
    requires Tail(tail)
    ensures Trim(StripInlineComment(tail), IsPySpace) == ""
  {
    hide CommentStart, Tail;
    TailIsCut(tail);
    var k := CommentStart(tail, Plain);
    assert tail[..k] == "" + tail[..k];
    TrimRightBlanks("", tail[..k]);
  }

  // ----- Scalars -----

  predicate PrintableScalar(v: Value) {
    match v
    case Null => true
    case Bool(_) => true
    case Int(_) => true
    case Str(s) => PrintableText(s)
    case Spelt(text) => Unquoted(text) || SingleQuoted(text)
    case _ => false
  }

  lemma {:induction false} EscapeHasNoBreak(s: string)
    requires PrintableText(s)
    ensures forall i :: 0 <= i < |Escape(s)| ==> !IsLineBreak(Escape(s)[i])
  {
    if s != [] {
      EscapeHasNoBreak(s[1..]);
    }
  }

  /** The shape of the text of a scalar that the row lemmas rely on. */
  lemma QuotedShape(s: string)
    requires PrintableText(s)
    ensures var t := Quoted(s);
            && |t| >= 2 && t[0] == '"' && t[|t| - 1] == '"'
            && forall i :: 0 <= i < |t| ==> !IsLineBreak(t[i])
  {
    var t := Quoted(s);
    EscapeHasNoBreak(s);
    assert t[|t| - 1] == '"';
    assert forall i :: 1 <= i < |t| - 1 ==> t[i] == Escape(s)[i - 1];
  }

  lemma ScalarShape(v: Value)
    requires PrintableScalar(v)
    ensures var t := ScalarText(v);
            && t != [] && !IsPySpace(t[0]) && !IsPySpace(t[|t| - 1])
            && Neutral(t) && NoBreaks(t)
  {
    match v
    case Str(s) => QuotedShape(s);
    case Int(n) => IntShape(n);
    case _ =>
  }

  lemma ParseScalarOfQuoted(s: string)
    requires PrintableText(s)
    ensures ParseScalar(Quoted(s)) == Str(s)
  {
    hide Unescape, Escape, Trim, IsIntText, PrintableText;
    var t := Quoted(s);
    TrimKeeps(t, IsPySpace);
    QuotedParts(s);
    HasNoNul(s);
    UnescapeInvertsEscape(s);
  }

  lemma QuotedParts(s: string)
    ensures var t := Quoted(s); |t| >= 2 && t[0] == '"' && t[|t| - 1] == '"' && t[1..|t| - 1] == Escape(s)
  {
    hide Escape;
  }

  lemma HasNoNul(s: string)
    requires PrintableText(s)
    ensures '\0' !in s
  {
  }

  lemma ParseScalarOfInt(n: int)
    ensures ParseScalar(IntText(n)) == Int(n)
  {
    hide IntText, IsIntText, IntValue, Trim, Unescape;
    var t := IntText(n);
    IntShape(n);
    IntIsNoWord(t);
    TrimKeeps(t, IsPySpace);
    IntTextValue(n);
  }

  lemma IntIsNoWord(t: string)
    requires t != [] && forall i :: 0 <= i < |t| ==> t[i] == '-' || IsDigit(t[i])
    ensures t !in {"", "null", "~", "Null", "NULL"}
    ensures t !in {"true", "True", "TRUE"} && t !in {"false", "False", "FALSE"}
    ensures t[0] !in {'"', '\''} && !IsPySpace(t[0]) && !IsPySpace(t[|t| - 1])
  {
    assert t[0] == '-' || IsDigit(t[0]);
    assert t[|t| - 1] == '-' || IsDigit(t[|t| - 1]);
  }

  /** Every way to write a scalar is read as the core schema says. */
  lemma ParseScalarOfSpelt(t: string)
    requires Unquoted(t) || SingleQuoted(t)
    ensures ParseScalar(t) == CoreReading(t)
  {
    hide Unescape, IsIntText;
    TrimKeeps(t, IsPySpace);
    if SingleQuoted(t) {
      assert t[0] == '\'';
    } else {
      assert t[0] !in {'"', '\'', '#'};
    }
  }

  lemma ParseScalarInverts(v: Value)
    requires PrintableScalar(v)
    ensures ParseScalar(ScalarText(v)) == Means(v)
  {
    match v
    case Str(s) => ParseScalarOfQuoted(s);
    case Int(n) => ParseScalarOfInt(n);
    case Spelt(t) => ParseScalarOfSpelt(t);
    case _ =>
      ScalarShape(v);
      TrimKeeps(ScalarText(v), IsPySpace);
  }

  // ----- Key lines -----

  lemma KeyIndex(key: string, rest: string)
    requires PlainKey(key)
    ensures IndexFrom(key + ":" + rest, ':', 0) == |key|
  {
    var line := key + ":" + rest;
    assert line[|key|] == ':';
    assert forall i :: 0 <= i < |key| ==> line[i] == key[i];
  }

  lemma SplitKeyInverts(key: string, rest: string)
    requires PlainKey(key)
    ensures SplitKey(key + ":" + rest) == Success((key, rest))
    ensures !IsDashed(key + ":" + rest) && ':' in key + ":" + rest
  {
    var line := key + ":" + rest;
    KeyIndex(key, rest);
    assert line[|key|] == ':';
    assert line[0] == key[0];
    assert line[..|key|] == key && line[|key| + 1..] == rest;
  }

  lemma {:induction false} TrimRightNonempty(s: string, space: char -> bool)
    requires s != [] && !space(s[0])
    ensures TrimRight(s, space) != []
  {
    if space(s[|s| - 1]) {
      TrimRightNonempty(s[..|s| - 1], space);
    }
  }

  /** What follows a dash is read as the first key of a mapping exactly as it was printed. */
  lemma KeyLooksLikeMapEntry(key: string, rest: string)
    requires PlainKey(key)
    requires rest == "" || " " <= rest
    ensures LooksLikeMapEntry(key + ":" + rest)
  {
    var item := key + ":" + rest;
    KeyIndex(key, rest);
    assert item[0] == key[0];
    assert item[..|key|] == key;
    TrimRightNonempty(key, IsPySpace);
    if rest == "" {
      assert item[|item| - 1] == ':';
      TrimKeeps(item, IsPySpace);
    } else {
      assert item[|key|..] == ":" + rest;
      IndexOfStringBound(item, ": ", |key|);
    }
  }

  lemma NoColonSpace(t: string)
    requires NoEntry(t)
    ensures !Contains(t, ": ")
  {
    forall k | 0 <= k < |t| ensures !(": " <= t[k..]) {
      assert t[k..][0] == t[k] && (k + 1 < |t| ==> t[k..][1] == t[k + 1]);
    }
  }

  lemma SpeltIsNoMapEntry(t: string)
    requires Unquoted(t) || SingleQuoted(t)
    requires NoEntry(t)
    ensures !LooksLikeMapEntry(t)
  {
    hide Contains, Bland, NoBreaks, IndexFrom, Trim, TrimRight;
    NoColonSpace(t);
    if Unquoted(t) {
      TrimKeeps(t, IsPySpace);
      assert t[|t| - 1..] == [t[|t| - 1]];
    }
  }

  lemma ScalarIsNoMapEntry(v: Value)
    requires PrintableScalar(v) && (v.Spelt? ==> NoEntry(v.text))
    ensures !LooksLikeMapEntry(ScalarText(v))
  {
    var t := ScalarText(v);
    if v.Spelt? {
      SpeltIsNoMapEntry(t);
    } else if !v.Str? {
      assert ':' !in t by {
        match v
        case Int(n) =>
          var digits := NatText(if n < 0 then -n else n);
          assert t == if n < 0 then "-" + digits else digits;
        case _ =>
      }
      ScalarShape(v);
      TrimKeeps(t, IsPySpace);
      assert forall i :: 0 <= i < |t| ==> t[i..][0] == t[i];
    }
  }

  // ----- Rows -----

  /** Every row shows a line. */
  function PageOf(rows: seq<Row>): (page: Page)
    ensures |page| == |rows|
    ensures forall k :: 0 <= k < |rows| ==> page[k] == Some(Line(rows[k].indent, rows[k].content))
  {
    seq(|rows|, k requires 0 <= k < |rows| => Some(Line(rows[k].indent, rows[k].content)))
  }

  lemma BlockStart(v: Value, n: nat)
    requires Printable(v) && v.IsCollection()
    ensures Block(v, n) != [] && Block(v, n)[0].indent == n
    ensures IsDashed(Block(v, n)[0].content) <==> v.Seq?
  {
    match v
    case Map(entries) =>
      assert Block(v, n) == EntryLines(entries[0], n) + MapLines(entries[1..], n);
      EntryStart(entries[0], n);
    case Seq(items) =>
      assert Block(v, n) == ItemLines(items[0], n) + SeqLines(items[1..], n);
      ItemStart(items[0], n);
  }

  lemma EntryStart(e: Entry, n: nat)
    requires PlainKey(e.key)
    ensures EntryLines(e, n) != [] && EntryLines(e, n)[0].indent == n && !IsDashed(EntryLines(e, n)[0].content)
  {
    hide *;
    EntryLinesSplit(e, n);
    KeyTextSplits(e);
  }

  lemma ItemStart(v: Value, n: nat)
    requires Printable(v)
    ensures ItemLines(v, n) != [] && ItemLines(v, n)[0].indent == n && IsDashed(ItemLines(v, n)[0].content)
  {
    hide SeqLines, ScalarText;
    if v.Map? {
      var entries := v.entries;
      assert MapLines(entries, n + 2) == EntryLines(entries[0], n + 2) + MapLines(entries[1..], n + 2);
      assert "- " <= "- " + MapLines(entries, n + 2)[0].content;
    } else if !v.Seq? {
      assert "- " <= "- " + ScalarText(v);
    }
  }

  // ----- One step of each loop -----

  lemma MapStep(rows: seq<Row>, i: nat, indent: nat, acc: seq<Entry>, e: Entry, rest: string, next: nat)
    requires i < |rows| && rows[i].indent == indent
    requires !IsDashed(rows[i].content) && ':' in rows[i].content
    requires SplitKey(rows[i].content) == Success((e.key, rest))
    requires ParseEntryValue(rows, i, rest, indent, indent + 1) == Success((e.value, next))
    ensures i < next <= |rows|
    ensures ParseMap(rows, i, indent, acc) == ParseMap(rows, next, indent, Put(acc, e.key, e.value))
    ensures ParseItemRest(rows, i, indent, acc) == ParseItemRest(rows, next, indent, Put(acc, e.key, e.value))
  {
  }

  lemma MapItemStep(rows: seq<Row>, i: nat, indent: nat, item: string, e: Entry, rest: string, next: nat,
                    entries: seq<Entry>, end: nat)
    requires i < |rows| && rows[i].content == "- " + item && item != "" && LooksLikeMapEntry(item)
    requires SplitKey(item) == Success((e.key, rest))
    requires ParseEntryValue(rows, i, rest, indent, indent + 2) == Success((e.value, next))
    requires next <= |rows| && ParseItemRest(rows, next, indent + 2, [e]) == Success((entries, end))
    ensures IsDashed(rows[i].content)
    ensures ParseItem(rows, i, indent) == Success((Map(entries), end))
  {
    assert rows[i].content[2..] == item;
    assert e == Entry(e.key, e.value);
  }

  lemma SeqStep(rows: seq<Row>, i: nat, indent: nat, acc: seq<Value>, v: Value, next: nat)
    requires i < |rows| && rows[i].indent == indent && IsDashed(rows[i].content)
    requires ParseItem(rows, i, indent) == Success((v, next))
    ensures i < next <= |rows|
    ensures ParseSeq(rows, i, indent, acc) == ParseSeq(rows, next, indent, acc + [v])
  {
  }

  lemma BareDashStep(rows: seq<Row>, i: nat, indent: nat, v: Value, end: nat)
    requires i + 1 < |rows| && rows[i].content == "-"
    requires rows[i + 1].indent > indent && IsDashed(rows[i + 1].content)
    requires ParseSeq(rows, i + 1, rows[i + 1].indent, []) == Success((v, end))
    ensures ParseItem(rows, i, indent) == Success((v, end))
  {
    assert ParseValueBlock(rows, i + 1, indent + 1) == Success((v, end));
    assert ParseNested(rows, i, indent, indent + 1) == ParseValueBlock(rows, i + 1, indent + 1);
  }

  // ----- The parser on canonical rows -----

  lemma KeyTextSplits(e: Entry)
    requires PlainKey(e.key)
    ensures SplitKey(KeyText(e)) == Success((e.key, AfterColon(e.value)))
    ensures !IsDashed(KeyText(e)) && ':' in KeyText(e)
    ensures KeyText(e) != "" && LooksLikeMapEntry(KeyText(e))
  {
    SplitKeyInverts(e.key, AfterColon(e.value));
    KeyLooksLikeMapEntry(e.key, AfterColon(e.value));
  }

  /** The row after a mapping at column `n` is missing, indented less, or a dash row at that column. */
  predicate MapEnds(rows: seq<Row>, i: nat, n: nat) {
    Stops(PageOf(rows), i, n) || (i < |rows| && rows[i].indent == n && IsDashed(rows[i].content))
  }

  predicate SeqEnds(rows: seq<Row>, i: nat, n: nat) {
    Stops(PageOf(rows), i, n) || (i < |rows| && rows[i].indent == n && !IsDashed(rows[i].content))
  }

  predicate BlockEnds(rows: seq<Row>, i: nat, v: Value, n: nat) {
    if v.Map? then MapEnds(rows, i, n) else SeqEnds(rows, i, n)
  }

  lemma StoppedEnds(rows: seq<Row>, i: nat, v: Value, n: nat)
    requires Stops(PageOf(rows), i, n)
    ensures MapEnds(rows, i, n) && SeqEnds(rows, i, n) && BlockEnds(rows, i, v, n)
  {
  }

  lemma EndedStops(rows: seq<Row>, i: nat, n: nat)
    requires MapEnds(rows, i, n) || SeqEnds(rows, i, n)
    ensures Stops(PageOf(rows), i, n + 1)
  {
  }

  lemma EndOfBlock(rows: seq<Row>, i: nat, v: Value, n: nat)
    requires BlockEnds(rows, i, v, n)
    ensures if v.Map? then MapEnds(rows, i, n) else SeqEnds(rows, i, n)
  {
  }

  lemma {:induction false} BlockParses(rows: seq<Row>, i: nat, v: Value, n: nat, minIndent: nat)
    requires Printable(v) && v.IsCollection() && minIndent <= n
    requires At(PageOf(rows), i, Block(v, n)) && BlockEnds(rows, i + |Block(v, n)|, v, n)
    ensures ParseValueBlock(rows, i, minIndent) == Success((Means(v), i + |Block(v, n)|))
    decreases v, 1
  {
    hide *;
    MeansParts(v);
    CollectionLines(v, n);
    EndOfBlock(rows, i + |Block(v, n)|, v, n);
    BlockStart(v, n);
    AtLine(PageOf(rows), i, Block(v, n), 0);
    BlockStep(rows, i, minIndent);
    if v.Map? {
      PrintableMap(v.entries, CoreReading);
      AllMeans(v.entries);
      MapParses(rows, i, v.entries, n, []);
    } else {
      assert [] + MeansAll(v.items) == MeansAll(v.items);
      SeqParses(rows, i, v.items, n, []);
    }
  }

  function MeansAll(items: seq<Value>): seq<Value> {
    Meanings(items, CoreReading)
  }

  function MeansEntries(entries: seq<Entry>): seq<Entry> {
    EntryMeanings(entries, CoreReading)
  }

  lemma MeansParts(v: Value)
    ensures v.Map? ==> Means(v) == Map(MeansEntries(v.entries))
    ensures v.Seq? ==> Means(v) == Seq(MeansAll(v.items))
  {
    MeaningParts(v, CoreReading);
  }

  lemma FirstMeans(entries: seq<Entry>)
    requires entries != []
    ensures var all := MeansEntries(entries);
            && all != [] && all[0] == Entry(entries[0].key, Means(entries[0].value))
            && all[1..] == MeansEntries(entries[1..])
  {
    FirstMeaning(entries, CoreReading);
  }

  lemma FirstItemMeans(items: seq<Value>)
    requires items != []
    ensures MeansAll(items) == [Means(items[0])] + MeansAll(items[1..])
  {
    FirstItemMeaning(items, CoreReading);
  }

  lemma CollectionLines(v: Value, n: nat)
    requires Printable(v) && v.IsCollection()
    ensures (v.Map? && Block(v, n) == MapLines(v.entries, n))
            || (v.Seq? && Block(v, n) == SeqLines(v.items, n) && PrintableItems(v.items))
  {
  }

  lemma BlockStep(rows: seq<Row>, i: nat, minIndent: nat)
    requires i < |rows| && rows[i].indent >= minIndent
    ensures ParseValueBlock(rows, i, minIndent)
         == if IsDashed(rows[i].content) then ParseSeq(rows, i, rows[i].indent, [])
            else ParseMap(rows, i, rows[i].indent, [])
  {
    hide ParseSeq, ParseMap, IsDashed;
  }

  /** The value of an entry printed at column `n`, read from row `i`, which shows its key. */
  lemma {:induction false} ValueParses(rows: seq<Row>, i: nat, e: Entry, n: nat, indent: nat, minIndent: nat)
    requires Printable(e.value)
    requires i < |rows| && indent <= n && minIndent <= n + 2
    requires At(PageOf(rows), i + 1, Nested(e, n)) && Stops(PageOf(rows), i + 1 + |Nested(e, n)|, n + 2)
    ensures ParseEntryValue(rows, i, AfterColon(e.value), indent, minIndent)
         == Success((Means(e.value), i + 1 + |Nested(e, n)|))
    decreases e, 0
  {
    hide *;
    NestedCases(e, n);
    if e.value.IsCollection() {
      BlockStart(e.value, n + 2);
      AtLine(PageOf(rows), i + 1, Block(e.value, n + 2), 0);
      StoppedEnds(rows, i + 1 + |Nested(e, n)|, e.value, n + 2);
      BlockParses(rows, i + 1, e.value, n + 2, minIndent);
      NestedStep(rows, i, indent, minIndent);
    } else {
      ScalarValueParses(rows, i, e, indent, minIndent);
    }
  }

  lemma NestedCases(e: Entry, n: nat)
    requires Printable(e.value)
    ensures e.value.IsCollection() ==> Nested(e, n) == Block(e.value, n + 2) && AfterColon(e.value) == ""
    ensures !e.value.IsCollection() ==> Nested(e, n) == [] && PrintableScalar(e.value)
  {
  }

  lemma NestedStep(rows: seq<Row>, i: nat, indent: nat, minIndent: nat)
    requires i + 1 < |rows| && rows[i + 1].indent > indent
    ensures ParseEntryValue(rows, i, "", indent, minIndent) == ParseValueBlock(rows, i + 1, minIndent)
  {
    hide ParseValueBlock;
  }

  lemma ScalarValueParses(rows: seq<Row>, i: nat, e: Entry, indent: nat, minIndent: nat)
    requires i < |rows| && PrintableScalar(e.value)
    ensures ParseEntryValue(rows, i, AfterColon(e.value), indent, minIndent) == Success((Means(e.value), i + 1))
  {
    hide ParseScalar, ScalarText, ParseNested, Trim, Means, Neutral, NoBreaks;
    ScalarShape(e.value);
    TrimDropsSpace(ScalarText(e.value), IsPySpace);
    ParseScalarInverts(e.value);
  }

  lemma {:induction false} MapEnd(rows: seq<Row>, i: nat, n: nat, acc: seq<Entry>)
    requires MapEnds(rows, i + |MapLines([], n)|, n)
    ensures |MapLines([], n)| == 0 && PutAll(acc, MeansEntries([])) == acc
    ensures i <= |rows|
    ensures ParseMap(rows, i, n, acc) == Success((Map(acc), i)) && ParseItemRest(rows, i, n, acc) == Success((acc, i))
  {
  }

  lemma {:induction false} MapParses(rows: seq<Row>, i: nat, entries: seq<Entry>, n: nat, acc: seq<Entry>)
    requires PrintableEntries(entries)
    requires At(PageOf(rows), i, MapLines(entries, n)) && MapEnds(rows, i + |MapLines(entries, n)|, n)
    ensures ParseMap(rows, i, n, acc) == Success((Map(PutAll(acc, MeansEntries(entries))), i + |MapLines(entries, n)|))
    ensures ParseItemRest(rows, i, n, acc) == Success((PutAll(acc, MeansEntries(entries)), i + |MapLines(entries, n)|))
    decreases entries, 0
  {
    hide *;
    if entries == [] {
      MapEnd(rows, i, n, acc);
    } else {
      FirstMeans(entries);
      PutAllStep(acc, MeansEntries(entries));
      var e, rest := entries[0], entries[1..];
      var next := i + 1 + |Nested(e, n)|;
      PrintableParts(entries);
      EndedStops(rows, i + |MapLines(entries, n)|, n);
      FirstEntry(PageOf(rows), i, entries, n);
      StopsWithin(PageOf(rows), next, n + 1, n + 2);
      KeyTextSplits(e);
      ValueParses(rows, i, e, n, n, n + 1);
      MapStep(rows, i, n, acc, Entry(e.key, Means(e.value)), AfterColon(e.value), next);
      MapParses(rows, next, rest, n, Put(acc, e.key, Means(e.value)));
    }
  }

  /** A mapping that starts on the line of its dash. */
  lemma {:induction false} MapItemParses(rows: seq<Row>, i: nat, entries: seq<Entry>, n: nat)
    requires Printable(Map(entries))
    requires At(PageOf(rows), i, Dash(MapLines(entries, n + 2), n))
    requires Stops(PageOf(rows), i + |MapLines(entries, n + 2)|, n + 1)
    ensures i < |rows| && rows[i].indent == n && IsDashed(rows[i].content)
    ensures ParseItem(rows, i, n) == Success((Means(Map(entries)), i + |MapLines(entries, n + 2)|))
    decreases entries, 1
  {
    hide *;
    PrintableMap(entries, CoreReading);
    MeansParts(Map(entries));
    FirstMeans(entries);
    var all := MeansEntries(entries);
    var e, rest := entries[0], entries[1..];
    var next := i + 1 + |Nested(e, n + 2)|;
    PrintableParts(entries);
    MapItemLines(PageOf(rows), i, entries, n);
    StopsWithin(PageOf(rows), next, n + 3, n + 4);
    StopsWithin(PageOf(rows), next + |MapLines(rest, n + 2)|, n + 1, n + 2);
    ValueParses(rows, i, e, n + 2, n, n + 2);
    StoppedEnds(rows, next + |MapLines(rest, n + 2)|, Null, n + 2);
    MapParses(rows, next, rest, n + 2, [all[0]]);
    KeyTextSplits(e);
    AllMeans(entries);
    MapItemStep(rows, i, n, KeyText(e), all[0], AfterColon(e.value), next, all, next + |MapLines(rest, n + 2)|);
  }

  lemma AllMeans(entries: seq<Entry>)
    ensures MeansEntries(entries) == EntryMeanings(entries, CoreReading)
  {
  }

  /** A bare first key with a mapping below it, at the column of its siblings. */
  lemma {:induction false} BareKeyAboveEntries(rows: seq<Row>, i: nat, key: string, entries: seq<Entry>, n: nat)
    requires PlainKey(key) && Printable(Map(entries))
    requires At(PageOf(rows), i, [Line(n, "- " + (key + ":"))] + MapLines(entries, n + 2))
    requires Stops(PageOf(rows), i + 1 + |MapLines(entries, n + 2)|, n + 1)
    ensures i < |rows| && rows[i].indent == n && IsDashed(rows[i].content)
    ensures ParseItem(rows, i, n)
         == Success((Map([Entry(key, Means(Map(entries)))]), i + 1 + |MapLines(entries, n + 2)|))
  {
    hide *;
    var e, lines := Entry(key, Map(entries)), MapLines(entries, n + 2);
    var m := Entry(key, Means(e.value));
    var end := i + 1 + |lines|;
    AtCons(PageOf(rows), i, Line(n, "- " + (key + ":")), lines);
    BareKeyText(e);
    BareKeyNested(e, n);
    StopsWithin(PageOf(rows), end, n + 1, n + 2);
    ValueParses(rows, i, e, n, n, n + 2);
    ItemEnds(rows, end, n + 2, [m]);
    KeyTextSplits(e);
    MapItemStep(rows, i, n, KeyText(e), m, AfterColon(e.value), end, [m], end);
  }

  /** What a key without text of its own gets as its value: a row at column `n + 2` or deeper belongs to it. */
  lemma {:induction false} NestedNull(rows: seq<Row>, i: nat, n: nat)
    requires i < |rows|
    ensures var r := ParseEntryValue(rows, i, "", n, n + 2);
            if Stops(PageOf(rows), i + 1, n + 2) then r == Success((Null, i + 1))
            else r.Success? ==> r.value.1 > i + 1
  {
    hide ParseValueBlock;
    assert Trim("", IsPySpace) == "";
    if !Stops(PageOf(rows), i + 1, n + 2) {
      BlockTakesRow(rows, i + 1, n + 2);
    }
    EmptyBlock(rows, i + 1, n + 2);
  }

  lemma {:induction false} EmptyBlock(rows: seq<Row>, i: nat, minIndent: nat)
    requires i <= |rows|
    ensures Stops(PageOf(rows), i, minIndent) ==> ParseValueBlock(rows, i, minIndent) == Success((Null, i))
  {
    hide ParseMap, ParseSeq;
  }

  lemma BlockTakesRow(rows: seq<Row>, i: nat, minIndent: nat)
    requires i < |rows| && rows[i].indent >= minIndent
    ensures var r := ParseValueBlock(rows, i, minIndent); r.Success? ==> r.value.1 > i
  {
    hide SplitKey, ParseItem, ParseEntryValue;
  }

  /** An item that is a bare key reads as that key with null exactly when no row follows at the column of its
      siblings or deeper, whatever the rows that follow are. */
  lemma {:induction false} BareFirstKeyIsNull(rows: seq<Row>, i: nat, key: string, n: nat)
    requires PlainKey(key) && At(PageOf(rows), i, [Line(n, "- " + (key + ":"))])
    ensures i < |rows| && rows[i].indent == n && IsDashed(rows[i].content)
    ensures ParseItem(rows, i, n) == Success((Map([Entry(key, Null)]), i + 1)) <==> Stops(PageOf(rows), i + 1, n + 2)
  {
    hide *;
    var e, line := Entry(key, Map([])), Line(n, "- " + (key + ":"));
    assert [line] + [] == [line];
    AtCons(PageOf(rows), i, line, []);
    BareKeyText(e);
    KeyTextSplits(e);
    BareKeyAfter(e.value);
    NestedNull(rows, i, n);
    if Stops(PageOf(rows), i + 1, n + 2) {
      ItemEnds(rows, i + 1, n + 2, [Entry(key, Null)]);
      MapItemStep(rows, i, n, KeyText(e), Entry(key, Null), "", i + 1, [Entry(key, Null)], i + 1);
    } else {
      ItemGoesOn(rows, i, n, KeyText(e), key);
    }
  }

  lemma BareKeyAfter(v: Value)
    requires v.Map?
    ensures AfterColon(v) == ""
  {
  }

  /** The item ends behind the value of its first key. */
  lemma ItemGoesOn(rows: seq<Row>, i: nat, n: nat, item: string, key: string)
    requires i < |rows| && rows[i].content == "- " + item && item != "" && LooksLikeMapEntry(item)
    requires SplitKey(item) == Success((key, ""))
    ensures IsDashed(rows[i].content)
    ensures var (r, value) := (ParseItem(rows, i, n), ParseEntryValue(rows, i, "", n, n + 2));
            r.Success? ==> value.Success? && r.value.1 >= value.value.1
  {
    hide ParseEntryValue, ParseItemRest, LooksLikeMapEntry, SplitKey;
    assert rows[i].content[2..] == item;
  }

  /** Why the print spells out `null`: a list item whose first key has no text of its own takes the keys
      below it, which stand at the column of its siblings, as its value. So the key reads as null, followed by
      its siblings, exactly when there are none. */
  lemma {:induction false} BareFirstKeyTakesSiblings(rows: seq<Row>, i: nat, key: string, entries: seq<Entry>, n: nat)
    requires PlainKey(key) && (entries == [] || Printable(Map(entries)))
    requires At(PageOf(rows), i, [Line(n, "- " + (key + ":"))] + MapLines(entries, n + 2))
    requires Stops(PageOf(rows), i + 1 + |MapLines(entries, n + 2)|, n + 1)
    ensures i < |rows| && rows[i].indent == n && IsDashed(rows[i].content)
    ensures var (r, end) := (ParseItem(rows, i, n), i + 1 + |MapLines(entries, n + 2)|);
            && r == Success((Map([Entry(key, if entries == [] then Null else Means(Map(entries)))]), end))
            && (r == Success((Map([Entry(key, Null)] + MeansEntries(entries)), end)) <==> entries == [])
  {
    hide *;
    if entries == [] {
      NoEntryLines(n + 2);
      var line := Line(n, "- " + (key + ":"));
      assert [line] + [] == [line];
      StopsWithin(PageOf(rows), i + 1, n + 1, n + 2);
      BareFirstKeyIsNull(rows, i, key, n);
      NothingMeans();
      assert [Entry(key, Null)] + [] == [Entry(key, Null)];
    } else {
      MeansParts(Map(entries));
      assert ([Entry(key, Null)] + MeansEntries(entries))[0] == Entry(key, Null);
      BareKeyAboveEntries(rows, i, key, entries, n);
    }
  }

  lemma NothingMeans()
    ensures MeansEntries([]) == [] && MeansAll([]) == []
  {
  }

  lemma NoEntryLines(n: nat)
    ensures MapLines([], n) == []
  {
  }

  lemma {:induction false} ItemEnds(rows: seq<Row>, i: nat, keyIndent: nat, m: seq<Entry>)
    requires Stops(PageOf(rows), i, keyIndent)
    ensures ParseItemRest(rows, i, keyIndent, m) == Success((m, i))
  {
  }

  /** The dash line of a nested sequence and the first line of that sequence. */
  lemma {:induction false} SeqStart(rows: seq<Row>, i: nat, items: seq<Value>, n: nat)
    requires Printable(Seq(items))
    requires At(PageOf(rows), i, [Line(n, "-")] + SeqLines(items, n + 2))
    requires Stops(PageOf(rows), i + 1 + |SeqLines(items, n + 2)|, n + 1)
    ensures i + 1 < |rows| && rows[i].indent == n && rows[i].content == "-" && IsDashed(rows[i].content)
    ensures rows[i + 1].indent == n + 2 && IsDashed(rows[i + 1].content)
    ensures At(PageOf(rows), i + 1, SeqLines(items, n + 2))
    ensures Stops(PageOf(rows), i + 1 + |SeqLines(items, n + 2)|, n + 2)
    ensures PrintableItems(items)
  {
    var lines := SeqLines(items, n + 2);
    AtCons(PageOf(rows), i, Line(n, "-"), lines);
    BlockStart(Seq(items), n + 2);
    AtLine(PageOf(rows), i + 1, lines, 0);
  }

  lemma {:induction false} SeqItemParses(rows: seq<Row>, i: nat, items: seq<Value>, n: nat)
    requires Printable(Seq(items))
    requires At(PageOf(rows), i, [Line(n, "-")] + SeqLines(items, n + 2))
    requires Stops(PageOf(rows), i + 1 + |SeqLines(items, n + 2)|, n + 1)
    ensures i < |rows| && rows[i].indent == n && IsDashed(rows[i].content)
    ensures ParseItem(rows, i, n) == Success((Means(Seq(items)), i + 1 + |SeqLines(items, n + 2)|))
    decreases items, 1
  {
    hide *;
    SeqStart(rows, i, items, n);
    var lines := SeqLines(items, n + 2);
    MeansParts(Seq(items));
    assert [] + MeansAll(items) == MeansAll(items);
    StoppedEnds(rows, i + 1 + |lines|, Null, n + 2);
    SeqParses(rows, i + 1, items, n + 2, []);
    BareDashStep(rows, i, n, Seq(MeansAll(items)), i + 1 + |lines|);
  }

  lemma ScalarItemParses(rows: seq<Row>, i: nat, v: Value, n: nat)
    requires PrintableScalar(v) && (v.Spelt? ==> NoEntry(v.text))
    requires i < |rows| && rows[i].content == "- " + ScalarText(v)
    ensures IsDashed(rows[i].content)
    ensures ParseItem(rows, i, n) == Success((Means(v), i + 1))
  {
    hide Means, Neutral, NoBreaks, LooksLikeMapEntry, ParseScalar, ScalarText, NoEntry;
    assert rows[i].content[2..] == ScalarText(v);
    ScalarShape(v);
    ScalarIsNoMapEntry(v);
    ParseScalarInverts(v);
  }

  lemma {:induction false} ItemParses(rows: seq<Row>, i: nat, v: Value, n: nat)
    requires Printable(v) && (v.Spelt? ==> NoEntry(v.text))
    requires At(PageOf(rows), i, ItemLines(v, n)) && Stops(PageOf(rows), i + |ItemLines(v, n)|, n + 1)
    ensures i < |rows| && rows[i].indent == n && IsDashed(rows[i].content)
    ensures ParseItem(rows, i, n) == Success((Means(v), i + |ItemLines(v, n)|))
    decreases v, 0
  {
    hide *;
    ItemLinesCases(v, n);
    if v.Map? {
      MapItemParses(rows, i, v.entries, n);
    } else if v.Seq? {
      SeqItemParses(rows, i, v.items, n);
    } else {
      var line := Line(n, "- " + ScalarText(v));
      assert [line] + [] == [line];
      AtCons(PageOf(rows), i, line, []);
      ScalarItemParses(rows, i, v, n);
    }
  }

  lemma ItemLinesCases(v: Value, n: nat)
    requires Printable(v)
    ensures match v
            case Map(entries) =>
              ItemLines(v, n) == Dash(MapLines(entries, n + 2), n) && |ItemLines(v, n)| == |MapLines(entries, n + 2)|
            case Seq(items) => ItemLines(v, n) == [Line(n, "-")] + SeqLines(items, n + 2)
            case _ => ItemLines(v, n) == [Line(n, "- " + ScalarText(v))] && PrintableScalar(v)
  {
  }

  lemma {:induction false} SeqEnd(rows: seq<Row>, i: nat, n: nat, acc: seq<Value>)
    requires SeqEnds(rows, i + |SeqLines([], n)|, n)
    ensures |SeqLines([], n)| == 0 && acc + MeansAll([]) == acc
    ensures i <= |rows| && ParseSeq(rows, i, n, acc) == Success((Seq(acc), i))
  {
  }

  lemma {:induction false} SeqParses(rows: seq<Row>, i: nat, items: seq<Value>, n: nat, acc: seq<Value>)
    requires PrintableItems(items)
    requires At(PageOf(rows), i, SeqLines(items, n)) && SeqEnds(rows, i + |SeqLines(items, n)|, n)
    ensures ParseSeq(rows, i, n, acc) == Success((Seq(acc + MeansAll(items)), i + |SeqLines(items, n)|))
    decreases items, 0
  {
    hide *;
    if items == [] {
      SeqEnd(rows, i, n, acc);
    } else {
      var v, rest := items[0], items[1..];
      var next := i + |ItemLines(v, n)|;
      EndedStops(rows, i + |SeqLines(items, n)|, n);
      FirstItem(PageOf(rows), i, items, n);
      ItemParses(rows, i, v, n);
      SeqStep(rows, i, n, acc, Means(v), next);
      FirstItemMeans(items);
      assert (acc + [Means(v)]) + MeansAll(rest) == acc + ([Means(v)] + MeansAll(rest));
      SeqParses(rows, next, rest, n, acc + [Means(v)]);
    }
  }

  // ----- Quoted keys -----

  /** A key between quotes of one kind, blanks, the colon and the rest. */
  ghost predicate QuotedKeyLine(content: string, key: string, rest: string) {
    exists q, blanks :: QuotedKeyParts(content, q, key, blanks, rest)
  }

  predicate QuotedKeyParts(content: string, q: char, key: string, blanks: string, rest: string) {
    && (q == '"' || q == '\'') && q !in key && (forall i :: 0 <= i < |blanks| ==> IsPySpace(blanks[i]))
    && content == [q] + (key + ([q] + (blanks + (":" + rest))))
  }

  lemma {:induction false} TrimLeftBlanks(blanks: string, rest: string)
    requires forall i :: 0 <= i < |blanks| ==> IsPySpace(blanks[i])
    requires rest != "" && !IsPySpace(rest[0])
    ensures TrimLeft(blanks + rest, IsPySpace) == rest
  {
    if blanks == "" {
      assert blanks + rest == rest;
    } else {
      assert (blanks + rest)[1..] == blanks[1..] + rest;
      TrimLeftBlanks(blanks[1..], rest);
    }
  }

  lemma {:induction false} TrimLeftSplits(s: string) returns (blanks: string)
    ensures s == blanks + TrimLeft(s, IsPySpace) && forall i :: 0 <= i < |blanks| ==> IsPySpace(blanks[i])
  {
    if s != "" && IsPySpace(s[0]) {
      var more := TrimLeftSplits(s[1..]);
      assert s[1..] == more + TrimLeft(s, IsPySpace);
      assert s == [s[0]] + s[1..];
      blanks := [s[0]] + more;
      assert s == blanks + TrimLeft(s, IsPySpace);
    } else {
      blanks := "";
    }
  }

  lemma QuotedKeyReads(content: string, q: char, key: string, blanks: string, rest: string)
    requires QuotedKeyParts(content, q, key, blanks, rest)
    ensures SplitKey(content) == Success((key, rest))
  {
    var end := 1 + |key|;
    assert content[0] == q && content[end] == q;
    assert forall i :: 1 <= i < end ==> content[i] == key[i - 1];
    assert IndexFrom(content, q, 1) == end;
    assert content[1..end] == key && content[end + 1..] == blanks + (":" + rest);
    TrimLeftBlanks(blanks, ":" + rest);
    assert (":" + rest)[1..] == rest;
  }

  lemma CutAt(content: string, q: char, end: nat, blanks: string, rest: string)
    requires 1 <= end < |content| && content[0] == q && content[end] == q
    requires content[end + 1..] == blanks + (":" + rest)
    ensures content == [q] + (content[1..end] + ([q] + (blanks + (":" + rest))))
  {
    assert content == content[..end + 1] + content[end + 1..];
    assert content[..end + 1] == [q] + content[1..end] + [q];
  }

  lemma QuotedKeyIsWritten(content: string) returns (blanks: string)
    requires content != "" && content[0] in {'"', '\''} && SplitKey(content).Success?
    ensures var (key, rest) := SplitKey(content).value; QuotedKeyParts(content, content[0], key, blanks, rest)
  {
    hide TrimLeft, IsPySpace;
    var end := IndexFrom(content, content[0], 1);
    if end < |content| {
      blanks := TrimLeftSplits(content[end + 1..]);
      var after := TrimLeft(content[end + 1..], IsPySpace);
      assert after == ":" + after[1..];
      CutAt(content, content[0], end, blanks, after[1..]);
    } else {
      assert false;
    }
  }

  /** Main result: how a line is cut into key and rest. A line that starts with a quote is read when a colon
      follows the closing quote of the same kind, blanks aside, and is an error otherwise; any other line is
      cut at its first colon. */
  lemma SplitKeyExactly(content: string, key: string, rest: string)
    ensures SplitKey(content) == Success((key, rest))
       <==> if content != "" && content[0] in {'"', '\''} then QuotedKeyLine(content, key, rest)
            else ':' !in key && content == key + (":" + rest)
  {
    hide QuotedKeyParts;
    if content != "" && content[0] in {'"', '\''} {
      if SplitKey(content) == Success((key, rest)) {
        var blanks := QuotedKeyIsWritten(content);
      }
      if q, blanks :| QuotedKeyParts(content, q, key, blanks, rest) {
        QuotedKeyReads(content, q, key, blanks, rest);
      }
    } else {
      FirstColonCuts(content, key, rest);
    }
  }

  lemma FirstColonCuts(content: string, key: string, rest: string)
    requires content == "" || content[0] !in {'"', '\''}
    ensures SplitKey(content) == Success((key, rest)) <==> ':' !in key && content == key + (":" + rest)
  {
    var k := IndexFrom(content, ':', 0);
    if ':' !in key && content == key + (":" + rest) {
      assert content[|key|] == ':' && forall i :: 0 <= i < |key| ==> content[i] == key[i];
      assert k == |key|;
      assert content[..k] == key && content[k + 1..] == rest;
    }
    if k < |content| {
      assert content == content[..k] + (":" + content[k + 1..]);
    }
  }

  predicate ColonSpaceAt(item: string, j: int) {
    0 <= j < |item| - 1 && item[j] == ':' && item[j + 1] == ' '
  }

  /** Cut at its first colon. */
  predicate FirstColon(item: string, key: string, rest: string) {
    item == key + (":" + rest) && ':' !in key
  }

  /** Which items of a list are mappings: those that do not start with a quote, have something before their first
      colon, and end with a colon or hold one before a space. */
  lemma EntryExactly(item: string)
    ensures LooksLikeMapEntry(item)
       <==> && item != "" && item[0] != '"' && item[0] != '\''
            && (exists key, rest :: FirstColon(item, key, rest) && Trim(key, IsPySpace) != "")
            && (EndsWith(TrimRight(item, IsPySpace), ":") || exists j :: ColonSpaceAt(item, j))
  {
    hide Trim, TrimRight, EndsWith, FirstColon, ColonSpaceAt, Contains;
    ColonSpaceExactly(item);
    if LooksLikeMapEntry(item) {
      ColonIsThere(item);
      CutAtColon(item);
    }
    if key, rest :| FirstColon(item, key, rest) && Trim(key, IsPySpace) != "" {
      ColonCut(item, key, rest);
    }
  }

  lemma CutAtColon(item: string)
    requires IndexFrom(item, ':', 0) < |item|
    ensures var k := IndexFrom(item, ':', 0); FirstColon(item, item[..k], item[k + 1..])
  {
    hide *;
    var k := IndexFrom(item, ':', 0);
    NotBefore(item, ':', k);
    CutAround(item, k);
    FirstColonIs(item, item[..k], item[k + 1..]);
  }

  lemma FirstColonIs(item: string, key: string, rest: string)
    requires item == key + (":" + rest) && ':' !in key
    ensures FirstColon(item, key, rest)
  {
  }

  lemma NotBefore(s: string, c: char, k: nat)
    requires k <= |s| && forall j :: 0 <= j < k ==> s[j] != c
    ensures c !in s[..k]
  {
  }

  lemma CutAround(s: string, k: nat)
    requires k < |s|
    ensures s == s[..k] + ([s[k]] + s[k + 1..])
  {
  }

  lemma ColonCut(item: string, key: string, rest: string)
    requires FirstColon(item, key, rest)
    ensures IndexFrom(item, ':', 0) == |key| && item[..|key|] == key
  {
    assert item[|key|] == ':' && forall i :: 0 <= i < |key| ==> item[i] == key[i];
  }

  lemma ColonSpaceExactly(item: string)
    ensures Contains(item, ": ") <==> exists j :: ColonSpaceAt(item, j)
  {
    var k := IndexOfString(item, ": ");
    if k < |item| {
      assert item[k..][0] == item[k] && item[k..][1] == item[k + 1];
      assert ColonSpaceAt(item, k);
    }
    if j :| ColonSpaceAt(item, j) {
      assert item[j..][0] == ':' && item[j..][1] == ' ';
    }
  }

  lemma {:induction false} TrimRightIsPrefix(s: string)
    ensures TrimRight(s, IsPySpace) <= s
  {
    if s != "" && IsPySpace(s[|s| - 1]) {
      TrimRightIsPrefix(s[..|s| - 1]);
    }
  }

  lemma EndsInColon(t: string)
    requires EndsWith(t, ":")
    ensures t != "" && t[|t| - 1] == ':'
  {
    assert t[|t| - 1..][0] == t[|t| - 1];
  }

  lemma ColonAt(item: string, k: nat)
    requires k < |item| && item[k] == ':'
    ensures IndexFrom(item, ':', 0) < |item|
  {
    hide IndexFrom;
  }

  lemma ColonIsThere(item: string)
    requires Contains(item, ": ") || EndsWith(TrimRight(item, IsPySpace), ":")
    ensures IndexFrom(item, ':', 0) < |item|
  {
    hide Contains, EndsWith, TrimRight, IndexFrom;
    ColonSpaceExactly(item);
    if j :| ColonSpaceAt(item, j) {
      ColonAt(item, j);
    } else {
      TrimRightIsPrefix(item);
      EndsInColon(TrimRight(item, IsPySpace));
      ColonAt(item, |TrimRight(item, IsPySpace)| - 1);
    }
  }

  // ----- What is rejected -----

  /** A document is one block: a row behind it that does not continue it, at a smaller column or at its own
      but with a dash behind a mapping or without one behind a sequence, is an error that names the line. */
  lemma {:induction false} TrailingRowIsRejected(rows: seq<Row>, v: Value, n: nat)
    requires Printable(v) && v.IsCollection()
    requires At(PageOf(rows), 0, Block(v, n)) && |Block(v, n)| < |rows|
    requires var row := rows[|Block(v, n)|];
             row.indent < n || (row.indent == n && (v.Map? <==> IsDashed(row.content)))
    ensures ParseRows(rows) == Failure(ParseError(rows[|Block(v, n)|].lineno))
  {
    hide Block, At, ParseValueBlock, Printable, IsDashed;
    BlockStart(v, n);
    FirstShown(rows, Block(v, n));
    BlockParses(rows, 0, v, n, n);
  }

  lemma {:induction false} FirstShown(rows: seq<Row>, lines: seq<Line>)
    requires lines != [] && At(PageOf(rows), 0, lines)
    ensures rows != [] && rows[0].indent == lines[0].indent
  {
    AtLine(PageOf(rows), 0, lines, 0);
  }

  /** Below a key that has its value on its own line a deeper row is an error that names the line, in a mapping
      and in the keys that continue a list item, whatever was read before. */
  lemma {:induction false} DeeperRowIsRejected(rows: seq<Row>, i: nat, e: Entry, n: nat, acc: seq<Entry>)
    requires PlainKey(e.key) && PrintableScalar(e.value)
    requires At(PageOf(rows), i, [Line(n, KeyText(e))]) && i + 1 < |rows| && rows[i + 1].indent > n
    ensures ParseMap(rows, i, n, acc) == Failure(ParseError(rows[i + 1].lineno))
    ensures !IsDashed(rows[i + 1].content) ==> ParseItemRest(rows, i, n, acc) == Failure(ParseError(rows[i + 1].lineno))
  {
    hide *;
    AtLine(PageOf(rows), i, [Line(n, KeyText(e))], 0);
    KeyTextSplits(e);
    ScalarValueParses(rows, i, e, n, n + 1);
    MapStep(rows, i, n, acc, Entry(e.key, Means(e.value)), AfterColon(e.value), i + 1);
    DeeperRow(rows, i + 1, n, Put(acc, e.key, Means(e.value)));
  }

  lemma DeeperRow(rows: seq<Row>, i: nat, n: nat, acc: seq<Entry>)
    requires i < |rows| && rows[i].indent > n
    ensures ParseMap(rows, i, n, acc) == Failure(ParseError(rows[i].lineno))
    ensures !IsDashed(rows[i].content) ==> ParseItemRest(rows, i, n, acc) == Failure(ParseError(rows[i].lineno))
  {
  }

  // ----- From text to rows -----

  /** A line that comment stripping, trimming and line splitting leave alone. */
  ghost predicate CleanContent(c: string) {
    && c != [] && !IsPySpace(c[0]) && !IsPySpace(c[|c| - 1])
    && (forall i :: 0 <= i < |c| ==> !IsLineBreak(c[i]))
    && exists prefix, last :: CleanParts(c, prefix, last)
  }

  ghost predicate CleanParts(c: string, prefix: string, last: string) {
    && c == prefix + last && last != [] && !IsPySpace(last[|last| - 1])
    && Bland(prefix) && Neutral(last)
  }

  ghost predicate AllClean(lines: seq<Line>) {
    forall k :: 0 <= k < |lines| ==> CleanContent(lines[k].content)
  }

  lemma CleanConcat(prefix: string, last: string)
    requires prefix != [] && !IsPySpace(prefix[0]) && Bland(prefix)
    requires last != [] && !IsPySpace(last[|last| - 1]) && Neutral(last)
    requires forall i :: 0 <= i < |prefix| ==> !IsLineBreak(prefix[i])
    requires forall i :: 0 <= i < |last| ==> !IsLineBreak(last[i])
    ensures CleanContent(prefix + last)
  {
    var c := prefix + last;
    assert CleanParts(c, prefix, last);
    forall i | 0 <= i < |c| ensures !IsLineBreak(c[i]) {
      assert c[i] == if i < |prefix| then prefix[i] else last[i - |prefix|];
    }
  }

  lemma KeyTextClean(e: Entry)
    requires PlainKey(e.key) && Printable(e.value)
    ensures CleanContent(KeyText(e))
  {
    assert forall i :: 0 <= i < |e.key| ==> PlainKeyChar(e.key[i]);
    if e.value.IsCollection() {
      assert KeyText(e) == e.key + ":";
      CleanConcat(e.key, ":");
    } else {
      var t := ScalarText(e.value);
      ScalarShape(e.value);
      assert KeyText(e) == (e.key + ": ") + t;
      CleanConcat(e.key + ": ", t);
    }
  }

  lemma DashedClean(c: string)
    requires CleanContent(c)
    ensures CleanContent("- " + c)
  {
    hide Bland, IsLineBreak, IsPySpace;
    var prefix, last :| CleanParts(c, prefix, last);
    BlandDash(prefix);
    assert "- " + c == ("- " + prefix) + last;
    assert CleanParts("- " + c, "- " + prefix, last);
    DashEnds();
    forall i | 0 <= i < |c| + 2 ensures !IsLineBreak(("- " + c)[i]) {
      assert ("- " + c)[i] == if i < 2 then "- "[i] else c[i - 2];
    }
    assert ("- " + c)[|c| + 1] == c[|c| - 1];
  }

  lemma BlandDash(s: string)
    requires Bland(s)
    ensures Bland("- " + s)
  {
  }

  lemma DashEnds()
    ensures !IsPySpace('-') && !IsLineBreak('-') && !IsLineBreak(' ')
  {
  }

  lemma ScalarClean(v: Value)
    requires PrintableScalar(v)
    ensures CleanContent(ScalarText(v))
  {
    ScalarShape(v);
    assert CleanParts(ScalarText(v), "", ScalarText(v));
  }

  lemma {:induction false} BlockClean(v: Value, n: nat)
    requires Printable(v) && v.IsCollection()
    ensures AllClean(Block(v, n))
    decreases v, 1
  {
    match v
    case Map(entries) => MapLinesClean(entries, n);
    case Seq(items) => SeqLinesClean(items, n);
  }

  lemma {:induction false} MapLinesClean(entries: seq<Entry>, n: nat)
    requires PrintableEntries(entries)
    ensures AllClean(MapLines(entries, n))
    decreases entries, 0
  {
    if entries != [] {
      var e := entries[0];
      MapLinesSplit(entries, n);
      KeyTextClean(e);
      if e.value.IsCollection() {
        BlockClean(e.value, n + 2);
      }
      MapLinesClean(entries[1..], n);
    }
  }

  lemma {:induction false} SeqLinesClean(items: seq<Value>, n: nat)
    requires PrintableItems(items)
    ensures AllClean(SeqLines(items, n))
    decreases items, 0
  {
    if items != [] {
      ItemLinesClean(items[0], n);
      SeqLinesClean(items[1..], n);
    }
  }

  lemma {:induction false} ItemLinesClean(v: Value, n: nat)
    requires Printable(v)
    ensures AllClean(ItemLines(v, n))
    decreases v, 0
  {
    hide *;
    ItemLinesCases(v, n);
    if v.Map? {
      PrintableMap(v.entries, CoreReading);
      MapLinesClean(v.entries, n + 2);
      DashClean(MapLines(v.entries, n + 2), n);
    } else if v.Seq? {
      SeqParts(v.items);
      SeqLinesClean(v.items, n + 2);
      BareDashClean();
      OneMoreClean(Line(n, "-"), SeqLines(v.items, n + 2));
    } else {
      ScalarClean(v);
      DashedClean(ScalarText(v));
      NothingUnclean();
      OneMoreClean(Line(n, "- " + ScalarText(v)), []);
      assert [Line(n, "- " + ScalarText(v))] + [] == [Line(n, "- " + ScalarText(v))];
    }
  }

  lemma SeqParts(items: seq<Value>)
    requires Printable(Seq(items))
    ensures PrintableItems(items)
  {
  }

  lemma BareDashClean()
    ensures CleanContent("-")
  {
    assert CleanParts("-", "", "-");
  }

  lemma NothingUnclean()
    ensures AllClean([])
  {
  }

  lemma OneMoreClean(line: Line, lines: seq<Line>)
    requires CleanContent(line.content) && AllClean(lines)
    ensures AllClean([line] + lines)
  {
    hide CleanContent;
  }

  lemma DashClean(lines: seq<Line>, n: nat)
    requires AllClean(lines)
    ensures AllClean(Dash(lines, n))
  {
    hide CleanContent;
    if lines != [] {
      DashedClean(lines[0].content);
    }
  }

  lemma RenderedLineSurvives(line: Line, tail: string)
    requires CleanContent(line.content) && Tail(tail)
    ensures var t := Render(line);
            && StripInlineComment(t + tail) == t && Trim(t, IsPySpace) != "" && LeadingSpaces(t) == line.indent
            && t[line.indent..] == line.content && NoBreaks(t + tail)
  {
    hide StripInlineComment, LeadingSpaces, TrimLeft, TrimRight, Tail, Neutral, Bland;
    var t, c := Render(line), line.content;
    var prefix, last :| CleanParts(c, prefix, last);
    assert t == (Spaces(line.indent) + prefix) + last;
    BlandSpaces(line.indent, prefix);
    StripKeeps(Spaces(line.indent) + prefix, last, tail);
    TrimLeftSpaces(line.indent, c, IsPySpace);
    TrimKeeps(c, IsPySpace);
    CountLeadingSpaces(line.indent, c);
    TailIsCut(tail);
  }

  lemma BlandSpaces(n: nat, prefix: string)
    requires Bland(prefix)
    ensures Bland(Spaces(n) + prefix)
  {
  }

  lemma {:induction false} CountLeadingSpaces(n: nat, c: string)
    requires c != [] && c[0] != ' '
    ensures LeadingSpaces(Spaces(n) + c) == n
  {
    if n == 0 {
      assert Spaces(n) + c == c;
    } else {
      assert (Spaces(n) + c)[1..] == Spaces(n - 1) + c;
      CountLeadingSpaces(n - 1, c);
    }
  }

  /** A line ends at LF or at CR LF. */
  predicate IsEnd(end: string) {
    end == "\n" || end == "\r\n"
  }

  lemma {:induction false} LineEndOf(line: string, end: string, rest: string)
    requires (forall i :: 0 <= i < |line| ==> !IsLineBreak(line[i])) && IsEnd(end)
    ensures LineEnd(line + end + rest) == |line|
  {
    var text := line + end + rest;
    if line == [] {
      assert text[0] == end[0];
    } else {
      assert text[0] == line[0];
      assert text[1..] == line[1..] + end + rest;
      LineEndOf(line[1..], end, rest);
    }
  }

  /** The texts are the lines, each with blanks or a comment behind it, and any blank and comment lines between. */
  predicate Shows(texts: seq<string>, lines: seq<Line>)
    decreases |texts|
  {
    if texts == [] then lines == []
    else
      || (Tail(texts[0]) && Shows(texts[1..], lines))
      || (&& lines != [] && Render(lines[0]) <= texts[0] && Tail(texts[0][|Render(lines[0])|..])
          && Shows(texts[1..], lines[1..]))
  }

  /** The texts with their line ends. */
  function JoinTexts(texts: seq<string>, ends: seq<string>): string
    requires |ends| == |texts|
  {
    if texts == [] then "" else texts[0] + ends[0] + JoinTexts(texts[1..], ends[1..])
  }

  predicate AreEnds(ends: seq<string>) {
    forall k :: 0 <= k < |ends| ==> IsEnd(ends[k])
  }

  lemma {:induction false} ShownHaveNoBreaks(texts: seq<string>, lines: seq<Line>)
    requires Shows(texts, lines) && AllClean(lines)
    ensures forall k :: 0 <= k < |texts| ==> NoBreaks(texts[k])
    decreases |texts|
  {
    hide Tail, Render, CleanContent, NoBreaks;
    if texts != [] {
      if Tail(texts[0]) && Shows(texts[1..], lines) {
        TailIsCut(texts[0]);
        ShownHaveNoBreaks(texts[1..], lines);
      } else {
        ShownLine(texts[0], lines[0]);
        ShownHaveNoBreaks(texts[1..], lines[1..]);
      }
    }
  }

  lemma ShownLine(text: string, line: Line)
    requires CleanContent(line.content) && Render(line) <= text && Tail(text[|Render(line)|..])
    ensures StripInlineComment(text) == Render(line) && NoBreaks(text)
    ensures var t := Render(line);
            Trim(t, IsPySpace) != "" && LeadingSpaces(t) == line.indent && t[line.indent..] == line.content
  {
    hide Tail, Render, CleanContent, NoBreaks, StripInlineComment, Trim, LeadingSpaces;
    var t := Render(line);
    assert text == t + text[|t|..];
    RenderedLineSurvives(line, text[|t|..]);
  }

  lemma {:induction false} SplitInvertsJoin(texts: seq<string>, ends: seq<string>)
    requires |ends| == |texts| && AreEnds(ends) && forall k :: 0 <= k < |texts| ==> NoBreaks(texts[k])
    ensures SplitLines(JoinTexts(texts, ends)) == texts
  {
    if texts != [] {
      hide SplitLines, LineEnd;
      SplitInvertsJoin(texts[1..], ends[1..]);
      FirstLineSplits(texts[0], ends[0], JoinTexts(texts[1..], ends[1..]));
    }
  }

  lemma FirstLineSplits(line: string, end: string, rest: string)
    requires NoBreaks(line) && IsEnd(end)
    ensures SplitLines(line + end + rest) == [line] + SplitLines(rest)
  {
    var text := line + end + rest;
    LineEndOf(line, end, rest);
    assert text[|line|..] == end + rest;
    assert text[|line|..][0] == end[0] && (|end| == 2 ==> text[|line|..][1] == '\n');
    assert text[..|line|] == line && text[|line| + |end|..] == rest;
  }

  /** The rows of the texts show the lines. */
  lemma {:induction false} TokenizeShown(texts: seq<string>, lines: seq<Line>, lineno: nat) returns (rows: seq<Row>)
    requires Shows(texts, lines) && AllClean(lines)
    ensures Tokenize(texts, lineno) == Success(rows) && |rows| == |lines|
    ensures forall k :: 0 <= k < |lines| ==> rows[k].indent == lines[k].indent && rows[k].content == lines[k].content
    decreases |texts|
  {
    hide Tail, Render, CleanContent, NoBreaks, StripInlineComment, Trim, LeadingSpaces, TabRejected;
    if texts == [] {
      rows := [];
    } else if Tail(texts[0]) && Shows(texts[1..], lines) {
      TailIsBlank(texts[0]);
      rows := TokenizeShown(texts[1..], lines, lineno + 1);
    } else {
      ShownLine(texts[0], lines[0]);
      TabsAreNeverRejected(Render(lines[0]));
      var rest := TokenizeShown(texts[1..], lines[1..], lineno + 1);
      rows := [Row(lineno, lines[0].indent, lines[0].content)] + rest;
    }
  }

  lemma RowsShowLines(rows: seq<Row>, lines: seq<Line>)
    requires |rows| == |lines|
    requires forall k :: 0 <= k < |lines| ==> rows[k].indent == lines[k].indent && rows[k].content == lines[k].content
    ensures At(PageOf(rows), 0, lines)
  {
  }

  /** Main result: a document whose lines are those of a printed collection, scalars written in whatever way,
      with comments, trailing blanks and blank lines anywhere and with either line end, is read as the collection
      that the core schema says. */
  lemma ParseReadsDocument(texts: seq<string>, ends: seq<string>, v: Value)
    requires Printable(v) && v.IsCollection() && Shows(texts, Block(v, 0)) && |ends| == |texts| && AreEnds(ends)
    ensures ParseDocument(JoinTexts(texts, ends)) == Success(Means(v))
  {
    hide *;
    var lines := Block(v, 0);
    BlockClean(v, 0);
    ShownHaveNoBreaks(texts, lines);
    SplitInvertsJoin(texts, ends);
    var rows := TokenizeShown(texts, lines, 1);
    RowsShowLines(rows, lines);
    BlockStart(v, 0);
    AtLine(PageOf(rows), 0, lines, 0);
    NothingAfter(PageOf(rows), |lines|);
    StoppedEnds(rows, |Block(v, 0)|, v, 0);
    BlockParses(rows, 0, v, 0, 0);
    DocumentIsBlock(texts, ends, v, rows);
  }

  lemma NothingAfter(page: Page, i: nat)
    requires i == |page|
    ensures Stops(page, i, 0)
  {
  }

  lemma DocumentIsBlock(texts: seq<string>, ends: seq<string>, v: Value, rows: seq<Row>)
    requires |ends| == |texts| && SplitLines(JoinTexts(texts, ends)) == texts
    requires Tokenize(texts, 1) == Success(rows) && rows != [] && rows[0].indent == 0
    requires ParseValueBlock(rows, 0, 0) == Success((Means(v), |rows|))
    ensures ParseDocument(JoinTexts(texts, ends)) == Success(Means(v))
  {
    hide SplitLines, JoinTexts, Tokenize, ParseValueBlock, Means;
  }

  function Feeds(n: nat): (ends: seq<string>)
    ensures |ends| == n && AreEnds(ends)
  {
    seq(n, _ => "\n")
  }

  lemma {:induction false} RenderedShow(lines: seq<Line>)
    ensures |Rendered(lines)| == |lines| && Shows(Rendered(lines), lines)
    ensures JoinTexts(Rendered(lines), Feeds(|lines|)) == JoinLines(lines)
  {
    hide Render;
    if lines != [] {
      var t := Render(lines[0]);
      assert t[|t|..] == "";
      assert Rendered(lines)[1..] == Rendered(lines[1..]);
      assert Feeds(|lines|)[1..] == Feeds(|lines[1..]|);
      RenderedShow(lines[1..]);
    }
  }

  /** Main result: parsing the print of a collection gives what it says, and so gives the collection back when
      none of its scalars is spelt out. */
  lemma ParseInvertsPrint(v: Value)
    requires Printable(v) && v.IsCollection()
    ensures ParseDocument(Print(v)) == Success(Means(v))
    ensures Unspelt(v) ==> ParseDocument(Print(v)) == Success(v)
  {
    hide ParseDocument, Printable, Shows, JoinTexts, Rendered, Block, Unspelt, Meaning;
    RenderedShow(Block(v, 0));
    ParseReadsDocument(Rendered(Block(v, 0)), Feeds(|Block(v, 0)|), v);
    if Unspelt(v) {
      UnspeltMeansItself(v, CoreReading);
    }
  }
}
