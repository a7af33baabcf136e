/**
 The indent-driven YAML subset parser of `scripts/check-k8s.py`. The parser functions below are the
 specification; the methods beside them are the loops of the source and are proved to compute it.
 */
module K8sYaml {
  import opened Wrappers
  import opened Text
  import opened YamlTree

  datatype Error = ParseError(lineno: nat) | BadQuotedKey | ValueError

  /** A content line: its number in the file, its leading spaces and the rest of it. */
  datatype Row = Row(lineno: nat, indent: nat, content: string)

  // ----- Comments -----

  /** Where a scan of a line stands with respect to quotes; `Escaped` follows a backslash. */
  datatype Quote = Plain | Single | Double | Escaped

  function QuoteStep(q: Quote, c: char): Quote {
    match q
    case Escaped => Double
    case Double => if c == '\\' then Escaped else if c == '"' then Plain else Double
    case Single => if c == '\'' then Plain else Single
    case Plain => if c == '\'' then Single else if c == '"' then Double else Plain
  }

  /** Position of the first `#` outside quotes when the scan starts in state `q`. */
  function CommentStart(line: string, q: Quote): (k: nat)
    ensures k <= |line|
  {
    if line == [] || (q.Plain? && line[0] == '#') then 0
    else 1 + CommentStart(line[1..], QuoteStep(q, line[0]))
  }

  function StripInlineComment(line: string): string {
    TrimRight(line[..CommentStart(line, Plain)], IsPySpace)
  }

  method StripComment(line: string) returns (stripped: string)
    ensures stripped == StripInlineComment(line)
  {
    var inS, inD, esc := false, false, false;
    var out := "";
    var i := 0;
    ghost var q := Plain;
    while i < |line|
      invariant 0 <= i <= |line| && out == line[..i]
      invariant q == if esc then Escaped else if inD then Double else if inS then Single else Plain
      invariant !(inS && inD) && (esc ==> inD)
      invariant CommentStart(line, Plain) == i + CommentStart(line[i..], q)
    {
      var c := line[i];
      if c == '#' && !esc && !inS && !inD {
        break;
      }
      q := QuoteStep(q, c);
      if esc {
        esc := false;
      } else if c == '\\' && inD {
        esc := true;
      } else if c == '\'' && !inD {
        inS := !inS;
      } else if c == '"' && !inS {
        inD := !inD;
      }
      out := out + [c];
      i := i + 1;
    }
    stripped := TrimRight(out, IsPySpace);
  }

  // ----- Scalars and keys -----

  /** The chained replacements that the source uses to undo escapes, through a NUL placeholder. */
  function Unescape(inner: string): string {
    var s1 := ReplacePair(inner, '\\', '\\', "\0");
    var s2 := ReplacePair(s1, '\\', 'n', "\n");
    var s3 := ReplacePair(s2, '\\', 't', "\t");
    var s4 := ReplacePair(s3, '\\', '"', "\"");
    ReplaceChar(s4, '\0', "\\")
  }

  function ParseScalar(text: string): Value {
    var raw := Trim(text, IsPySpace);
    if raw in {"", "null", "~", "Null", "NULL"} then Null
    else if raw in {"true", "True", "TRUE"} then Bool(true)
    else if raw in {"false", "False", "FALSE"} then Bool(false)
    else if |raw| >= 2 && raw[0] == raw[|raw| - 1] && raw[0] in {'"', '\''} then
      Str(if raw[0] == '"' then Unescape(raw[1..|raw| - 1]) else raw[1..|raw| - 1])
    else if IsIntText(raw) then Int(IntValue(raw))
    else Str(raw)
  }

  function SplitKey(content: string): Result<(string, string), Error> {
    if content != [] && content[0] in {'"', '\''} then
      var end := IndexFrom(content, content[0], 1);
      var rest := if end < |content| then TrimLeft(content[end + 1..], IsPySpace) else "";
      if StartsWith(rest, ":") then Success((content[1..end], rest[1..])) else Failure(BadQuotedKey)
    else
      var k := IndexFrom(content, ':', 0);
      if k == |content| then Failure(ValueError) else Success((content[..k], content[k + 1..]))
  }

  predicate LooksLikeMapEntry(item: string) {
    && item != []
    && item[0] !in {'"', '\''}
    && (Contains(item, ": ") || EndsWith(TrimRight(item, IsPySpace), ":"))
    && Trim(item[..IndexFrom(item, ':', 0)], IsPySpace) != ""
  }

  predicate IsDashed(content: string) {
    StartsWith(content, "- ") || content == "-"
  }

  // ----- Rows -----

  /** Python's `splitlines`: every line-break character ends a line, CR LF counts as one. */
  function SplitLines(text: string): seq<string>
    decreases |text|
  {
    if text == [] then []
    else
      var k := LineEnd(text);
      if k == |text| then [text]
      else
        var width := if StartsWith(text[k..], "\r\n") then 2 else 1;
        [text[..k]] + SplitLines(text[k + width..])
  }

  function LineEnd(text: string): (k: nat)
    ensures k <= |text|
  {
    if text == [] || IsLineBreak(text[0]) then 0 else 1 + LineEnd(text[1..])
  }

  function LeadingSpaces(line: string): (n: nat)
    ensures n <= |line|
    ensures forall i :: 0 <= i < n ==> line[i] == ' '
    ensures n < |line| ==> line[n] != ' '
  {
    if line != [] && line[0] == ' ' then 1 + LeadingSpaces(line[1..]) else 0
  }

  /** The condition under which the source raises "tabs not supported". */
  predicate TabRejected(stripped: string) {
    || '\t' in stripped[..LeadingSpaces(stripped)]
    || StartsWith(TrimLeft(stripped, IsPySpace), "\t")
  }

  /** The rows of the lines, the first of which has number `lineno`. */
  function Tokenize(lines: seq<string>, lineno: nat): Result<seq<Row>, Error>
    decreases lines
  {
    if lines == [] then Success([])
    else
      var stripped := StripInlineComment(lines[0]);
      if Trim(stripped, IsPySpace) == "" then Tokenize(lines[1..], lineno + 1)
      else if TabRejected(stripped) then Failure(ParseError(lineno))
      else
        var indent := LeadingSpaces(stripped);
        var rest :- Tokenize(lines[1..], lineno + 1);
        Success([Row(lineno, indent, stripped[indent..])] + rest)
  }

  function Prepend(rows: seq<Row>, rest: Result<seq<Row>, Error>): Result<seq<Row>, Error> {
    if rest.Success? then Success(rows + rest.value) else rest
  }

  /** How one line extends the rows read before it. */
  lemma TokenizeStep(lines: seq<string>, lineno: nat, rows: seq<Row>)
    requires lines != []
    ensures var stripped := StripInlineComment(lines[0]);
            Prepend(rows, Tokenize(lines, lineno)) ==
            if Trim(stripped, IsPySpace) == "" then Prepend(rows, Tokenize(lines[1..], lineno + 1))
            else if TabRejected(stripped) then Failure(ParseError(lineno))
            else
              var row := Row(lineno, LeadingSpaces(stripped), stripped[LeadingSpaces(stripped)..]);
              Prepend(rows + [row], Tokenize(lines[1..], lineno + 1))
  {
    var stripped := StripInlineComment(lines[0]);
    var rest := Tokenize(lines[1..], lineno + 1);
    if Trim(stripped, IsPySpace) != "" && !TabRejected(stripped) && rest.Success? {
      var row := Row(lineno, LeadingSpaces(stripped), stripped[LeadingSpaces(stripped)..]);
      assert rows + ([row] + rest.value) == (rows + [row]) + rest.value;
    }
  }

  method ReadRows(text: string) returns (r: Result<seq<Row>, Error>)
    ensures r == Tokenize(SplitLines(text), 1)
  {
    var lines := SplitLines(text);
    var rows := [];
    assert lines[0..] == lines;
    assert var all := Tokenize(lines, 1); all.Success? ==> rows + all.value == all.value;
    for k := 0 to |lines|
      invariant Tokenize(lines, 1) == Prepend(rows, Tokenize(lines[k..], k + 1))
    {
      TokenizeStep(lines[k..], k + 1, rows);
      assert lines[k..][1..] == lines[k + 1..];
      var stripped := StripComment(lines[k]);
      if Trim(stripped, IsPySpace) != "" {
        if TabRejected(stripped) {
          return Failure(ParseError(k + 1));
        }
        var indent := LeadingSpaces(stripped);
        rows := rows + [Row(k + 1, indent, stripped[indent..])];
      }
    }
    assert rows + [] == rows;
    r := Success(rows);
  }

  lemma {:induction false} TrimLeftStartsWithoutSpace(s: string, space: char -> bool)
    ensures var t := TrimLeft(s, space); t == [] || !space(t[0])
  {
    if s != [] && space(s[0]) {
      TrimLeftStartsWithoutSpace(s[1..], space);
    }
  }

  /** The "tabs not supported" error is unreachable: the indent that is searched for a tab holds
      spaces only, and the text that is compared with a tab has lost its leading white space. */
  lemma TabsAreNeverRejected(stripped: string)
    ensures !TabRejected(stripped)
  {
    TrimLeftStartsWithoutSpace(stripped, IsPySpace);
  }

  // ----- Recursive descent -----

  type Parsed = Result<(Value, nat), Error>

  predicate Advances(r: Parsed, i: nat, end: nat) {
    r.Success? ==> i <= r.value.1 <= end
  }

  function ParseValueBlock(rows: seq<Row>, i: nat, minIndent: nat): (r: Parsed)
    requires i <= |rows|
    ensures Advances(r, i, |rows|)
    decreases |rows| - i, 4
  {
    if i == |rows| || rows[i].indent < minIndent then Success((Null, i))
    else if IsDashed(rows[i].content) then ParseSeq(rows, i, rows[i].indent, [])
    else ParseMap(rows, i, rows[i].indent, [])
  }

  /** The value of a key or a bare dash on row `i` that has no text of its own. */
  function ParseNested(rows: seq<Row>, i: nat, indent: nat, minIndent: nat): (r: Parsed)
    requires i < |rows|
    ensures r.Success? ==> i < r.value.1 <= |rows|
    decreases |rows| - i, 0
  {
    if i + 1 < |rows| && rows[i + 1].indent > indent then ParseValueBlock(rows, i + 1, minIndent)
    else Success((Null, i + 1))
  }

  /** The value of `key: rest` on row `i`. */
  function ParseEntryValue(rows: seq<Row>, i: nat, rest: string, indent: nat, minIndent: nat): (r: Parsed)
    requires i < |rows|
    ensures r.Success? ==> i < r.value.1 <= |rows|
    decreases |rows| - i, 1
  {
    var text := Trim(rest, IsPySpace);
    if text != "" then Success((ParseScalar(text), i + 1))
    else ParseNested(rows, i, indent, minIndent)
  }

  /** `parse_map` from row `i` on, `result` being what it has read so far. */
  function ParseMap(rows: seq<Row>, i: nat, indent: nat, result: seq<Entry>): (r: Parsed)
    requires i <= |rows|
    ensures Advances(r, i, |rows|)
    decreases |rows| - i, 2
  {
    if i == |rows| || rows[i].indent < indent then Success((Map(result), i))
    else if rows[i].indent > indent then Failure(ParseError(rows[i].lineno))
    else if IsDashed(rows[i].content) then Success((Map(result), i))
    else if ':' !in rows[i].content then Failure(ParseError(rows[i].lineno))
    else
      var (key, rest) :- SplitKey(rows[i].content);
      var (value, next) :- ParseEntryValue(rows, i, rest, indent, indent + 1);
      ParseMap(rows, next, indent, Put(result, key, value))
  }

  /** The keys that continue a mapping which started on a dash line. */
  function ParseItemRest(rows: seq<Row>, i: nat, keyIndent: nat, m: seq<Entry>): (r: Result<(seq<Entry>, nat), Error>)
    requires i <= |rows|
    ensures r.Success? ==> i <= r.value.1 <= |rows|
    decreases |rows| - i, 2
  {
    if i == |rows| || rows[i].indent < keyIndent || IsDashed(rows[i].content) then Success((m, i))
    else if rows[i].indent != keyIndent then Failure(ParseError(rows[i].lineno))
    else
      var (key, rest) :- SplitKey(rows[i].content);
      var (value, next) :- ParseEntryValue(rows, i, rest, keyIndent, keyIndent + 1);
      ParseItemRest(rows, next, keyIndent, Put(m, key, value))
  }

  /** The item on the dash line `i`. */
  function ParseItem(rows: seq<Row>, i: nat, indent: nat): (r: Parsed)
    requires i < |rows| && IsDashed(rows[i].content)
    ensures r.Success? ==> i < r.value.1 <= |rows|
    decreases |rows| - i, 2
  {
    var item := if rows[i].content == "-" then "" else rows[i].content[2..];
    if item == "" then ParseNested(rows, i, indent, indent + 1)
    else if LooksLikeMapEntry(item) then
      var (key, rest) :- SplitKey(item);
      var (value, next) :- ParseEntryValue(rows, i, rest, indent, indent + 2);
      var (m, end) :- ParseItemRest(rows, next, indent + 2, [Entry(key, value)]);
      Success((Map(m), end))
    else Success((ParseScalar(item), i + 1))
  }

  /** `parse_seq` from row `i` on, `result` being what it has read so far. */
  function ParseSeq(rows: seq<Row>, i: nat, indent: nat, result: seq<Value>): (r: Parsed)
    requires i <= |rows|
    ensures Advances(r, i, |rows|)
    decreases |rows| - i, 3
  {
    if i == |rows| || rows[i].indent < indent then Success((Seq(result), i))
    else if rows[i].indent > indent then Failure(ParseError(rows[i].lineno))
    else if !IsDashed(rows[i].content) then Success((Seq(result), i))
    else
      var (value, next) :- ParseItem(rows, i, indent);
      ParseSeq(rows, next, indent, result + [value])
  }

  // ----- The loops of the source -----

  method ReadValueBlock(rows: seq<Row>, i: nat, minIndent: nat) returns (r: Parsed)
    requires i <= |rows|
    ensures r == ParseValueBlock(rows, i, minIndent)
    decreases |rows| - i, 4
  {
    if i >= |rows| || rows[i].indent < minIndent {
      return Success((Null, i));
    }
    if IsDashed(rows[i].content) {
      r := ReadSeq(rows, i, rows[i].indent);
    } else {
      r := ReadMap(rows, i, rows[i].indent);
    }
  }

  /** The three-way choice that the source repeats for every `key:` it reads. */
  method ReadEntryValue(rows: seq<Row>, i: nat, rest: string, indent: nat, minIndent: nat) returns (r: Parsed)
    requires i < |rows|
    ensures r == ParseEntryValue(rows, i, rest, indent, minIndent)
    decreases |rows| - i, 1
  {
    var text := Trim(rest, IsPySpace);
    if text != "" {
      return Success((ParseScalar(text), i + 1));
    }
    r := ReadNested(rows, i, indent, minIndent);
  }

  method ReadNested(rows: seq<Row>, i: nat, indent: nat, minIndent: nat) returns (r: Parsed)
    requires i < |rows|
    ensures r == ParseNested(rows, i, indent, minIndent)
    decreases |rows| - i, 0
  {
    if i + 1 < |rows| && rows[i + 1].indent > indent {
      r := ReadValueBlock(rows, i + 1, minIndent);
    } else {
      r := Success((Null, i + 1));
    }
  }

  method ReadMap(rows: seq<Row>, start: nat, indent: nat) returns (r: Parsed)
    requires start <= |rows|
    ensures r == ParseMap(rows, start, indent, [])
    decreases |rows| - start, 3
  {
    hide SplitKey, IsDashed, Put, ParseEntryValue, ParseNested, ParseValueBlock;
    var result: seq<Entry> := [];
    var i := start;
    while i < |rows|
      invariant start <= i <= |rows|
      invariant ParseMap(rows, start, indent, []) == ParseMap(rows, i, indent, result)
    {
      var row := rows[i];
      if row.indent < indent {
        break;
      }
      if row.indent > indent {
        return Failure(ParseError(row.lineno));
      }
      if IsDashed(row.content) {
        break;
      }
      if ':' !in row.content {
        return Failure(ParseError(row.lineno));
      }
      var split :- SplitKey(row.content);
      var (key, rest) := split;
      var value :- ReadEntryValue(rows, i, rest, indent, indent + 1);
      result, i := Put(result, key, value.0), value.1;
    }
    r := Success((Map(result), i));
  }

  method ReadItemRest(rows: seq<Row>, start: nat, keyIndent: nat, first: Entry)
    returns (r: Result<(seq<Entry>, nat), Error>)
    requires start <= |rows|
    ensures r == ParseItemRest(rows, start, keyIndent, [first])
    decreases |rows| - start, 3
  {
    hide SplitKey, IsDashed, Put, ParseEntryValue, ParseNested, ParseValueBlock;
    var m := [first];
    var i := start;
    while i < |rows|
      invariant start <= i <= |rows|
      invariant ParseItemRest(rows, start, keyIndent, [first]) == ParseItemRest(rows, i, keyIndent, m)
    {
      var row := rows[i];
      if row.indent < keyIndent || IsDashed(row.content) {
        break;
      }
      if row.indent != keyIndent {
        return Failure(ParseError(row.lineno));
      }
      var split :- SplitKey(row.content);
      var (key, rest) := split;
      var value :- ReadEntryValue(rows, i, rest, keyIndent, keyIndent + 1);
      m, i := Put(m, key, value.0), value.1;
    }
    r := Success((m, i));
  }

  method ReadItem(rows: seq<Row>, i: nat, indent: nat) returns (r: Parsed)
    requires i < |rows| && IsDashed(rows[i].content)
    ensures r == ParseItem(rows, i, indent)
    decreases |rows| - i, 2
  {
    var content := rows[i].content;
    var item := if content == "-" then "" else content[2..];
    if item == "" {
      r := ReadNested(rows, i, indent, indent + 1);
    } else if LooksLikeMapEntry(item) {
      var split :- SplitKey(item);
      var (key, rest) := split;
      var value :- ReadEntryValue(rows, i, rest, indent, indent + 2);
      var m :- ReadItemRest(rows, value.1, indent + 2, Entry(key, value.0));
      r := Success((Map(m.0), m.1));
    } else {
      r := Success((ParseScalar(item), i + 1));
    }
  }

  method ReadSeq(rows: seq<Row>, start: nat, indent: nat) returns (r: Parsed)
    requires start <= |rows|
    ensures r == ParseSeq(rows, start, indent, [])
    decreases |rows| - start, 3
  {
    hide IsDashed, ParseItem, ParseNested, ParseValueBlock;
    var result: seq<Value> := [];
    var i := start;
    while i < |rows|
      invariant start <= i <= |rows|
      invariant ParseSeq(rows, start, indent, []) == ParseSeq(rows, i, indent, result)
    {
      var row := rows[i];
      if row.indent < indent {
        break;
      }
      if row.indent > indent {
        return Failure(ParseError(row.lineno));
      }
      if !IsDashed(row.content) {
        break;
      }
      var item :- ReadItem(rows, i, indent);
      result, i := result + [item.0], item.1;
    }
    r := Success((Seq(result), i));
  }

  function ParseRows(rows: seq<Row>): Result<Value, Error> {
    if rows == [] then Success(Null)
    else
      var (value, next) :- ParseValueBlock(rows, 0, rows[0].indent);
      if next != |rows| then Failure(ParseError(rows[next].lineno)) else Success(value)
  }

  function ParseDocument(text: string): Result<Value, Error> {
    var rows :- Tokenize(SplitLines(text), 1);
    ParseRows(rows)
  }

  method ReadDocument(text: string) returns (r: Result<Value, Error>)
    ensures r == ParseDocument(text)
  {
    var rows :- ReadRows(text);
    if rows == [] {
      return Success(Null);
    }
    var block :- ReadValueBlock(rows, 0, rows[0].indent);
    r := if block.1 != |rows| then Failure(ParseError(rows[block.1].lineno)) else Success(block.0);
  }
}
