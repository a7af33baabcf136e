/**
 The YAML subset loader of `bets/a-sdk-mcp-gen/src/yaml.js`. The functions are the specification;
 class `Reader` is the closure of the source, whose shared line index moves forward only.
 */
module SdkYaml {
  import opened Wrappers
  import opened Text
  import opened YamlTree
  import Json

  datatype Error = ExpectedKey(line: nat) | NotADocument | EmptyDocument | NotJson

  // ----- Lines -----

  /** JavaScript's `split(/\r?\n/)`. */
  function SplitLines(src: string): seq<string>
    decreases |src|
  {
    var k := IndexFrom(src, '\n', 0);
    if k == |src| then [src]
    else
      var end := if k > 0 && src[k - 1] == '\r' then k - 1 else k;
      [src[..end]] + SplitLines(src[k + 1..])
  }

  /** Position of the first `#` at or after `k` that is outside quotes and starts a word. */
  function CommentStart(line: string, k: nat, inSingle: bool, inDouble: bool): (r: nat)
    requires k <= |line|
    ensures k <= r <= |line|
    decreases |line| - k
  {
    if k == |line| then k
    else if line[k] == '\'' && !inDouble then CommentStart(line, k + 1, !inSingle, inDouble)
    else if line[k] == '"' && !inSingle then CommentStart(line, k + 1, inSingle, !inDouble)
    else if line[k] == '#' && !inSingle && !inDouble && (k == 0 || IsJsSpace(line[k - 1])) then k
    else CommentStart(line, k + 1, inSingle, inDouble)
  }

  function StripComment(line: string): string {
    TrimRight(line[..CommentStart(line, 0, false, false)], IsJsSpace)
  }

  method StripCommentLoop(line: string) returns (stripped: string)
    ensures stripped == StripComment(line)
  {
    var inSingle, inDouble := false, false;
    for k := 0 to |line|
      invariant CommentStart(line, 0, false, false) == CommentStart(line, k, inSingle, inDouble)
    {
      var ch := line[k];
      if ch == '\'' && !inDouble {
        inSingle := !inSingle;
      } else if ch == '"' && !inSingle {
        inDouble := !inDouble;
      } else if ch == '#' && !inSingle && !inDouble {
        if k == 0 || IsJsSpace(line[k - 1]) {
          return TrimRight(line[..k], IsJsSpace);
        }
      }
    }
    assert line[..|line|] == line;
    stripped := TrimRight(line, IsJsSpace);
  }

  /** What `peek` reports of a line: its leading white space and its trimmed text. */
  datatype Cleaned = Cleaned(indent: nat, text: string)

  function Clean(line: string): Cleaned {
    var cleaned := StripComment(line);
    Cleaned(|cleaned| - |TrimLeft(cleaned, IsJsSpace)|, Trim(cleaned, IsJsSpace))
  }

  /** The first line at or after `i` that is not blank, or the number of lines. */
  function Peek(lines: seq<string>, i: nat): (j: nat)
    requires i <= |lines|
    ensures i <= j <= |lines|
    ensures j < |lines| ==> Clean(lines[j]).text != ""
    decreases |lines| - i
  {
    if i == |lines| || Clean(lines[i]).text != "" then i else Peek(lines, i + 1)
  }

  // ----- Scalars and keys -----

  const MAX_SAFE_INTEGER: int := 0x1F_FFFF_FFFF_FFFF

  predicate IsDecimalText(s: string) {
    var k := IndexFrom(s, '.', 0);
    k < |s| && IsIntText(s[..k]) && s[k + 1..] != [] && AllDigits(s[k + 1..])
  }

  predicate IsQuoted(s: string) {
    (StartsWith(s, "\"") && EndsWith(s, "\"")) || (StartsWith(s, "'") && EndsWith(s, "'"))
  }

  /** JavaScript's `s.slice(1, -1)`. */
  function Unquote(s: string): string {
    if |s| < 2 then "" else s[1..|s| - 1]
  }

  function ParseScalar(raw: string): Value {
    var s := Trim(raw, IsJsSpace);
    if s in {"", "~", "null"} then Null
    else if s == "true" then Bool(true)
    else if s == "false" then Bool(false)
    else if IsQuoted(s) then Str(Unquote(s))
    else if IsIntText(s) && -MAX_SAFE_INTEGER <= IntValue(s) <= MAX_SAFE_INTEGER then Int(IntValue(s))
    else if IsIntText(s) || IsDecimalText(s) then Decimal(s)
    else Str(s)
  }

  /** Key and value text of an entry of a mapping that starts on a dash line. */
  function SplitItemEntry(text: string): (string, string) {
    if EndsWith(text, ":") then (Trim(text[..|text| - 1], IsJsSpace), "")
    else
      var k := IndexOfString(text, ": ");
      (Trim(text[..k], IsJsSpace), if k < |text| then Trim(text[k + 2..], IsJsSpace) else "")
  }

  /** Key and value text of an entry of a block mapping. A colon that is neither last nor followed by
      a space makes `indexOf` return -1, and both slices are taken with that index. */
  function SplitEntry(text: string): (string, string)
    requires text != ""
  {
    var (key, inline) :=
      if EndsWith(text, ":") && !Contains(text, ": ") then (Trim(text[..|text| - 1], IsJsSpace), "")
      else
        var k := IndexOfString(text, ": ");
        if k < |text| then (Trim(text[..k], IsJsSpace), Trim(text[k + 2..], IsJsSpace))
        else (Trim(text[..|text| - 1], IsJsSpace), Trim(text[1..], IsJsSpace));
    (if IsQuoted(key) then Unquote(key) else key, inline)
  }

  function ParseInline(inline: string): Value {
    if StartsWith(inline, "{") || StartsWith(inline, "[") then Flow(inline) else ParseScalar(inline)
  }

  predicate IsItem(text: string) {
    StartsWith(text, "- ")
  }

  // ----- Recursive descent -----

  type Parsed = Result<(Value, nat), Error>

  /** `parseBlock`, called when the line index is `i`. */
  function ParseBlock(lines: seq<string>, i: nat, minIndent: nat): (r: Parsed)
    requires i <= |lines|
    ensures r.Success? ==> i <= r.value.1 <= |lines|
    decreases |lines| - i, 4
  {
    var j := Peek(lines, i);
    if j == |lines| then Success((Null, j))
    else
      var first := Clean(lines[j]);
      if IsItem(first.text) then ParseArray(lines, j, minIndent, first.indent, [])
      else ParseMapping(lines, j, minIndent, first.indent, [])
  }

  /** The value below a key or dash at `indent`, when the line index is `i`. */
  function ParseNested(lines: seq<string>, i: nat, indent: nat): (r: Parsed)
    requires i <= |lines|
    ensures r.Success? ==> i <= r.value.1 <= |lines|
    decreases |lines| - i, 5
  {
    var j := Peek(lines, i);
    if j < |lines| && Clean(lines[j]).indent > indent then ParseBlock(lines, j, Clean(lines[j]).indent)
    else Success((Null, j))
  }

  function ParseArray(lines: seq<string>, i: nat, minIndent: nat, base: nat, arr: seq<Value>): (r: Parsed)
    requires i <= |lines|
    ensures r.Success? ==> i <= r.value.1 <= |lines|
    decreases |lines| - i, 3
  {
    var j := Peek(lines, i);
    if j == |lines| then Success((Seq(arr), j))
    else
      var cur := Clean(lines[j]);
      if cur.indent < minIndent || cur.indent != base || !IsItem(cur.text) then Success((Seq(arr), j))
      else
        var (item, next) :- ParseItem(lines, j);
        ParseArray(lines, next, minIndent, base, arr + [item])
  }

  /** The item on line `j`. */
  function ParseItem(lines: seq<string>, j: nat): (r: Parsed)
    requires j < |lines| && IsItem(Clean(lines[j]).text)
    ensures r.Success? ==> j < r.value.1 <= |lines|
    decreases |lines| - j, 2
  {
    var cur := Clean(lines[j]);
    var rest := cur.text[2..];
    if Contains(rest, ": ") || EndsWith(rest, ":") then
      var (key, inline) := SplitItemEntry(rest);
      var (value, next) :- ParseItemValue(lines, j, inline, cur.indent);
      var (m, end) :- ParseSiblings(lines, next, cur.indent, [Entry(key, value)]);
      Success((Map(m), end))
    else if rest in {"", "|", ">"} then ParseNested(lines, j + 1, cur.indent)
    else Success((ParseScalar(rest), j + 1))
  }

  function ParseItemValue(lines: seq<string>, j: nat, inline: string, indent: nat): (r: Parsed)
    requires j < |lines|
    ensures r.Success? ==> j < r.value.1 <= |lines|
    decreases |lines| - j, 1
  {
    if inline != "" then Success((ParseScalar(inline), j + 1)) else ParseNested(lines, j + 1, indent)
  }

  /** The keys that continue a mapping which started on a dash line at `indent`. */
  function ParseSiblings(lines: seq<string>, i: nat, indent: nat, m: seq<Entry>): (r: Result<(seq<Entry>, nat), Error>)
    requires i <= |lines|
    ensures r.Success? ==> i <= r.value.1 <= |lines|
    decreases |lines| - i, 2
  {
    var j := Peek(lines, i);
    if j == |lines| then Success((m, j))
    else
      var sib := Clean(lines[j]);
      if sib.indent <= indent || IsItem(sib.text) || ':' !in sib.text then Success((m, j))
      else
        var (key, inline) := SplitItemEntry(sib.text);
        var (value, next) :- ParseItemValue(lines, j, inline, sib.indent);
        ParseSiblings(lines, next, indent, Put(m, key, value))
  }

  function ParseMapping(lines: seq<string>, i: nat, minIndent: nat, base: nat, obj: seq<Entry>): (r: Parsed)
    requires i <= |lines|
    ensures r.Success? ==> i <= r.value.1 <= |lines|
    decreases |lines| - i, 3
  {
    var j := Peek(lines, i);
    if j == |lines| then Success((Map(obj), j))
    else
      var cur := Clean(lines[j]);
      if cur.indent < minIndent || cur.indent != base || IsItem(cur.text) then Success((Map(obj), j))
      else if ':' !in cur.text then Failure(ExpectedKey(j + 1))
      else
        var (key, inline) := SplitEntry(cur.text);
        var (value, next) :- ParseEntryValue(lines, j, inline, cur.indent);
        ParseMapping(lines, next, minIndent, base, Put(obj, key, value))
  }

  function ParseEntryValue(lines: seq<string>, j: nat, inline: string, indent: nat): (r: Parsed)
    requires j < |lines|
    ensures r.Success? ==> j < r.value.1 <= |lines|
    decreases |lines| - j, 1
  {
    if inline !in {"", "|", ">"} then Success((ParseInline(inline), j + 1)) else ParseNested(lines, j + 1, indent)
  }

  /** `parseYamlSubset`: lines that follow the first block are not looked at. */
  function ParseYaml(src: string): Result<Value, Error> {
    var (doc, _) :- ParseBlock(SplitLines(src), 0, 0);
    if doc.IsCollection() then Success(doc) else Failure(NotADocument)
  }

  // ----- Which loader a document goes to -----

  function LowerAscii(c: char): char {
    if 'A' <= c <= 'Z' then c + 32 as char else c
  }

  function Lower(s: string): string {
    if s == [] then [] else [LowerAscii(s[0])] + Lower(s[1..])
  }

  /** Whether the name ends in `.yaml` or `.yml`; no letter outside ASCII has one of these in lower case. */
  predicate NamesYaml(filename: string) {
    EndsWith(Lower(filename), ".yaml") || EndsWith(Lower(filename), ".yml")
  }

  /** The search of `/[\n\r].*:/`: whether a colon stands on a line that follows a line feed or carriage return.
      `onLine` says whether the text starts on such a line; U+2028 and U+2029 also end a line. */
  predicate LaterColon(t: string, onLine: bool) {
    t != [] &&
      if t[0] == '\n' || t[0] == '\r' then LaterColon(t[1..], true)
      else if t[0] == '\U{2028}' || t[0] == '\U{2029}' then LaterColon(t[1..], false)
      else (onLine && t[0] == ':') || LaterColon(t[1..], onLine)
  }

  function ParseJson(t: string): Result<Value, Error> {
    if Json.IsJson(t) then Success(Flow(t)) else Failure(NotJson)
  }

  /** A byte order mark at the start is dropped. */
  function WithoutMark(text: string): string {
    if StartsWith(text, "\U{FEFF}") then text[1..] else text
  }

  /** `loadOpenApiSpec`. */
  function LoadOpenApiSpec(text: string, filename: string): Result<Value, Error> {
    var trimmed := Trim(WithoutMark(text), IsJsSpace);
    if trimmed == "" then Failure(EmptyDocument)
    else if trimmed[0] in {'{', '['} then ParseJson(trimmed)
    else if !NamesYaml(filename) && !LaterColon(trimmed, false) then ParseJson(trimmed)
    else ParseYaml(trimmed)
  }

  // ----- The closure of the source -----

  /** The result and the line index that a parser function prescribes. */
  ghost predicate Agrees<T>(r: Result<T, Error>, i: nat, expected: Result<(T, nat), Error>) {
    match expected
    case Success(p) => r == Success(p.0) && i == p.1
    case Failure(e) => r == Failure(e)
  }

  class Reader {
    const lines: seq<string>
    var i: nat

    constructor (src: string)
      ensures lines == SplitLines(src) && i == 0
    {
      lines := SplitLines(src);
      i := 0;
    }

    method MoveToText() returns (found: Option<Cleaned>)
      requires i <= |lines|
      modifies this`i
      ensures i == Peek(lines, old(i))
      ensures found == if i < |lines| then Some(Clean(lines[i])) else None
    {
      while i < |lines|
        invariant i <= |lines| && Peek(lines, old(i)) == Peek(lines, i)
      {
        var cleaned := StripCommentLoop(lines[i]);
        var text := Trim(cleaned, IsJsSpace);
        if text != "" {
          return Some(Cleaned(|cleaned| - |TrimLeft(cleaned, IsJsSpace)|, text));
        }
        i := i + 1;
      }
      found := None;
    }

    method ReadBlock(minIndent: nat) returns (r: Result<Value, Error>)
      requires i <= |lines|
      modifies this`i
      ensures Agrees(r, i, ParseBlock(lines, old(i), minIndent)) && (r.Success? ==> i <= |lines|)
      decreases |lines| - i, 4
    {
      var first := MoveToText();
      if first.None? {
        return Success(Null);
      }
      if IsItem(first.value.text) {
        r := ReadArray(minIndent, first.value.indent);
      } else {
        r := ReadMapping(minIndent, first.value.indent);
      }
    }

    method ReadNested(indent: nat) returns (r: Result<Value, Error>)
      requires i <= |lines|
      modifies this`i
      ensures Agrees(r, i, ParseNested(lines, old(i), indent)) && (r.Success? ==> i <= |lines|)
      decreases |lines| - i, 5
    {
      var next := MoveToText();
      if next.Some? && next.value.indent > indent {
        r := ReadBlock(next.value.indent);
      } else {
        r := Success(Null);
      }
    }

    method ReadArray(minIndent: nat, base: nat) returns (r: Result<Value, Error>)
      requires i <= |lines|
      modifies this`i
      ensures Agrees(r, i, ParseArray(lines, old(i), minIndent, base, [])) && (r.Success? ==> i <= |lines|)
      decreases |lines| - i, 3
    {
      hide Clean, ParseItem, ParseNested, ParseBlock;
      var arr: seq<Value> := [];
      while true
        invariant old(i) <= i <= |lines|
        invariant ParseArray(lines, old(i), minIndent, base, []) == ParseArray(lines, i, minIndent, base, arr)
        decreases |lines| - i
      {
        var cur := MoveToText();
        if cur.None? || cur.value.indent < minIndent || cur.value.indent != base || !IsItem(cur.value.text) {
          return Success(Seq(arr));
        }
        var item :- ReadItem(cur.value);
        arr := arr + [item];
      }
    }

    /** The item on the current line, which `peek` has just reported as `cur`. */
    method ReadItem(cur: Cleaned) returns (r: Result<Value, Error>)
      requires i < |lines| && cur == Clean(lines[i]) && IsItem(cur.text)
      modifies this`i
      ensures Agrees(r, i, ParseItem(lines, old(i))) && (r.Success? ==> old(i) < i <= |lines|)
      decreases |lines| - i, 2
    {
      hide Clean, Contains, EndsWith, SplitItemEntry, ParseItemValue, ParseSiblings, ParseNested, ParseScalar, Peek;
      var rest := cur.text[2..];
      if Contains(rest, ": ") || EndsWith(rest, ":") {
        var (key, inline) := SplitItemEntry(rest);
        var value :- ReadItemValue(inline, cur.indent);
        var m :- ReadSiblings(cur.indent, Entry(key, value));
        r := Success(Map(m));
      } else if rest in {"", "|", ">"} {
        i := i + 1;
        r := ReadNested(cur.indent);
      } else {
        i := i + 1;
        r := Success(ParseScalar(rest));
      }
    }

    method ReadItemValue(inline: string, indent: nat) returns (r: Result<Value, Error>)
      requires i < |lines|
      modifies this`i
      ensures Agrees(r, i, ParseItemValue(lines, old(i), inline, indent)) && (r.Success? ==> old(i) < i <= |lines|)
      decreases |lines| - i, 1
    {
      i := i + 1;
      if inline != "" {
        r := Success(ParseScalar(inline));
      } else {
        r := ReadNested(indent);
      }
    }

    method ReadSiblings(indent: nat, first: Entry) returns (r: Result<seq<Entry>, Error>)
      requires i <= |lines|
      modifies this`i
      ensures Agrees(r, i, ParseSiblings(lines, old(i), indent, [first])) && (r.Success? ==> old(i) <= i <= |lines|)
      decreases |lines| - i, 2
    {
      hide Clean, SplitItemEntry, IsItem, Put, ParseItemValue, ParseNested, ParseBlock;
      var obj := [first];
      while true
        invariant old(i) <= i <= |lines|
        invariant ParseSiblings(lines, old(i), indent, [first]) == ParseSiblings(lines, i, indent, obj)
        decreases |lines| - i
      {
        var sib := MoveToText();
        if sib.None? || sib.value.indent <= indent || IsItem(sib.value.text) || ':' !in sib.value.text {
          return Success(obj);
        }
        var (key, inline) := SplitItemEntry(sib.value.text);
        var value :- ReadItemValue(inline, sib.value.indent);
        obj := Put(obj, key, value);
      }
    }

    method ReadMapping(minIndent: nat, base: nat) returns (r: Result<Value, Error>)
      requires i <= |lines|
      modifies this`i
      ensures Agrees(r, i, ParseMapping(lines, old(i), minIndent, base, [])) && (r.Success? ==> i <= |lines|)
      decreases |lines| - i, 3
    {
      hide Clean, SplitEntry, IsItem, Put, ParseEntryValue, ParseNested, ParseBlock;
      var obj: seq<Entry> := [];
      while true
        invariant old(i) <= i <= |lines|
        invariant ParseMapping(lines, old(i), minIndent, base, []) == ParseMapping(lines, i, minIndent, base, obj)
        decreases |lines| - i
      {
        var cur := MoveToText();
        if cur.None? || cur.value.indent < minIndent || cur.value.indent != base || IsItem(cur.value.text) {
          return Success(Map(obj));
        }
        if ':' !in cur.value.text {
          return Failure(ExpectedKey(i + 1));
        }
        var (key, inline) := SplitEntry(cur.value.text);
        var value :- ReadEntryValue(inline, cur.value.indent);
        obj := Put(obj, key, value);
      }
    }

    method ReadEntryValue(inline: string, indent: nat) returns (r: Result<Value, Error>)
      requires i < |lines|
      modifies this`i
      ensures Agrees(r, i, ParseEntryValue(lines, old(i), inline, indent)) && (r.Success? ==> old(i) < i <= |lines|)
      decreases |lines| - i, 1
    {
      i := i + 1;
      if inline !in {"", "|", ">"} {
        r := Success(ParseInline(inline));
      } else {
        r := ReadNested(indent);
      }
    }
  }

  method ReadYaml(src: string) returns (r: Result<Value, Error>)
    ensures r == ParseYaml(src)
  {
    var reader := new Reader(src);
    var doc :- reader.ReadBlock(0);
    r := if doc.IsCollection() then Success(doc) else Failure(NotADocument);
  }
}
