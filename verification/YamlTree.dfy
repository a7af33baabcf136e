/**
 The trees that both YAML loaders build, and the block print of such a tree. In a tree that is to be printed a
 scalar may also be `Spelt`: written as the given text, which a parser may read as null, a boolean, a number
 or a string. No parser builds one.
 */
module YamlTree {
  import opened Text

  datatype Value =
    | Null
    | Bool(b: bool)
    | Int(n: int)
    | Decimal(text: string)
    | Flow(json: string)
    | Str(s: string)
    | Spelt(text: string)
    | Seq(items: seq<Value>)
    | Map(entries: seq<Entry>)
  {
    predicate IsCollection() {
      Seq? || Map?
    }
  }

  datatype Entry = Entry(key: string, value: Value)

  ghost predicate HasKey(m: seq<Entry>, key: string) {
    exists i :: 0 <= i < |m| && m[i].key == key
  }

  /** Assignment to a key of an insertion-ordered mapping: an existing key keeps its position. */
  function Put(m: seq<Entry>, key: string, value: Value): (r: seq<Entry>)
    ensures !HasKey(m, key) ==> r == m + [Entry(key, value)]
    ensures HasKey(m, key) ==> |r| == |m| && forall i :: 0 <= i < |m| ==> r[i].key == m[i].key
  {
    if m == [] then [Entry(key, value)]
    else if m[0].key == key then [Entry(key, value)] + m[1..]
    else
      assert HasKey(m, key) <==> HasKey(m[1..], key) by {
        assert forall i :: 1 <= i < |m| ==> m[i] == m[1..][i - 1];
      }
      [m[0]] + Put(m[1..], key, value)
  }

  // ----- Canonical print (block collections of YAML 1.2.2, section 8.2) -----

  datatype Line = Line(indent: nat, content: string)

  function EscapeChar(c: char): string {
    if c == '\\' then "\\\\"
    else if c == '\n' then "\\n"
    else if c == '\t' then "\\t"
    else if c == '"' then "\\\""
    else [c]
  }

  function Escape(s: string): string {
    if s == [] then [] else EscapeChar(s[0]) + Escape(s[1..])
  }

  function Quoted(s: string): string {
    "\"" + Escape(s) + "\""
  }

  /** The text of a scalar; collections have none. */
  function ScalarText(v: Value): string {
    match v
    case Null => "null"
    case Bool(b) => if b then "true" else "false"
    case Int(n) => IntText(n)
    case Decimal(text) => text
    case Flow(json) => json
    case Str(s) => Quoted(s)
    case Spelt(text) => text
    case Seq(_) => ""
    case Map(_) => ""
  }

  function Block(v: Value, n: nat): seq<Line>
    decreases v, 1
  {
    match v
    case Seq(items) => SeqLines(items, n)
    case Map(entries) => MapLines(entries, n)
    case _ => []
  }

  function MapLines(entries: seq<Entry>, n: nat): seq<Line>
    decreases entries, 0
  {
    if entries == [] then [] else EntryLines(entries[0], n) + MapLines(entries[1..], n)
  }

  function EntryLines(e: Entry, n: nat): (lines: seq<Line>)
    ensures lines != [] && lines[0].indent == n
    decreases e, 0
  {
    if e.value.IsCollection() then
      [Line(n, e.key + ":")] + Block(e.value, n + 2)
    else
      [Line(n, e.key + ": " + ScalarText(e.value))]
  }

  function SeqLines(items: seq<Value>, n: nat): seq<Line>
    decreases items, 0
  {
    if items == [] then [] else ItemLines(items[0], n) + SeqLines(items[1..], n)
  }

  /** A mapping item starts on the line of its dash; a nested sequence starts on the next line. */
  function ItemLines(v: Value, n: nat): seq<Line>
    decreases v, 0
  {
    match v
    case Seq(items) => [Line(n, "-")] + SeqLines(items, n + 2)
    case Map(entries) => Dash(MapLines(entries, n + 2), n)
    case _ => [Line(n, "- " + ScalarText(v))]
  }

  /** Replaces the two last indent columns of the first line by a dash and a space. */
  function Dash(lines: seq<Line>, n: nat): seq<Line> {
    if lines == [] then [] else [Line(n, "- " + lines[0].content)] + lines[1..]
  }

  function Render(line: Line): string {
    Spaces(line.indent) + line.content
  }

  function JoinLines(lines: seq<Line>): string {
    if lines == [] then "" else Render(lines[0]) + "\n" + JoinLines(lines[1..])
  }

  /** The canonical document of a collection. */
  function Print(v: Value): string {
    JoinLines(Block(v, 0))
  }

  // ----- Printable trees -----

  predicate PlainKeyChar(c: char) {
    c != ':' && c != '#' && c != '"' && c != '\'' && !IsLineBreak(c)
  }

  /** Keys that need no quotes: no reserved character, no leading space, no leading dash-space. */
  predicate PlainKey(key: string) {
    && key != []
    && (forall i :: 0 <= i < |key| ==> PlainKeyChar(key[i]))
    && !IsPySpace(key[0])
    && !("- " <= key)
  }

  /** Characters that neither open a quote nor start a comment. */
  predicate Bland(s: string) {
    forall i :: 0 <= i < |s| ==> s[i] !in {'"', '\'', '#'}
  }

  predicate NoBreaks(s: string) {
    forall i :: 0 <= i < |s| ==> !IsLineBreak(s[i])
  }

  predicate Tight(s: string) {
    s != "" && !IsPySpace(s[0]) && !IsPySpace(s[|s| - 1]) && !IsJsSpace(s[0]) && !IsJsSpace(s[|s| - 1])
  }

  /** A scalar that is written without quotes. */
  predicate Unquoted(t: string) {
    Tight(t) && Bland(t) && NoBreaks(t)
  }

  /** A scalar between single quotes, in which nothing is escaped. */
  predicate SingleQuoted(t: string) {
    |t| >= 2 && t[0] == '\'' && t[|t| - 1] == '\'' && NoBreaks(t) && forall i :: 0 < i < |t| - 1 ==> t[i] != '\''
  }

  /** As an item of a list the text is not taken for `key: value`. */
  predicate NoEntry(t: string) {
    (t != "" ==> t[|t| - 1] != ':') && forall i :: 0 <= i < |t| - 1 ==> !(t[i] == ':' && t[i + 1] == ' ')
  }

  /** Any text but NUL and the line-break characters other than LF. */
  predicate PrintableText(s: string) {
    forall i :: 0 <= i < |s| ==> s[i] != '\0' && (s[i] == '\n' || !IsLineBreak(s[i]))
  }

  ghost predicate DistinctKeys(entries: seq<Entry>) {
    forall i, j :: 0 <= i < j < |entries| ==> entries[i].key != entries[j].key
  }

  /** Trees of null, booleans, integers, texts, spelt scalars, nonempty sequences and nonempty mappings with
      distinct plain keys. */
  ghost predicate Printable(v: Value)
    decreases v
  {
    match v
    case Null => true
    case Bool(_) => true
    case Int(_) => true
    case Decimal(_) => false
    case Flow(_) => false
    case Str(s) => PrintableText(s)
    case Spelt(text) => Unquoted(text) || SingleQuoted(text)
    case Seq(items) => items != [] && PrintableItems(items)
    case Map(entries) => entries != [] && PrintableEntries(entries) && DistinctKeys(entries)
  }

  ghost predicate PrintableItems(items: seq<Value>)
    decreases items
  {
    forall i :: 0 <= i < |items| ==> Printable(items[i]) && (items[i].Spelt? ==> NoEntry(items[i].text))
  }

  ghost predicate PrintableEntries(entries: seq<Entry>)
    decreases entries
  {
    forall i :: 0 <= i < |entries| ==> PlainKey(entries[i].key) && Printable(entries[i].value)
  }

  // ----- What a print says -----

  /** The tree that a print stands for when `read` says what each spelt scalar is. */
  function Meaning(v: Value, read: string -> Value): Value
    decreases v, 1
  {
    match v
    case Spelt(text) => read(text)
    case Seq(items) => Seq(Meanings(items, read))
    case Map(entries) => Map(EntryMeanings(entries, read))
    case _ => v
  }

  function Meanings(items: seq<Value>, read: string -> Value): (r: seq<Value>)
    ensures |r| == |items|
    decreases items, 0
  {
    if items == [] then [] else [Meaning(items[0], read)] + Meanings(items[1..], read)
  }

  function EntryMeanings(entries: seq<Entry>, read: string -> Value): (r: seq<Entry>)
    ensures |r| == |entries| && forall i :: 0 <= i < |entries| ==> r[i].key == entries[i].key
    decreases entries, 0
  {
    if entries == [] then []
    else [Entry(entries[0].key, Meaning(entries[0].value, read))] + EntryMeanings(entries[1..], read)
  }

  /** No scalar of the tree is spelt. */
  ghost predicate Unspelt(v: Value)
    decreases v
  {
    match v
    case Spelt(_) => false
    case Seq(items) => forall i :: 0 <= i < |items| ==> Unspelt(items[i])
    case Map(entries) => forall i :: 0 <= i < |entries| ==> Unspelt(entries[i].value)
    case _ => true
  }

  lemma {:induction false} UnspeltMeansItself(v: Value, read: string -> Value)
    requires Unspelt(v)
    ensures Meaning(v, read) == v
    decreases v, 1
  {
    match v
    case Seq(items) => UnspeltItems(items, read);
    case Map(entries) => UnspeltEntries(entries, read);
    case _ =>
  }

  lemma {:induction false} UnspeltItems(items: seq<Value>, read: string -> Value)
    requires forall i :: 0 <= i < |items| ==> Unspelt(items[i])
    ensures Meanings(items, read) == items
    decreases items, 0
  {
    if items != [] {
      UnspeltMeansItself(items[0], read);
      UnspeltItems(items[1..], read);
    }
  }

  lemma {:induction false} UnspeltEntries(entries: seq<Entry>, read: string -> Value)
    requires forall i :: 0 <= i < |entries| ==> Unspelt(entries[i].value)
    ensures EntryMeanings(entries, read) == entries
    decreases entries, 0
  {
    if entries != [] {
      UnspeltMeansItself(entries[0].value, read);
      UnspeltEntries(entries[1..], read);
    }
  }
}
