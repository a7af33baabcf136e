/** The CSV export of `bets/b-mcp-gateway/src/audit-export.js` and a reader for it (section 2 of RFC 4180). */
module Csv {
  import opened Wrappers

  type Record = seq<string>

  /** An audit row as the export sees it: `None` is JavaScript's null or undefined, and values that are
      no text are given as the text they are converted to. */
  datatype Event = Event(allow: Option<bool>, fields: map<string, string>)

  const CSV_COLUMNS: Record :=
    ["ts", "tenantId", "tool", "allow", "reason", "via", "arguments", "result", "argumentKeysHash", "requestId"]

  const ADMIN_CSV_COLUMNS: Record :=
    ["ts", "tenantId", "tool", "allow", "reason", "via", "requestId"]

  function Field(e: Event, name: string): Option<string> {
    if name in e.fields then Some(e.fields[name]) else None
  }

  function TextOf(v: Option<string>): string {
    if v.Some? then v.value else ""
  }

  /** The text of a cell before escaping. */
  function CellText(e: Event, col: string): string {
    if col == "arguments" then TextOf(if Field(e, col).Some? then Field(e, col) else Field(e, "args"))
    else if col == "allow" then
      match e.allow
      case None => ""
      case Some(b) => if b then "true" else "false"
    else TextOf(Field(e, col))
  }

  function Cells(e: Event, cols: Record): Record {
    if cols == [] then [] else [CellText(e, cols[0])] + Cells(e, cols[1..])
  }

  function Records(events: seq<Event>, cols: Record): seq<Record> {
    if events == [] then [] else [Cells(events[0], cols)] + Records(events[1..], cols)
  }

  // ----- Writing -----

  predicate Special(c: char) {
    c == '"' || c == ',' || c == '\n' || c == '\r'
  }

  predicate Plain(s: string) {
    forall i :: 0 <= i < |s| ==> !Special(s[i])
  }

  /** Doubles every quote. */
  function Doubled(s: string): string {
    if s == [] then [] else (if s[0] == '"' then "\"\"" else [s[0]]) + Doubled(s[1..])
  }

  function Escape(s: string): string {
    if Plain(s) then s else "\"" + Doubled(s) + "\""
  }

  function JoinCells(cells: Record): string {
    if cells == [] then ""
    else if |cells| == 1 then cells[0]
    else cells[0] + "," + JoinCells(cells[1..])
  }

  function Escaped(cells: Record): Record {
    if cells == [] then [] else [Escape(cells[0])] + Escaped(cells[1..])
  }

  function Lines(records: seq<Record>): string {
    if records == [] then "" else JoinCells(Escaped(records[0])) + "\n" + Lines(records[1..])
  }

  /** `eventsToCsv`: the column names as they are, then a line an event. */
  function EventsToCsv(events: seq<Event>, columns: Record): string {
    var cols := if columns == [] then CSV_COLUMNS else columns;
    JoinCells(cols) + "\n" + Lines(Records(events, cols))
  }

  lemma LinesStep(events: seq<Event>, cols: Record)
    requires events != []
    ensures Lines(Records(events, cols)) ==
            (JoinCells(Escaped(Cells(events[0], cols))) + "\n") + Lines(Records(events[1..], cols))
  {
    hide Cells, Escaped, JoinCells;
  }

  method WriteCsv(events: seq<Event>, columns: Record) returns (csv: string)
    ensures csv == EventsToCsv(events, columns)
  {
    hide Cells, Escaped, JoinCells;
    var cols := if |columns| > 0 then columns else CSV_COLUMNS;
    csv := JoinCells(cols) + "\n";
    for k := 0 to |events|
      invariant csv + Lines(Records(events[k..], cols)) == EventsToCsv(events, columns)
    {
      var row := JoinCells(Escaped(Cells(events[k], cols))) + "\n";
      LinesStep(events[k..], cols);
      assert events[k..][1..] == events[k + 1..];
      assert (csv + row) + Lines(Records(events[k + 1..], cols)) == csv + (row + Lines(Records(events[k + 1..], cols)));
      csv := csv + row;
    }
    assert csv + "" == csv;
  }

  // ----- Reading -----

  /** The characters that a cell without quotes cannot hold. */
  predicate Structural(c: char) {
    c in {'"', ',', '\n', '\r'}
  }

  /** A cell and the text after it. Outside quotes a cell holds no structural character. */
  function ReadCell(text: string): Option<(string, string)> {
    if text != "" && text[0] == '"' then ReadQuoted(text[1..]) else Some(ReadPlain(text))
  }

  function ReadPlain(text: string): (r: (string, string))
    ensures |r.1| <= |text|
  {
    if text == "" || Structural(text[0]) then ("", text)
    else var (cell, rest) := ReadPlain(text[1..]); ([text[0]] + cell, rest)
  }

  function ReadQuoted(text: string): (r: Option<(string, string)>)
    ensures r.Some? ==> |r.value.1| < |text|
  {
    if text == "" then None
    else if text[0] != '"' then
      match ReadQuoted(text[1..])
      case None => None
      case Some((cell, rest)) => Some(([text[0]] + cell, rest))
    else if |text| >= 2 && text[1] == '"' then
      match ReadQuoted(text[2..])
      case None => None
      case Some((cell, rest)) => Some(("\"" + cell, rest))
    else Some(("", text[1..]))
  }

  /** The cells up to the end of the record and the text after it. A record ends at LF, CR LF or the end. */
  function ReadRecord(text: string): (r: Option<(Record, string)>)
    ensures r.Some? ==> |r.value.1| <= |text| && (text != "" ==> |r.value.1| < |text|)
    decreases |text|
  {
    match ReadCell(text)
    case None => None
    case Some((cell, rest)) =>
      if rest == "" then Some(([cell], ""))
      else if rest[0] == '\n' then Some(([cell], rest[1..]))
      else if "\r\n" <= rest then Some(([cell], rest[2..]))
      else if rest[0] != ',' then None
      else
        match ReadRecord(rest[1..])
        case None => None
        case Some((cells, end)) => Some(([cell] + cells, end))
  }

  function ReadCsv(text: string): Option<seq<Record>>
    decreases |text|
  {
    if text == "" then Some([])
    else
      match ReadRecord(text)
      case None => None
      case Some((record, rest)) =>
        match ReadCsv(rest)
        case None => None
        case Some(records) => Some([record] + records)
  }

  // ----- Round trip -----

  /** A text that needs no quotes. */
  predicate Bare(s: string) {
    forall i :: 0 <= i < |s| ==> !Structural(s[i])
  }

  lemma PlainIsBare(s: string)
    ensures Plain(s) == Bare(s)
  {
    assert forall c: char :: Special(c) == Structural(c);
  }

  lemma {:induction false} ReadPlainInverts(s: string, rest: string)
    requires Bare(s) && rest != "" && Structural(rest[0])
    ensures ReadPlain(s + rest) == (s, rest)
  {
    if s == "" {
      assert s + rest == rest;
    } else {
      assert (s + rest)[1..] == s[1..] + rest;
      ReadPlainInverts(s[1..], rest);
      assert s == [s[0]] + s[1..];
    }
  }

  lemma {:induction false} ReadQuotedInverts(s: string, rest: string)
    requires rest != "" && rest[0] != '"'
    ensures ReadQuoted(Doubled(s) + "\"" + rest) == Some((s, rest))
  {
    hide *;
    if s == "" {
      QuoteCloses(rest);
    } else {
      ReadQuotedInverts(s[1..], rest);
      QuotedStep(s, rest);
      assert s == [s[0]] + s[1..];
    }
  }

  lemma QuoteCloses(rest: string)
    requires rest != "" && rest[0] != '"'
    ensures ReadQuoted(Doubled("") + "\"" + rest) == Some(("", rest))
  {
    var text := Doubled("") + "\"" + rest;
    assert text == "\"" + rest && text[1..] == rest;
  }

  /** One more character in front of a quoted text. */
  lemma QuotedStep(s: string, rest: string)
    requires s != ""
    ensures var tail := ReadQuoted(Doubled(s[1..]) + "\"" + rest);
            tail.Some? ==> ReadQuoted(Doubled(s) + "\"" + rest) == Some(([s[0]] + tail.value.0, tail.value.1))
  {
    var text, tail := Doubled(s) + "\"" + rest, Doubled(s[1..]) + "\"" + rest;
    if s[0] == '"' {
      assert text == "\"\"" + tail && text[2..] == tail;
    } else {
      assert text == [s[0]] + tail && text[1..] == tail;
    }
  }

  lemma ReadCellInverts(s: string, rest: string)
    requires rest != "" && (rest[0] == ',' || rest[0] == '\n')
    ensures ReadCell(Escape(s) + rest) == Some((s, rest))
  {
    hide ReadPlain, ReadQuoted, Doubled, Plain, Bare;
    var text := Escape(s) + rest;
    PlainIsBare(s);
    if Plain(s) {
      ReadPlainInverts(s, rest);
      PlainHasNoQuote(s);
      assert text[0] != '"';
    } else {
      ReadQuotedInverts(s, rest);
      assert text == "\"" + (Doubled(s) + "\"" + rest);
      assert text[1..] == Doubled(s) + "\"" + rest;
    }
  }

  lemma PlainHasNoQuote(s: string)
    requires Plain(s)
    ensures s != "" ==> s[0] != '"'
  {
    assert s != "" ==> !Special(s[0]);
  }

  lemma JoinEscaped(cells: Record)
    requires cells != []
    ensures JoinCells(Escaped(cells)) ==
            if |cells| == 1 then Escape(cells[0]) else Escape(cells[0]) + "," + JoinCells(Escaped(cells[1..]))
  {
    hide Escape;
    assert Escaped(cells)[1..] == Escaped(cells[1..]);
    if |cells| > 1 {
      assert Escaped(cells[1..]) != [];
    } else {
      assert Escaped(cells[1..]) == [];
    }
  }

  lemma RecordStep(text: string, cell: string, rest: string)
    requires rest != "" && ReadCell(text) == Some((cell, rest))
    ensures rest[0] == '\n' ==> ReadRecord(text) == Some(([cell], rest[1..]))
    ensures rest[0] == ',' && ReadRecord(rest[1..]).Some? ==>
              var r := ReadRecord(rest[1..]).value; ReadRecord(text) == Some(([cell] + r.0, r.1))
  {
    hide ReadCell;
  }

  lemma {:induction false} ReadRecordInverts(cells: Record, rest: string)
    requires cells != []
    ensures ReadRecord(JoinCells(Escaped(cells)) + "\n" + rest) == Some((cells, rest))
  {
    hide *;
    var text := JoinCells(Escaped(cells)) + "\n" + rest;
    assert cells == [cells[0]] + cells[1..];
    JoinEscaped(cells);
    if |cells| == 1 {
      assert cells == [cells[0]];
      assert text == Escape(cells[0]) + ("\n" + rest);
      ReadCellInverts(cells[0], "\n" + rest);
      RecordStep(text, cells[0], "\n" + rest);
      assert ("\n" + rest)[1..] == rest;
    } else {
      var tail := JoinCells(Escaped(cells[1..])) + "\n" + rest;
      assert text == Escape(cells[0]) + ("," + tail);
      ReadCellInverts(cells[0], "," + tail);
      ReadRecordInverts(cells[1..], rest);
      RecordStep(text, cells[0], "," + tail);
      assert ("," + tail)[1..] == tail;
    }
  }

  lemma {:induction false} ReadLinesInverts(records: seq<Record>)
    requires forall k :: 0 <= k < |records| ==> records[k] != []
    ensures ReadCsv(Lines(records)) == Some(records)
    decreases |records|
  {
    hide ReadRecord, Escaped, JoinCells;
    if records != [] {
      var rest := Lines(records[1..]);
      ReadRecordInverts(records[0], rest);
      ReadLinesInverts(records[1..]);
      assert records == [records[0]] + records[1..];
    }
  }

  predicate PlainCells(cells: Record) {
    forall k :: 0 <= k < |cells| ==> Bare(cells[k])
  }

  lemma {:induction false} PlainEscapes(cells: Record)
    requires PlainCells(cells)
    ensures Escaped(cells) == cells
  {
    if cells != [] {
      PlainIsBare(cells[0]);
      PlainEscapes(cells[1..]);
    }
  }

  lemma {:induction false} RecordsHaveCells(events: seq<Event>, cols: Record)
    requires cols != []
    ensures forall k :: 0 <= k < |Records(events, cols)| ==> Records(events, cols)[k] != []
  {
    if events != [] {
      RecordsHaveCells(events[1..], cols);
    }
  }

  /** With plain column names, every cell of every exported event is read back, whatever it contains. */
  lemma ReadInvertsWrite(events: seq<Event>, cols: Record)
    requires cols != [] && PlainCells(cols)
    ensures ReadCsv(EventsToCsv(events, cols)) == Some([cols] + Records(events, cols))
  {
    hide ReadCsv, JoinCells, Escaped, Records, PlainCells;
    var all := [cols] + Records(events, cols);
    PlainEscapes(cols);
    RecordsHaveCells(events, cols);
    assert all[1..] == Records(events, cols);
    ReadLinesInverts(all);
  }

  // ----- Column names are written unescaped -----

  lemma {:induction false} QuotedText(text: string)
    ensures var r := ReadQuoted(text);
            r.Some? ==> text == Doubled(r.value.0) + "\"" + r.value.1
  {
    if text != "" && text[0] != '"' {
      QuotedText(text[1..]);
      assert text == [text[0]] + text[1..];
      var r := ReadQuoted(text[1..]);
      if r.Some? {
        assert ([text[0]] + r.value.0)[1..] == r.value.0;
      }
    } else if |text| >= 2 && text[1] == '"' {
      QuotedText(text[2..]);
      assert text == "\"\"" + text[2..];
      var r := ReadQuoted(text[2..]);
      if r.Some? {
        assert ("\"" + r.value.0)[1..] == r.value.0;
      }
    } else if text != "" {
      assert text == "\"" + text[1..];
    }
  }

  lemma {:induction false} DoubledQuotes(s: string, k: nat)
    requires k <= |s| && forall i :: 0 <= i < k ==> s[i] == '"'
    ensures 2 * k <= |Doubled(s)| && forall i :: 0 <= i < 2 * k ==> Doubled(s)[i] == '"'
  {
    if k > 0 {
      assert forall i :: 0 <= i < k - 1 ==> s[1..][i] == s[i + 1];
      DoubledQuotes(s[1..], k - 1);
    }
  }

  /** A text that starts both with a quoted cell and with the cell itself goes on with quotes. */
  lemma {:induction false} QuotesFill(text: string, cell: string, k: nat)
    requires k <= |cell| < |text| && text[0] == '"' && |Doubled(cell)| < |text|
    requires forall i :: 0 <= i < |cell| ==> text[i] == cell[i]
    requires forall i :: 0 <= i < |Doubled(cell)| ==> text[i + 1] == Doubled(cell)[i]
    ensures forall i :: 0 <= i <= k ==> text[i] == '"'
  {
    if k > 0 {
      QuotesFill(text, cell, k - 1);
      DoubledQuotes(cell, k);
      assert text[(k - 1) + 1] == Doubled(cell)[k - 1];
    }
  }

  /** A text that is taken for a quoted cell never reads as itself. */
  lemma QuotedIsNotItself(cell: string, tail: string, rest: string)
    requires cell != "" && cell[0] == '"' && tail != "" && tail[0] != '"'
    ensures ReadQuoted((cell + tail)[1..]) != Some((cell, rest))
  {
    var text := cell + tail;
    assert text[|cell|] == tail[0];
    if ReadQuoted(text[1..]) == Some((cell, rest)) {
      QuotedText(text[1..]);
      assert forall i :: 0 <= i < |Doubled(cell)| ==> text[i + 1] == text[1..][i];
      DoubledQuotes(cell, 0);
      QuotesFill(text, cell, |cell|);
    }
  }

  lemma {:induction false} PlainText(text: string)
    ensures var (cell, rest) := ReadPlain(text); Bare(cell) && text == cell + rest
  {
    if text != "" && !Structural(text[0]) {
      PlainText(text[1..]);
    }
  }

  lemma CellReadsAsItself(cell: string, tail: string, rest: string)
    requires tail != "" && (tail[0] == ',' || tail[0] == '\n')
    requires ReadCell(cell + tail) == Some((cell, rest))
    ensures Bare(cell) && rest == tail
  {
    var text := cell + tail;
    if text[0] == '"' {
      assert cell != "" && cell[0] == '"';
      QuotedIsNotItself(cell, tail, rest);
    } else {
      PlainText(text);
      assert text[|cell|..] == tail;
    }
  }

  lemma {:induction false} HeaderReadsAsItself(cols: Record, tail: string, rest: string)
    requires cols != [] && ReadRecord(JoinCells(cols) + "\n" + tail) == Some((cols, rest))
    ensures PlainCells(cols)
    decreases |cols|
  {
    hide ReadCell, Bare;
    var text := JoinCells(cols) + "\n" + tail;
    var after := if |cols| == 1 then "\n" + tail else "," + (JoinCells(cols[1..]) + "\n" + tail);
    assert text == cols[0] + after;
    var cellRest := ReadCell(text).value.1;
    assert ReadCell(text).value.0 == cols[0];
    CellReadsAsItself(cols[0], after, cellRest);
    if |cols| > 1 {
      assert after[1..] == JoinCells(cols[1..]) + "\n" + tail;
      var r := ReadRecord(after[1..]);
      assert cols == [cols[0]] + r.value.0;
      assert cols[1..] == r.value.0;
      HeaderReadsAsItself(cols[1..], tail, rest);
    }
  }

  /** Main result: for arbitrary cell texts, a reader recovers the column names and every cell of every
      event exactly when no column name contains a quote, a comma or a line-break character. */
  lemma RoundTripIffPlainColumns(events: seq<Event>, cols: Record)
    requires cols != []
    ensures ReadCsv(EventsToCsv(events, cols)) == Some([cols] + Records(events, cols)) <==> PlainCells(cols)
  {
    hide ReadRecord, JoinCells, Records, Lines, PlainCells;
    if PlainCells(cols) {
      ReadInvertsWrite(events, cols);
    }
    if ReadCsv(EventsToCsv(events, cols)) == Some([cols] + Records(events, cols)) {
      var (record, rest) := ReadRecord(EventsToCsv(events, cols)).value;
      assert record == ([cols] + Records(events, cols))[0];
      HeaderReadsAsItself(cols, Lines(Records(events, cols)), rest);
    }
  }

  // ----- What an export says -----

  function Shown(e: Event, name: string): string {
    if name in e.fields then e.fields[name] else ""
  }

  function ShownDecision(e: Event): string {
    if e.allow == Some(true) then "true" else if e.allow == Some(false) then "false" else ""
  }

  /** The record of a full export; older events have `args` in place of `arguments`. */
  function FullRecord(e: Event): Record {
    [Shown(e, "ts"), Shown(e, "tenantId"), Shown(e, "tool"), ShownDecision(e), Shown(e, "reason"), Shown(e, "via"),
     Shown(e, if "arguments" in e.fields then "arguments" else "args"), Shown(e, "result"),
     Shown(e, "argumentKeysHash"), Shown(e, "requestId")]
  }

  function AdminRecord(e: Event): Record {
    [Shown(e, "ts"), Shown(e, "tenantId"), Shown(e, "tool"), ShownDecision(e), Shown(e, "reason"), Shown(e, "via"),
     Shown(e, "requestId")]
  }

  lemma CellIsShown(e: Event, col: string)
    ensures CellText(e, col)
         == if col == "allow" then ShownDecision(e)
            else if col == "arguments" then Shown(e, if "arguments" in e.fields then "arguments" else "args")
            else Shown(e, col)
  {
  }

  /** Cells one by one. */
  function CellList(e: Event, cols: Record): Record {
    seq(|cols|, k requires 0 <= k < |cols| => CellText(e, cols[k]))
  }

  lemma {:induction false} CellsAreList(e: Event, cols: Record)
    ensures Cells(e, cols) == CellList(e, cols)
  {
    hide CellText;
    if cols != [] {
      CellsAreList(e, cols[1..]);
    }
  }

  lemma FullCells(e: Event)
    ensures Cells(e, CSV_COLUMNS) == FullRecord(e)
  {
    hide CellText, Shown, ShownDecision;
    CellsAreList(e, CSV_COLUMNS);
    forall k | 0 <= k < |CSV_COLUMNS| ensures CellList(e, CSV_COLUMNS)[k] == FullRecord(e)[k] {
      CellIsShown(e, CSV_COLUMNS[k]);
    }
  }

  lemma AdminCells(e: Event)
    ensures Cells(e, ADMIN_CSV_COLUMNS) == AdminRecord(e)
  {
    hide CellText, Shown, ShownDecision;
    CellsAreList(e, ADMIN_CSV_COLUMNS);
    forall k | 0 <= k < |ADMIN_CSV_COLUMNS| ensures CellList(e, ADMIN_CSV_COLUMNS)[k] == AdminRecord(e)[k] {
      CellIsShown(e, ADMIN_CSV_COLUMNS[k]);
    }
  }

  lemma {:induction false} RecordAt(events: seq<Event>, cols: Record, k: nat)
    requires k < |events|
    ensures |Records(events, cols)| == |events| && Records(events, cols)[k] == Cells(events[k], cols)
  {
    hide Cells;
    if k > 0 {
      RecordAt(events[1..], cols, k - 1);
    } else {
      RecordsLength(events, cols);
    }
  }

  lemma {:induction false} RecordsLength(events: seq<Event>, cols: Record)
    ensures |Records(events, cols)| == |events|
  {
    if events != [] {
      RecordsLength(events[1..], cols);
    }
  }

  lemma HeadersArePlain()
    ensures PlainCells(CSV_COLUMNS) && PlainCells(ADMIN_CSV_COLUMNS)
  {
    hide PlainCells, CSV_COLUMNS, ADMIN_CSV_COLUMNS;
    ExportHeadersArePlain();
    AdminHeadersArePlain();
  }

  lemma ShortNamesAreBare()
    ensures Bare("ts") && Bare("tool") && Bare("allow") && Bare("via") && Bare("reason") && Bare("result")
  {
  }

  lemma LongNamesAreBare()
    ensures Bare("tenantId") && Bare("arguments") && Bare("argumentKeysHash") && Bare("requestId")
  {
  }

  lemma ExportHeadersArePlain()
    ensures PlainCells(CSV_COLUMNS)
  {
    hide Bare;
    ShortNamesAreBare();
    LongNamesAreBare();
  }

  lemma AdminHeadersArePlain()
    ensures PlainCells(ADMIN_CSV_COLUMNS)
  {
    hide Bare;
    ShortNamesAreBare();
    LongNamesAreBare();
  }

  /** Main result: both exports of the gateway are always read back, the header with its column names and for each
      event, in order, the record of its values. */
  lemma GatewayExportsReadBack(events: seq<Event>)
    ensures var full := ReadCsv(EventsToCsv(events, []));
            && full.Some? && |full.value| == |events| + 1
            && full.value[0] == ["ts", "tenantId", "tool", "allow", "reason", "via", "arguments", "result",
                                 "argumentKeysHash", "requestId"]
            && forall k :: 0 <= k < |events| ==> full.value[k + 1] == FullRecord(events[k])
    ensures var admin := ReadCsv(EventsToCsv(events, ADMIN_CSV_COLUMNS));
            && admin.Some? && |admin.value| == |events| + 1
            && admin.value[0] == ["ts", "tenantId", "tool", "allow", "reason", "via", "requestId"]
            && forall k :: 0 <= k < |events| ==> admin.value[k + 1] == AdminRecord(events[k])
  {
    hide ReadCsv, JoinCells, Records, Lines, PlainCells, FullRecord, AdminRecord;
    HeadersArePlain();
    ReadInvertsWrite(events, CSV_COLUMNS);
    ReadInvertsWrite(events, ADMIN_CSV_COLUMNS);
    assert EventsToCsv(events, []) == EventsToCsv(events, CSV_COLUMNS);
    RecordsLength(events, CSV_COLUMNS);
    RecordsLength(events, ADMIN_CSV_COLUMNS);
    forall k | 0 <= k < |events|
      ensures Records(events, CSV_COLUMNS)[k] == FullRecord(events[k])
      ensures Records(events, ADMIN_CSV_COLUMNS)[k] == AdminRecord(events[k])
    {
      RecordAt(events, CSV_COLUMNS, k);
      RecordAt(events, ADMIN_CSV_COLUMNS, k);
      FullCells(events[k]);
      AdminCells(events[k]);
    }
  }
}
