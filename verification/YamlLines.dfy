/**
 What the proofs about both YAML parsers share: the lines of a canonical print, and where a parser meets
 them.
 */
module YamlLines {
  import opened Wrappers
  import opened Text
  import opened YamlTree

  // ----- The lines of a print -----

  lemma IntShape(n: int)
    ensures var t := IntText(n);
            t != [] && forall i :: 0 <= i < |t| ==> t[i] == '-' || IsDigit(t[i])
  {
    var digits := NatText(if n < 0 then -n else n);
    assert IntText(n) == if n < 0 then "-" + digits else digits;
  }

  /** What follows `key:` on the line of an entry. */
  function AfterColon(v: Value): string {
    if v.IsCollection() then "" else " " + ScalarText(v)
  }

  function KeyText(e: Entry): string {
    e.key + ":" + AfterColon(e.value)
  }

  /** The lines below the key of an entry. */
  function Nested(e: Entry, n: nat): seq<Line> {
    if e.value.IsCollection() then Block(e.value, n + 2) else []
  }

  lemma EntryLinesSplit(e: Entry, n: nat)
    ensures EntryLines(e, n) == [Line(n, KeyText(e))] + Nested(e, n)
  {
    assert e.key + ": " + ScalarText(e.value) == e.key + ":" + (" " + ScalarText(e.value));
    assert e.key + ":" + "" == e.key + ":";
  }

  lemma MapLinesSplit(entries: seq<Entry>, n: nat)
    requires entries != []
    ensures MapLines(entries, n) == [Line(n, KeyText(entries[0]))] + (Nested(entries[0], n) + MapLines(entries[1..], n))
  {
    EntryLinesSplit(entries[0], n);
  }

  lemma DashSplit(content: string, rest: seq<Line>, n: nat)
    ensures Dash([Line(n + 2, content)] + rest, n) == [Line(n, "- " + content)] + rest
  {
  }

  lemma BareKeyText(e: Entry)
    requires e.value.Map?
    ensures KeyText(e) == e.key + ":"
  {
  }

  lemma BareKeyNested(e: Entry, n: nat)
    requires e.value.Map?
    ensures Nested(e, n) == MapLines(e.value.entries, n + 2)
  {
  }

  lemma SeqLinesSplit(items: seq<Value>, n: nat)
    requires items != [] && PrintableItems(items)
    ensures SeqLines(items, n) == ItemLines(items[0], n) + SeqLines(items[1..], n)
    ensures Printable(items[0]) && (items[0].Spelt? ==> NoEntry(items[0].text)) && PrintableItems(items[1..])
  {
  }

  /** The first line of a printed item stands at its column. */
  lemma ItemFirst(v: Value, n: nat)
    requires Printable(v)
    ensures ItemLines(v, n) != [] && ItemLines(v, n)[0].indent == n
  {
    if v.Map? {
      MapLinesSplit(v.entries, n + 2);
    }
  }

  function Rendered(lines: seq<Line>): seq<string> {
    if lines == [] then [] else [Render(lines[0])] + Rendered(lines[1..])
  }

  lemma IndexOfStringBound(s: string, pattern: string, k: nat)
    requires k < |s| && pattern <= s[k..]
    ensures IndexOfString(s, pattern) <= k
  {
  }

  // ----- Reading entries -----

  /** Assigns the entries in turn, as a parser that meets them one after the other does. */
  function PutAll(acc: seq<Entry>, entries: seq<Entry>): seq<Entry>
    decreases |entries|
  {
    if entries == [] then acc else PutAll(Put(acc, entries[0].key, entries[0].value), entries[1..])
  }

  lemma {:induction false} PutAllAppends(acc: seq<Entry>, entries: seq<Entry>)
    requires DistinctKeys(acc + entries)
    ensures PutAll(acc, entries) == acc + entries
    decreases |entries|
  {
    if entries == [] {
      assert acc + entries == acc;
    } else {
      var all := acc + entries;
      var e := entries[0];
      assert all[|acc|] == e;
      forall k | 0 <= k < |acc| ensures acc[k].key != e.key {
        assert all[k] == acc[k];
      }
      assert all == (acc + [e]) + entries[1..];
      PutAllAppends(acc + [e], entries[1..]);
    }
  }

  lemma PrintableParts(entries: seq<Entry>)
    requires entries != [] && PrintableEntries(entries)
    ensures PlainKey(entries[0].key) && Printable(entries[0].value) && PrintableEntries(entries[1..])
  {
  }

  lemma PrintableMap(entries: seq<Entry>, read: string -> Value)
    requires Printable(Map(entries))
    ensures entries != [] && PrintableEntries(entries)
    ensures var all := EntryMeanings(entries, read);
            PutAll([], all) == all && PutAll([all[0]], all[1..]) == all
  {
    var all := EntryMeanings(entries, read);
    assert [] + all == all;
    PutAllAppends([], all);
  }

  lemma FirstMeaning(entries: seq<Entry>, read: string -> Value)
    requires entries != []
    ensures var all := EntryMeanings(entries, read);
            && all[0] == Entry(entries[0].key, Meaning(entries[0].value, read))
            && all[1..] == EntryMeanings(entries[1..], read)
  {
  }

  lemma MeaningParts(v: Value, read: string -> Value)
    ensures v.Map? ==> Meaning(v, read) == Map(EntryMeanings(v.entries, read))
    ensures v.Seq? ==> Meaning(v, read) == Seq(Meanings(v.items, read))
    ensures v.Spelt? ==> Meaning(v, read) == read(v.text)
    ensures !v.Map? && !v.Seq? && !v.Spelt? ==> Meaning(v, read) == v
  {
  }

  lemma FirstItemMeaning(items: seq<Value>, read: string -> Value)
    requires items != []
    ensures Meanings(items, read) == [Meaning(items[0], read)] + Meanings(items[1..], read)
  {
  }

  lemma PutAllStep(acc: seq<Entry>, entries: seq<Entry>)
    requires entries != []
    ensures PutAll(acc, entries) == PutAll(Put(acc, entries[0].key, entries[0].value), entries[1..])
  {
  }

  // ----- Where a parser stands -----

  /** The lines of a document as a parser sees them; blank lines that it skips are `None`. */
  type Page = seq<Option<Line>>

  /** The page goes on with the given lines from `i` on. */
  ghost predicate At(page: Page, i: nat, lines: seq<Line>) {
    && i + |lines| <= |page|
    && forall k :: 0 <= k < |lines| ==> page[i + k] == Some(lines[k])
  }

  /** Line `i` is missing, or it is a text line indented less than `n`. */
  predicate Stops(page: Page, i: nat, n: nat) {
    i <= |page| && (i == |page| || (page[i].Some? && page[i].value.indent < n))
  }

  lemma AtLine(page: Page, i: nat, lines: seq<Line>, k: nat)
    requires At(page, i, lines) && k < |lines|
    ensures i + k < |page| && page[i + k] == Some(lines[k])
  {
  }

  lemma AtSplit(page: Page, i: nat, a: seq<Line>, b: seq<Line>)
    requires At(page, i, a + b)
    ensures At(page, i, a) && At(page, i + |a|, b)
  {
    forall k | 0 <= k < |a| ensures page[i + k] == Some(a[k]) {
      assert (a + b)[k] == a[k];
    }
    forall k | 0 <= k < |b| ensures page[i + |a| + k] == Some(b[k]) {
      assert (a + b)[|a| + k] == b[k];
    }
  }

  lemma AtCons(page: Page, i: nat, line: Line, rest: seq<Line>)
    requires At(page, i, [line] + rest)
    ensures i < |page| && page[i] == Some(line) && At(page, i + 1, rest)
  {
    AtSplit(page, i, [line], rest);
    AtLine(page, i, [line], 0);
  }

  lemma StopsWithin(page: Page, i: nat, n: nat, m: nat)
    requires Stops(page, i, n) && n <= m
    ensures Stops(page, i, m) && i <= |page|
  {
  }

  /** The line after an entry is its next sibling or the line that stops the mapping. */
  lemma AfterEntry(page: Page, i: nat, entries: seq<Entry>, n: nat)
    requires At(page, i, MapLines(entries, n)) && Stops(page, i + |MapLines(entries, n)|, n + 1)
    ensures Stops(page, i, n + 1)
  {
    if entries != [] {
      MapLinesSplit(entries, n);
      AtLine(page, i, MapLines(entries, n), 0);
    }
  }

  lemma AfterItem(page: Page, i: nat, items: seq<Value>, n: nat)
    requires PrintableItems(items)
    requires At(page, i, SeqLines(items, n)) && Stops(page, i + |SeqLines(items, n)|, n + 1)
    ensures Stops(page, i, n + 1)
  {
    if items != [] {
      ItemFirst(items[0], n);
      AtLine(page, i, SeqLines(items, n), 0);
    }
  }

  /** The lines of the first entry of a printed mapping and of the others. */
  lemma FirstEntry(page: Page, i: nat, entries: seq<Entry>, n: nat)
    requires entries != []
    requires At(page, i, MapLines(entries, n)) && Stops(page, i + |MapLines(entries, n)|, n + 1)
    ensures |MapLines(entries, n)| == 1 + |Nested(entries[0], n)| + |MapLines(entries[1..], n)|
    ensures i < |page| && page[i] == Some(Line(n, KeyText(entries[0])))
    ensures var next := i + 1 + |Nested(entries[0], n)|;
            && At(page, i + 1, Nested(entries[0], n))
            && At(page, next, MapLines(entries[1..], n))
            && Stops(page, next, n + 1)
  {
    hide *;
    var line := Line(n, KeyText(entries[0]));
    var nested, rest := Nested(entries[0], n), MapLines(entries[1..], n);
    MapLinesSplit(entries, n);
    AtCons(page, i, line, nested + rest);
    AtSplit(page, i + 1, nested, rest);
    AfterEntry(page, i + 1 + |nested|, entries[1..], n);
  }

  /** The lines of a mapping item: its dash line, what is nested below its first key, its other keys. */
  lemma MapItemLines(page: Page, i: nat, entries: seq<Entry>, n: nat)
    requires entries != []
    requires At(page, i, Dash(MapLines(entries, n + 2), n))
    requires Stops(page, i + |MapLines(entries, n + 2)|, n + 1)
    ensures |MapLines(entries, n + 2)| == 1 + |Nested(entries[0], n + 2)| + |MapLines(entries[1..], n + 2)|
    ensures i < |page| && page[i] == Some(Line(n, "- " + KeyText(entries[0])))
    ensures var next := i + 1 + |Nested(entries[0], n + 2)|;
            && At(page, i + 1, Nested(entries[0], n + 2))
            && At(page, next, MapLines(entries[1..], n + 2))
            && Stops(page, next, n + 3)
            && Stops(page, next + |MapLines(entries[1..], n + 2)|, n + 1)
  {
    hide *;
    var line := Line(n, "- " + KeyText(entries[0]));
    var nested, tail := Nested(entries[0], n + 2), MapLines(entries[1..], n + 2);
    MapLinesSplit(entries, n + 2);
    DashSplit(KeyText(entries[0]), nested + tail, n);
    AtCons(page, i, line, nested + tail);
    AtSplit(page, i + 1, nested, tail);
    StopsWithin(page, i + |MapLines(entries, n + 2)|, n + 1, n + 3);
    AfterEntry(page, i + 1 + |nested|, entries[1..], n + 2);
  }

  /** The lines of the first item of a printed sequence and of the others. */
  lemma FirstItem(page: Page, i: nat, items: seq<Value>, n: nat)
    requires items != [] && PrintableItems(items)
    requires At(page, i, SeqLines(items, n)) && Stops(page, i + |SeqLines(items, n)|, n + 1)
    ensures |SeqLines(items, n)| == |ItemLines(items[0], n)| + |SeqLines(items[1..], n)|
    ensures Printable(items[0]) && (items[0].Spelt? ==> NoEntry(items[0].text)) && PrintableItems(items[1..])
    ensures var next := i + |ItemLines(items[0], n)|;
            && At(page, i, ItemLines(items[0], n))
            && At(page, next, SeqLines(items[1..], n))
            && Stops(page, next, n + 1)
  {
    hide *;
    SeqLinesSplit(items, n);
    AtSplit(page, i, ItemLines(items[0], n), SeqLines(items[1..], n));
    AfterItem(page, i + |ItemLines(items[0], n)|, items[1..], n);
  }
}
