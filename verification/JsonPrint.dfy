/** JSON documents written out, with any blanks, escapes and number forms that RFC 8259 allows: the recogniser of
    `Json` accepts exactly these, and the loader of the SDK generator takes every object and array. */
module JsonPrint {
  import opened Wrappers
  import opened Text
  import opened YamlTree
  import opened SdkYaml
  import opened Json

  // ----- Written documents -----

  /** One character of a string as it is written: itself, after a backslash, or by four hexadecimal digits. */
  datatype Piece = Itself(c: char) | Escaped(c: char) | Coded(hex: string)

  /** The parts of a number; the sign of the exponent may be missing. */
  datatype Number = Number(minus: bool, whole: string, fraction: Option<string>, exponent: Option<Exponent>)

  datatype Exponent = Exponent(letter: char, sign: string, digits: string)

  /** A value with the blanks between its tokens. */
  datatype Tree =
    | Word(word: string)
    | Num(number: Number)
    | Text(pieces: seq<Piece>)
    | Arr(empty: string, elements: seq<Element>)
    | Obj(empty: string, members: seq<Member>)

  datatype Element = Element(before: string, value: Tree, after: string)

  datatype Member = Member(before: string, name: seq<Piece>, colonBefore: string, colonAfter: string, value: Tree,
                           after: string)

  predicate Blank(s: string) {
    forall k :: 0 <= k < |s| ==> s[k] == ' ' || s[k] == '\t' || s[k] == '\n' || s[k] == '\r'
  }

  predicate Digits(s: string) {
    s != "" && forall k :: 0 <= k < |s| ==> '0' <= s[k] <= '9'
  }

  predicate Hex(s: string) {
    |s| == 4 && forall k :: 0 <= k < 4 ==> '0' <= s[k] <= '9' || 'a' <= s[k] <= 'f' || 'A' <= s[k] <= 'F'
  }

  predicate GoodPiece(p: Piece) {
    match p
    case Itself(c) => c >= ' ' && c != '"' && c != '\\'
    case Escaped(c) => c in "\"\\/bfnrt"
    case Coded(hex) => Hex(hex)
  }

  predicate GoodPieces(pieces: seq<Piece>) {
    forall k :: 0 <= k < |pieces| ==> GoodPiece(pieces[k])
  }

  predicate GoodExponent(e: Exponent) {
    (e.letter == 'e' || e.letter == 'E') && (e.sign == "" || e.sign == "+" || e.sign == "-") && Digits(e.digits)
  }

  predicate GoodNumber(n: Number) {
    && Digits(n.whole) && (n.whole[0] == '0' ==> |n.whole| == 1)
    && (n.fraction.Some? ==> Digits(n.fraction.value))
    && (n.exponent.Some? ==> GoodExponent(n.exponent.value))
  }

  ghost predicate Good(v: Tree)
    decreases v
  {
    match v
    case Word(word) => word == "true" || word == "false" || word == "null"
    case Num(number) => GoodNumber(number)
    case Text(pieces) => GoodPieces(pieces)
    case Arr(empty, elements) => Blank(empty) && GoodElements(elements)
    case Obj(empty, members) => Blank(empty) && GoodMembers(members)
  }

  ghost predicate GoodElements(elements: seq<Element>)
    decreases elements
  {
    forall k :: 0 <= k < |elements| ==>
      Blank(elements[k].before) && Good(elements[k].value) && Blank(elements[k].after)
  }

  ghost predicate GoodMembers(members: seq<Member>)
    decreases members
  {
    forall k :: 0 <= k < |members| ==>
      && Blank(members[k].before) && GoodPieces(members[k].name) && Blank(members[k].colonBefore)
      && Blank(members[k].colonAfter) && Good(members[k].value) && Blank(members[k].after)
  }

  function PieceText(p: Piece): string {
    match p
    case Itself(c) => [c]
    case Escaped(c) => ['\\', c]
    case Coded(hex) => "\\u" + hex
  }

  function PiecesText(pieces: seq<Piece>): string {
    if pieces == [] then "\"" else PieceText(pieces[0]) + PiecesText(pieces[1..])
  }

  function ExponentText(e: Option<Exponent>): string {
    if e.None? then "" else [e.value.letter] + (e.value.sign + e.value.digits)
  }

  function FractionText(f: Option<string>): string {
    if f.None? then "" else "." + f.value
  }

  function MinusText(minus: bool): string {
    if minus then "-" else ""
  }

  function NumberText(n: Number): string {
    MinusText(n.minus) + (n.whole + (FractionText(n.fraction) + ExponentText(n.exponent)))
  }

  function TextOf(v: Tree): string
    decreases v, 1
  {
    match v
    case Word(word) => word
    case Num(number) => NumberText(number)
    case Text(pieces) => "\"" + PiecesText(pieces)
    case Arr(empty, elements) =>
      if elements == [] then "[" + (empty + "]") else "[" + (elements[0].before + ElementsText(elements))
    case Obj(empty, members) =>
      if members == [] then "{" + (empty + "}") else "{" + (members[0].before + MembersText(members))
  }

  /** The elements from the first value on, the closing bracket included. */
  function ElementsText(elements: seq<Element>): string
    requires elements != []
    decreases elements, 1
  {
    TextOf(elements[0].value) + (elements[0].after + ElementsTail(elements))
  }

  function ElementsTail(elements: seq<Element>): string
    requires elements != []
    decreases elements, 0
  {
    if |elements| == 1 then "]" else "," + (elements[1].before + ElementsText(elements[1..]))
  }

  /** The members from the first name on, the closing brace included. */
  function MembersText(members: seq<Member>): string
    requires members != []
    decreases members, 2
  {
    "\"" + (PiecesText(members[0].name) + (members[0].colonBefore + ColonText(members)))
  }

  function ColonText(members: seq<Member>): string
    requires members != []
    decreases members, 1
  {
    ":" + (members[0].colonAfter + (TextOf(members[0].value) + (members[0].after + MembersTail(members))))
  }

  function MembersTail(members: seq<Member>): string
    requires members != []
    decreases members, 0
  {
    if |members| == 1 then "}" else "," + (members[1].before + MembersText(members[1..]))
  }

  // ----- Texts inside a text -----

  predicate Has(t: string, i: nat, s: string) {
    i + |s| <= |t| && t[i..i + |s|] == s
  }

  lemma HasSplit(t: string, i: nat, a: string, b: string)
    requires Has(t, i, a + b)
    ensures Has(t, i, a) && Has(t, i + |a|, b)
  {
    var s := t[i..i + |a + b|];
    assert s[..|a|] == a && s[|a|..] == b;
    assert t[i..i + |a|] == s[..|a|];
    assert t[i + |a|..i + |a| + |b|] == s[|a|..];
  }

  lemma HasJoin(t: string, i: nat, a: string, b: string)
    requires Has(t, i, a) && Has(t, i + |a|, b)
    ensures Has(t, i, a + b)
  {
    assert t[i..i + |a + b|] == t[i..i + |a|] + t[i + |a|..i + |a| + |b|];
  }

  lemma HasAt(t: string, i: nat, s: string, k: nat)
    requires Has(t, i, s) && k < |s|
    ensures i + k < |t| && t[i + k] == s[k]
  {
    assert t[i..i + |s|][k] == t[i + k];
  }

  lemma HasChar(t: string, i: nat, c: char)
    requires i < |t| && t[i] == c
    ensures Has(t, i, [c])
  {
  }

  lemma HasSlice(t: string, i: nat, j: nat)
    requires i <= j <= |t|
    ensures Has(t, i, t[i..j])
  {
  }

  lemma {:induction false} SkipsBlanks(t: string, i: nat, s: string)
    requires Has(t, i, s) && Blank(s) && (i + |s| == |t| || !IsBlank(t[i + |s|]))
    ensures SkipBlanks(t, i) == i + |s|
    decreases |s|
  {
    if s != "" {
      HasAt(t, i, s, 0);
      assert s == [s[0]] + s[1..];
      HasSplit(t, i, [s[0]], s[1..]);
      SkipsBlanks(t, i + 1, s[1..]);
    }
  }

  lemma {:induction false} SkipsDigits(t: string, i: nat, s: string)
    requires Has(t, i, s) && Digits(s) && (i + |s| == |t| || !IsDigit(t[i + |s|]))
    ensures DigitsEnd(t, i) == Some(i + |s|)
  {
    SkipsSomeDigits(t, i, s);
  }

  lemma {:induction false} SkipsSomeDigits(t: string, i: nat, s: string)
    requires Has(t, i, s) && AllDigits(s) && (i + |s| == |t| || !IsDigit(t[i + |s|]))
    ensures SkipDigits(t, i) == i + |s|
    decreases |s|
  {
    if s != "" {
      HasAt(t, i, s, 0);
      assert s == [s[0]] + s[1..];
      HasSplit(t, i, [s[0]], s[1..]);
      SkipsSomeDigits(t, i + 1, s[1..]);
    }
  }

  // ----- The recogniser accepts what is written -----

  /** What may follow a value: nothing, a blank, or a token that ends an element or a member. */
  predicate Delimited(t: string, i: nat) {
    i == |t| || (i < |t| && (IsBlank(t[i]) || t[i] in ",]}"))
  }

  lemma PieceReads(t: string, i: nat, p: Piece)
    requires GoodPiece(p) && Has(t, i, PieceText(p))
    ensures StringEnd(t, i) == StringEnd(t, i + |PieceText(p)|)
  {
    var s := PieceText(p);
    HasAt(t, i, s, 0);
    if |s| > 1 {
      HasAt(t, i, s, 1);
    }
    if p.Coded? {
      forall k | i + 2 <= k < i + 6 ensures IsHexDigit(t[k]) {
        HasAt(t, i, s, k - i);
        assert s[k - i] == p.hex[k - i - 2];
      }
    }
  }

  lemma {:induction false} PiecesRead(t: string, i: nat, pieces: seq<Piece>)
    requires GoodPieces(pieces) && Has(t, i, PiecesText(pieces))
    ensures StringEnd(t, i) == Some(i + |PiecesText(pieces)|)
    decreases |pieces|
  {
    hide GoodPiece, PieceText;
    if pieces == [] {
      HasAt(t, i, "\"", 0);
    } else {
      HasSplit(t, i, PieceText(pieces[0]), PiecesText(pieces[1..]));
      PieceReads(t, i, pieces[0]);
      PiecesRead(t, i + |PieceText(pieces[0])|, pieces[1..]);
    }
  }

  /** Where the parts of an exponent stand. */
  lemma ExponentPlaces(t: string, i: nat, e: Exponent)
    requires Has(t, i, [e.letter] + (e.sign + e.digits)) && GoodExponent(e)
    ensures var start := i + 1 + |e.sign|;
            && start < |t| && t[i] == e.letter && Has(t, start, e.digits) && IsDigit(t[start])
            && (e.sign != "" ==> t[i + 1] == e.sign[0])
  {
    hide Has;
    HasSplit(t, i, [e.letter], e.sign + e.digits);
    HasAt(t, i, [e.letter], 0);
    HasSplit(t, i + 1, e.sign, e.digits);
    HasAt(t, i + 1 + |e.sign|, e.digits, 0);
    if e.sign != "" {
      HasAt(t, i + 1, e.sign, 0);
    }
  }

  lemma ExponentStarts(t: string, i: nat, e: Exponent)
    requires GoodExponent(e)
    requires var start := i + 1 + |e.sign|;
             && start < |t| && t[i] == e.letter && IsDigit(t[start]) && (e.sign != "" ==> t[i + 1] == e.sign[0])
    ensures ExponentEnd(t, i) == DigitsEnd(t, i + 1 + |e.sign|)
  {
    hide DigitsEnd, Digits;
  }

  lemma ExponentTextIs(e: Exponent)
    ensures ExponentText(Some(e)) == [e.letter] + (e.sign + e.digits)
    ensures |ExponentText(Some(e))| == 1 + |e.sign| + |e.digits|
  {
  }

  lemma GoodExponentParts(e: Exponent)
    requires GoodExponent(e)
    ensures Digits(e.digits)
  {
  }

  lemma DelimitedIsNoDigit(t: string, i: nat)
    requires Delimited(t, i)
    ensures i <= |t| && (i == |t| || !IsDigit(t[i]))
  {
  }

  lemma ExponentReads(t: string, i: nat, e: Option<Exponent>)
    requires Has(t, i, ExponentText(e)) && Delimited(t, i + |ExponentText(e)|)
    requires e.Some? ==> GoodExponent(e.value)
    ensures ExponentEnd(t, i) == Some(i + |ExponentText(e)|)
  {
    hide *;
    HasIn(t, i, ExponentText(e));
    if e == None {
      NoExponentReads(t, i);
    } else {
      var start := i + 1 + |e.value.sign|;
      assert e == Some(e.value);
      ExponentTextIs(e.value);
      GoodExponentParts(e.value);
      ExponentPlaces(t, i, e.value);
      ExponentStarts(t, i, e.value);
      DelimitedIsNoDigit(t, start + |e.value.digits|);
      SkipsDigits(t, start, e.value.digits);
    }
  }

  lemma NoExponentReads(t: string, i: nat)
    requires Delimited(t, i + |ExponentText(None)|)
    ensures ExponentText(None) == "" && ExponentEnd(t, i) == Some(i)
  {
    hide DigitsEnd;
  }

  lemma FractionReads(t: string, i: nat, f: Option<string>)
    requires Has(t, i, FractionText(f)) && (f.Some? ==> Digits(f.value))
    requires var end := i + |FractionText(f)|; end == |t| || (end < |t| && !IsDigit(t[end]) && t[end] != '.')
    ensures FractionEnd(t, i) == Some(i + |FractionText(f)|)
  {
    hide DigitsEnd, Has, Digits, IsDigit;
    if f.Some? {
      HasSplit(t, i, ".", f.value);
      HasAt(t, i, ".", 0);
      SkipsDigits(t, i + 1, f.value);
    }
  }

  lemma WholeReads(t: string, i: nat, whole: string)
    requires Has(t, i, whole) && Digits(whole) && (whole[0] == '0' ==> |whole| == 1)
    requires i + |whole| == |t| || !IsDigit(t[i + |whole|])
    ensures IntegerEnd(t, i) == Some(i + |whole|)
  {
    hide DigitsEnd;
    HasAt(t, i, whole, 0);
    SkipsDigits(t, i, whole);
  }

  /** The first character of what follows the whole part or the fraction. */
  lemma TailStart(t: string, i: nat, e: Option<Exponent>)
    requires Has(t, i, ExponentText(e)) && Delimited(t, i + |ExponentText(e)|)
    requires e.Some? ==> GoodExponent(e.value)
    ensures i == |t| || (i < |t| && !IsDigit(t[i]) && t[i] != '.')
  {
    if e.Some? {
      HasAt(t, i, ExponentText(e), 0);
    }
  }

  lemma FractionStart(t: string, i: nat, f: Option<string>)
    requires Has(t, i, FractionText(f)) && i + |FractionText(f)| <= |t|
    requires f.None? ==> i == |t| || !IsDigit(t[i])
    ensures i == |t| || !IsDigit(t[i])
  {
    if f.Some? {
      HasAt(t, i, FractionText(f), 0);
    }
  }

  lemma MinusReads(t: string, i: nat, minus: bool)
    requires Has(t, i, MinusText(minus))
    requires var start := i + |MinusText(minus)|; start < |t| && IsDigit(t[start])
    ensures i < |t| && (t[i] == '-' || IsDigit(t[i])) && (if t[i] == '-' then i + 1 else i) == i + |MinusText(minus)|
  {
    if minus {
      HasAt(t, i, "-", 0);
    }
  }

  lemma GoodNumberParts(n: Number)
    requires GoodNumber(n)
    ensures Digits(n.whole) && IsDigit(n.whole[0]) && (n.whole[0] == '0' ==> |n.whole| == 1)
    ensures n.fraction.Some? ==> Digits(n.fraction.value)
    ensures n.exponent.Some? ==> GoodExponent(n.exponent.value)
  {
  }

  lemma NumberEnds(t: string, i: nat, start: nat, rest: nat, tail: nat, end: nat)
    requires i < |t| && (if t[i] == '-' then i + 1 else i) == start <= |t|
    requires IntegerEnd(t, start) == Some(rest) && rest <= |t| && FractionEnd(t, rest) == Some(tail) && tail <= |t|
    requires ExponentEnd(t, tail) == Some(end)
    ensures NumberEnd(t, i) == Some(end)
  {
    hide IntegerEnd, FractionEnd, ExponentEnd;
  }

  /** Where the parts of a number stand. */
  lemma NumberPlaces(t: string, i: nat, n: Number)
    requires Has(t, i, NumberText(n))
    ensures var start := i + |MinusText(n.minus)|;
            var rest := start + |n.whole|;
            var tail := rest + |FractionText(n.fraction)|;
            && Has(t, i, MinusText(n.minus)) && Has(t, start, n.whole) && Has(t, rest, FractionText(n.fraction))
            && Has(t, tail, ExponentText(n.exponent)) && i + |NumberText(n)| == tail + |ExponentText(n.exponent)| <= |t|
  {
    hide MinusText, FractionText, ExponentText, Has;
    var fraction, exponent := FractionText(n.fraction), ExponentText(n.exponent);
    HasSplit(t, i, MinusText(n.minus), n.whole + (fraction + exponent));
    var start := i + |MinusText(n.minus)|;
    HasSplit(t, start, n.whole, fraction + exponent);
    HasSplit(t, start + |n.whole|, fraction, exponent);
    HasIn(t, start + |n.whole| + |fraction|, exponent);
  }

  lemma NumberReads(t: string, i: nat, n: Number)
    requires GoodNumber(n) && Has(t, i, NumberText(n)) && Delimited(t, i + |NumberText(n)|)
    ensures i < |t| && NumberEnd(t, i) == Some(i + |NumberText(n)|) && (t[i] == '-' || IsDigit(t[i]))
  {
    hide *;
    GoodNumberParts(n);
    NumberPlaces(t, i, n);
    var start := i + |MinusText(n.minus)|;
    var rest := start + |n.whole|;
    var tail := rest + |FractionText(n.fraction)|;
    NumberIn(t, start, n.whole);
    MinusReads(t, i, n.minus);
    TailStart(t, tail, n.exponent);
    NoFraction(n.fraction);
    HasIn(t, rest, FractionText(n.fraction));
    FractionStart(t, rest, n.fraction);
    WholeReads(t, start, n.whole);
    FractionReads(t, rest, n.fraction);
    ExponentReads(t, tail, n.exponent);
    NumberEnds(t, i, start, rest, tail, tail + |ExponentText(n.exponent)|);
  }

  lemma HasIn(t: string, i: nat, s: string)
    requires Has(t, i, s)
    ensures i + |s| <= |t|
  {
  }

  lemma NoFraction(f: Option<string>)
    ensures f.None? ==> FractionText(f) == ""
  {
  }

  lemma NumberIn(t: string, i: nat, whole: string)
    requires Has(t, i, whole) && Digits(whole)
    ensures i < |t| && IsDigit(t[i]) && i + |whole| <= |t|
  {
    HasAt(t, i, whole, 0);
  }

  lemma WordReads(t: string, i: nat, word: string)
    requires word == "true" || word == "false" || word == "null"
    requires Has(t, i, word)
    ensures i < |t| && WordOrNumberEnd(t, i) == Some(i + |word|) && 'a' <= t[i] <= 'z'
  {
    HasAt(t, i, word, 0);
    assert HasWord(t, i, word);
    if HasWord(t, i, "true") {
      HasAt(t, i, "true", 0);
    }
    if HasWord(t, i, "null") {
      HasAt(t, i, "null", 0);
    }
  }

  lemma NumberIsNoWord(t: string, i: nat)
    requires i < |t| && (t[i] == '-' || IsDigit(t[i]))
    ensures WordOrNumberEnd(t, i) == NumberEnd(t, i)
  {
    hide NumberEnd;
    if HasWord(t, i, "true") {
      HasAt(t, i, "true", 0);
    }
    if HasWord(t, i, "null") {
      HasAt(t, i, "null", 0);
    }
    if HasWord(t, i, "false") {
      HasAt(t, i, "false", 0);
    }
  }

  /** The first character of a value is no blank and closes nothing. */
  lemma ValueStart(t: string, i: nat, v: Tree)
    requires Good(v) && Has(t, i, TextOf(v))
    ensures TextOf(v) != "" && i < |t| && !IsBlank(t[i]) && t[i] !in ",]}:"
  {
    hide PiecesText, ElementsText, MembersText, ExponentText;
    HasAt(t, i, TextOf(v), 0);
  }

  lemma {:induction false} ValueReads(t: string, i: nat, v: Tree)
    requires Good(v) && Has(t, i, TextOf(v)) && Delimited(t, i + |TextOf(v)|)
    ensures ValueEnd(t, i) == Some(i + |TextOf(v)|)
    decreases v, 1
  {
    hide *;
    match v
    case Word(word) => PlainValue(t, i, v);
    case Num(number) => PlainValue(t, i, v);
    case Text(pieces) =>
      TextParts(pieces);
      TextValue(t, i, pieces);
    case Arr(empty, elements) =>
      ArrParts(empty, elements);
      if elements == [] {
        EmptyArr(t, i, empty);
      } else {
        ArrStart(t, i, empty, elements);
        ElementsRead(t, i + 1 + |elements[0].before|, elements);
      }
    case Obj(empty, members) =>
      ObjParts(empty, members);
      if members == [] {
        EmptyObj(t, i, empty);
      } else {
        ObjStart(t, i, empty, members);
        MembersRead(t, i + 1 + |members[0].before|, members);
      }
  }

  lemma PlainValue(t: string, i: nat, v: Tree)
    requires Good(v) && (v.Word? || v.Num?) && Has(t, i, TextOf(v)) && Delimited(t, i + |TextOf(v)|)
    ensures ValueEnd(t, i) == Some(i + |TextOf(v)|)
  {
    hide WordOrNumberEnd, NumberEnd, Delimited, NumberText, GoodNumber, StringEnd, SkipBlanks, MembersEnd, ElementsEnd;
    if v.Word? {
      WordReads(t, i, v.word);
    } else {
      NumberReads(t, i, v.number);
      NumberIsNoWord(t, i);
    }
  }

  lemma TextValue(t: string, i: nat, pieces: seq<Piece>)
    requires GoodPieces(pieces) && Has(t, i, "\"" + PiecesText(pieces))
    ensures ValueEnd(t, i) == Some(i + |"\"" + PiecesText(pieces)|)
  {
    hide StringEnd, PiecesText, GoodPieces;
    HasSplit(t, i, "\"", PiecesText(pieces));
    HasAt(t, i, "\"", 0);
    PiecesRead(t, i + 1, pieces);
  }

  lemma TextParts(pieces: seq<Piece>)
    requires Good(Text(pieces))
    ensures GoodPieces(pieces) && TextOf(Text(pieces)) == "\"" + PiecesText(pieces)
  {
  }

  lemma ArrParts(empty: string, elements: seq<Element>)
    requires Good(Arr(empty, elements))
    ensures Blank(empty) && GoodElements(elements)
    ensures TextOf(Arr(empty, elements))
         == if elements == [] then "[" + (empty + "]") else "[" + (elements[0].before + ElementsText(elements))
  {
  }

  lemma ObjParts(empty: string, members: seq<Member>)
    requires Good(Obj(empty, members))
    ensures Blank(empty) && GoodMembers(members)
    ensures TextOf(Obj(empty, members))
         == if members == [] then "{" + (empty + "}") else "{" + (members[0].before + MembersText(members))
  {
  }

  lemma EmptyArr(t: string, i: nat, empty: string)
    requires Blank(empty) && Has(t, i, "[" + (empty + "]"))
    ensures ValueEnd(t, i) == Some(i + |"[" + (empty + "]")|)
  {
    hide SkipBlanks, ElementsEnd, Blank;
    HasSplit(t, i, "[", empty + "]");
    HasAt(t, i, "[", 0);
    HasSplit(t, i + 1, empty, "]");
    HasAt(t, i + 1 + |empty|, "]", 0);
    SkipsBlanks(t, i + 1, empty);
  }

  lemma EmptyObj(t: string, i: nat, empty: string)
    requires Blank(empty) && Has(t, i, "{" + (empty + "}"))
    ensures ValueEnd(t, i) == Some(i + |"{" + (empty + "}")|)
  {
    hide SkipBlanks, MembersEnd, Blank;
    HasSplit(t, i, "{", empty + "}");
    HasAt(t, i, "{", 0);
    HasSplit(t, i + 1, empty, "}");
    HasAt(t, i + 1 + |empty|, "}", 0);
    SkipsBlanks(t, i + 1, empty);
  }

  lemma ElementParts(elements: seq<Element>)
    requires elements != [] && GoodElements(elements)
    ensures Blank(elements[0].before) && Good(elements[0].value) && Blank(elements[0].after)
    ensures GoodElements(elements[1..])
  {
  }

  lemma ElementsSplit(elements: seq<Element>)
    requires elements != []
    ensures ElementsText(elements) == TextOf(elements[0].value) + (elements[0].after + ElementsTail(elements))
    ensures ElementsTail(elements) != "" && ElementsTail(elements)[0] in ",]"
  {
    hide TextOf;
  }

  lemma MemberParts(members: seq<Member>)
    requires members != [] && GoodMembers(members)
    ensures var m := members[0];
            && Blank(m.before) && GoodPieces(m.name) && Blank(m.colonBefore) && Blank(m.colonAfter)
            && Good(m.value) && Blank(m.after)
    ensures GoodMembers(members[1..])
  {
  }

  lemma MembersSplit(members: seq<Member>)
    requires members != []
    ensures MembersText(members)
         == "\"" + (PiecesText(members[0].name) + (members[0].colonBefore + ColonText(members)))
    ensures ColonText(members)
         == ":" + (members[0].colonAfter + (TextOf(members[0].value) + (members[0].after + MembersTail(members))))
    ensures ColonText(members)[0] == ':' && MembersTail(members) != "" && MembersTail(members)[0] in ",}"
  {
    hide TextOf, PiecesText;
  }

  lemma ElementsStart(t: string, i: nat, elements: seq<Element>)
    requires elements != [] && GoodElements(elements) && Has(t, i, ElementsText(elements))
    ensures i < |t| && !IsBlank(t[i]) && t[i] !in ",]}:"
  {
    hide *;
    ElementParts(elements);
    ElementsSplit(elements);
    HasSplit(t, i, TextOf(elements[0].value), elements[0].after + ElementsTail(elements));
    ValueStart(t, i, elements[0].value);
  }

  lemma MembersStart(t: string, i: nat, members: seq<Member>)
    requires members != [] && Has(t, i, MembersText(members))
    ensures i < |t| && t[i] == '"'
  {
    hide PiecesText, TextOf, ColonText;
    HasAt(t, i, MembersText(members), 0);
  }

  lemma ArrStart(t: string, i: nat, empty: string, elements: seq<Element>)
    requires elements != [] && GoodElements(elements)
    requires Has(t, i, "[" + (elements[0].before + ElementsText(elements)))
    ensures var start := i + 1 + |elements[0].before|;
            start <= |t| && Has(t, start, ElementsText(elements)) && ValueEnd(t, i) == ElementsEnd(t, start)
  {
    hide SkipBlanks, ElementsEnd, Blank, ElementsText, GoodElements, IsBlank, Good;
    var before := elements[0].before;
    ElementParts(elements);
    HasSplit(t, i, "[", before + ElementsText(elements));
    HasAt(t, i, "[", 0);
    HasSplit(t, i + 1, before, ElementsText(elements));
    ElementsStart(t, i + 1 + |before|, elements);
    SkipsBlanks(t, i + 1, before);
  }

  lemma ObjStart(t: string, i: nat, empty: string, members: seq<Member>)
    requires members != [] && GoodMembers(members)
    requires Has(t, i, "{" + (members[0].before + MembersText(members)))
    ensures var start := i + 1 + |members[0].before|;
            start <= |t| && Has(t, start, MembersText(members)) && ValueEnd(t, i) == MembersEnd(t, start)
  {
    hide SkipBlanks, MembersEnd, Blank, MembersText, GoodMembers, Good;
    var before := members[0].before;
    MemberParts(members);
    HasSplit(t, i, "{", before + MembersText(members));
    HasAt(t, i, "{", 0);
    HasSplit(t, i + 1, before, MembersText(members));
    MembersStart(t, i + 1 + |before|, members);
    SkipsBlanks(t, i + 1, before);
  }

  /** What follows a value inside an array or object ends it. */
  lemma AfterValue(t: string, i: nat, after: string, rest: string)
    requires Has(t, i, after + rest) && Blank(after) && rest != "" && rest[0] in ",]}"
    ensures Delimited(t, i) && Has(t, i + |after|, rest) && SkipBlanks(t, i) == i + |after|
    ensures i + |after| < |t| && t[i + |after|] == rest[0]
  {
    HasSplit(t, i, after, rest);
    HasAt(t, i + |after|, rest, 0);
    if after != "" {
      HasAt(t, i, after, 0);
    }
    SkipsBlanks(t, i, after);
  }

  lemma {:induction false} ElementsRead(t: string, i: nat, elements: seq<Element>)
    requires elements != [] && GoodElements(elements) && Has(t, i, ElementsText(elements))
    ensures ElementsEnd(t, i) == Some(i + |ElementsText(elements)|)
    decreases elements, 0
  {
    hide *;
    ElementParts(elements);
    ElementsSplit(elements);
    var e, tail := elements[0], ElementsTail(elements);
    HasSplit(t, i, TextOf(e.value), e.after + tail);
    var k := i + |TextOf(e.value)|;
    AfterValue(t, k, e.after, tail);
    ValueReads(t, i, e.value);
    ElementsStep(t, i, k, k + |e.after|);
    LastElement(elements);
    if |elements| > 1 {
      MoreElements(t, k + |e.after|, elements);
      ElementsRead(t, k + |e.after| + 1 + |elements[1].before|, elements[1..]);
    }
  }

  lemma LastElement(elements: seq<Element>)
    requires elements != []
    ensures |elements| == 1 ==> ElementsTail(elements) == "]"
    ensures |elements| > 1 ==>
              ElementsTail(elements) == "," + (elements[1].before + ElementsText(elements[1..]))
  {
    hide ElementsText;
  }

  /** A comma leads to the next element. */
  lemma MoreElements(t: string, next: nat, elements: seq<Element>)
    requires |elements| > 1 && GoodElements(elements) && Has(t, next, ElementsTail(elements))
    ensures next < |t| && t[next] == ','
    ensures var start := next + 1 + |elements[1].before|;
            start <= |t| && Has(t, start, ElementsText(elements[1..])) && SkipBlanks(t, next + 1) == start
  {
    hide *;
    LastElement(elements);
    var before, rest := elements[1].before, elements[1..];
    ElementParts(elements);
    ElementParts(rest);
    HasSplit(t, next, ",", before + ElementsText(rest));
    HasAt(t, next, ",", 0);
    HasSplit(t, next + 1, before, ElementsText(rest));
    ElementsStart(t, next + 1 + |before|, rest);
    SkipsBlanks(t, next + 1, before);
  }

  lemma ElementsStep(t: string, i: nat, k: nat, next: nat)
    requires i <= |t| && ValueEnd(t, i) == Some(k) && k <= |t| && SkipBlanks(t, k) == next < |t|
    ensures ElementsEnd(t, i)
         == if t[next] == ']' then Some(next + 1)
            else if t[next] == ',' then ElementsEnd(t, SkipBlanks(t, next + 1))
            else None
  {
    hide ValueEnd, SkipBlanks;
  }

  lemma MembersStep(t: string, i: nat, j: nat, colon: nat, start: nat, k: nat)
    requires i < |t| && t[i] == '"' && StringEnd(t, i + 1) == Some(j) && j <= |t| && SkipBlanks(t, j) == colon < |t|
    requires t[colon] == ':' && SkipBlanks(t, colon + 1) == start && ValueEnd(t, start) == Some(k) && k <= |t|
    ensures MembersEnd(t, i) == AfterMember(t, k)
  {
    hide ValueEnd, SkipBlanks, StringEnd, AfterMember;
  }

  lemma MembersGoOn(t: string, k: nat)
    requires k <= |t|
    ensures var next := SkipBlanks(t, k);
            AfterMember(t, k) ==
            if next == |t| then None
            else if t[next] == '}' then Some(next + 1)
            else if t[next] == ',' then MembersEnd(t, SkipBlanks(t, next + 1))
            else None
  {
    hide SkipBlanks, MembersEnd;
  }

  lemma NameReads(t: string, i: nat, name: seq<Piece>, blank: string, rest: string)
    requires GoodPieces(name) && Blank(blank) && rest != "" && rest[0] == ':'
    requires Has(t, i, "\"" + (PiecesText(name) + (blank + rest)))
    ensures var j := i + 1 + |PiecesText(name)|;
            && i < |t| && t[i] == '"' && StringEnd(t, i + 1) == Some(j) && j <= |t|
            && SkipBlanks(t, j) == j + |blank| < |t| && t[j + |blank|] == ':' && Has(t, j + |blank|, rest)
  {
    hide StringEnd, SkipBlanks, PiecesText, GoodPieces, Blank;
    HasSplit(t, i, "\"", PiecesText(name) + (blank + rest));
    HasAt(t, i, "\"", 0);
    HasSplit(t, i + 1, PiecesText(name), blank + rest);
    var j := i + 1 + |PiecesText(name)|;
    HasSplit(t, j, blank, rest);
    HasAt(t, j + |blank|, rest, 0);
    PiecesRead(t, i + 1, name);
    SkipsBlanks(t, j, blank);
  }

  /** From the colon of a member to what follows its value. */
  lemma {:induction false} MemberValueReads(t: string, colon: nat, members: seq<Member>)
    requires members != [] && GoodMembers(members) && Has(t, colon, ColonText(members))
    ensures var m := members[0];
            var start := colon + 1 + |m.colonAfter|;
            var k := start + |TextOf(m.value)|;
            && colon < |t| && SkipBlanks(t, colon + 1) == start <= |t| && ValueEnd(t, start) == Some(k) && k <= |t|
            && SkipBlanks(t, k) == k + |m.after| < |t| && Has(t, k + |m.after|, MembersTail(members))
            && t[k + |m.after|] == MembersTail(members)[0]
    decreases members, 0
  {
    hide *;
    MemberParts(members);
    MembersSplit(members);
    var m, tail := members[0], MembersTail(members);
    HasSplit(t, colon, ":", m.colonAfter + (TextOf(m.value) + (m.after + tail)));
    HasSplit(t, colon + 1, m.colonAfter, TextOf(m.value) + (m.after + tail));
    var start := colon + 1 + |m.colonAfter|;
    HasSplit(t, start, TextOf(m.value), m.after + tail);
    ValueStart(t, start, m.value);
    SkipsBlanks(t, colon + 1, m.colonAfter);
    AfterValue(t, start + |TextOf(m.value)|, m.after, tail);
    ValueReads(t, start, m.value);
  }

  lemma {:induction false} MembersRead(t: string, i: nat, members: seq<Member>)
    requires members != [] && GoodMembers(members) && Has(t, i, MembersText(members))
    ensures MembersEnd(t, i) == Some(i + |MembersText(members)|)
    decreases members, 1
  {
    hide *;
    MemberParts(members);
    MembersSplit(members);
    var m := members[0];
    NameReads(t, i, m.name, m.colonBefore, ColonText(members));
    var j := i + 1 + |PiecesText(m.name)|;
    var colon := j + |m.colonBefore|;
    MemberValueReads(t, colon, members);
    var start := colon + 1 + |m.colonAfter|;
    var k := start + |TextOf(m.value)|;
    MembersStep(t, i, j, colon, start, k);
    MembersGoOn(t, k);
    LastMember(members);
    if |members| > 1 {
      MoreMembers(t, k + |m.after|, members);
      MembersRead(t, k + |m.after| + 1 + |members[1].before|, members[1..]);
    }
  }

  lemma LastMember(members: seq<Member>)
    requires members != []
    ensures |members| == 1 ==> MembersTail(members) == "}"
    ensures |members| > 1 ==> MembersTail(members) == "," + (members[1].before + MembersText(members[1..]))
  {
    hide MembersText;
  }

  lemma MoreMembers(t: string, next: nat, members: seq<Member>)
    requires |members| > 1 && GoodMembers(members) && Has(t, next, MembersTail(members))
    ensures next < |t| && t[next] == ','
    ensures var start := next + 1 + |members[1].before|;
            start <= |t| && Has(t, start, MembersText(members[1..])) && SkipBlanks(t, next + 1) == start
  {
    hide *;
    LastMember(members);
    var before, rest := members[1].before, members[1..];
    MemberParts(members);
    MemberParts(rest);
    HasSplit(t, next, ",", before + MembersText(rest));
    HasAt(t, next, ",", 0);
    HasSplit(t, next + 1, before, MembersText(rest));
    MembersStart(t, next + 1 + |before|, rest);
    QuoteIsNoBlank();
    SkipsBlanks(t, next + 1, before);
  }

  lemma QuoteIsNoBlank()
    ensures !IsBlank('"')
  {
  }

  // ----- The recogniser accepts nothing else -----

  lemma BlanksWritten(t: string, i: nat)
    requires i <= |t|
    ensures var j := SkipBlanks(t, i); Has(t, i, t[i..j]) && Blank(t[i..j]) && |t[i..j]| == j - i
  {
    hide SkipBlanks;
    var j := SkipBlanks(t, i);
    assert forall k :: i <= k < j ==> IsBlank(t[k]);
  }

  lemma DigitsWritten(t: string, i: nat)
    requires i <= |t| && DigitsEnd(t, i).Some?
    ensures var j := DigitsEnd(t, i).value; i < j <= |t| && Has(t, i, t[i..j]) && Digits(t[i..j])
  {
  }

  lemma {:induction false} StringWritten(t: string, i: nat) returns (pieces: seq<Piece>)
    requires i <= |t| && StringEnd(t, i).Some?
    ensures GoodPieces(pieces) && Has(t, i, PiecesText(pieces))
    ensures StringEnd(t, i) == Some(i + |PiecesText(pieces)|)
    decreases |t| - i
  {
    hide *;
    StringStarts(t, i);
    if t[i] == '"' {
      pieces := [];
      NoPieces();
      HasChar(t, i, '"');
    } else {
      var p := PieceAt(t, i);
      var next := i + |PieceText(p)|;
      var rest := StringWritten(t, next);
      pieces := [p] + rest;
      HasJoin(t, i, PieceText(p), PiecesText(rest));
      OneMorePiece(p, rest);
      assert i + |PieceText(p) + PiecesText(rest)| == next + |PiecesText(rest)|;
    }
  }

  lemma StringStarts(t: string, i: nat)
    requires i <= |t| && StringEnd(t, i).Some?
    ensures i < |t| && (t[i] == '"' ==> StringEnd(t, i) == Some(i + 1))
  {
  }

  lemma NoPieces()
    ensures GoodPieces([]) && PiecesText([]) == "\""
  {
  }

  lemma OneMorePiece(p: Piece, rest: seq<Piece>)
    requires GoodPiece(p) && GoodPieces(rest)
    ensures GoodPieces([p] + rest) && PiecesText([p] + rest) == PieceText(p) + PiecesText(rest)
  {
    hide GoodPiece, PieceText;
    assert ([p] + rest)[1..] == rest;
  }

  lemma PieceAt(t: string, i: nat) returns (p: Piece)
    requires i < |t| && StringEnd(t, i).Some? && t[i] != '"'
    ensures GoodPiece(p) && Has(t, i, PieceText(p)) && PieceText(p) != "" && i + |PieceText(p)| <= |t|
    ensures StringEnd(t, i) == StringEnd(t, i + |PieceText(p)|)
  {
    if t[i] != '\\' {
      p := Itself(t[i]);
    } else if t[i + 1] != 'u' {
      p := Escaped(t[i + 1]);
    } else {
      p := Coded(t[i + 2..i + 6]);
      assert t[i..i + 6] == "\\u" + t[i + 2..i + 6];
      assert forall k :: i + 2 <= k < i + 6 ==> t[k] == t[i + 2..i + 6][k - i - 2];
    }
  }

  lemma NumberWritten(t: string, i: nat) returns (n: Number)
    requires i < |t| && NumberEnd(t, i).Some?
    ensures GoodNumber(n) && Has(t, i, NumberText(n)) && NumberEnd(t, i) == Some(i + |NumberText(n)|)
  {
    hide ExponentText, FractionText, MinusText, GoodNumber, NumberText, FractionEnd, ExponentEnd, Digits, Has,
         IntegerEnd, NumberEnd;
    var minus := t[i] == '-';
    var start, rest, tail, end := NumberCuts(t, i);
    WholeWritten(t, start);
    var fraction := FractionWritten(t, rest);
    var exponent := ExponentWritten(t, tail);
    n := Number(minus, t[start..rest], fraction, exponent);
    HasJoin(t, rest, FractionText(fraction), ExponentText(exponent));
    HasJoin(t, start, t[start..rest], FractionText(fraction) + ExponentText(exponent));
    MinusWritten(t, i);
    HasJoin(t, i, MinusText(minus), t[start..rest] + (FractionText(fraction) + ExponentText(exponent)));
    NumberMade(n);
  }

  lemma NumberMade(n: Number)
    requires Digits(n.whole) && (n.whole[0] == '0' ==> |n.whole| == 1)
    requires n.fraction.Some? ==> Digits(n.fraction.value)
    requires n.exponent.Some? ==> GoodExponent(n.exponent.value)
    ensures GoodNumber(n)
    ensures NumberText(n) == MinusText(n.minus) + (n.whole + (FractionText(n.fraction) + ExponentText(n.exponent)))
  {
  }

  lemma MinusWritten(t: string, i: nat)
    requires i < |t|
    ensures Has(t, i, MinusText(t[i] == '-')) && |MinusText(t[i] == '-')| == if t[i] == '-' then 1 else 0
  {
  }

  lemma NumberCuts(t: string, i: nat) returns (start: nat, rest: nat, tail: nat, end: nat)
    requires i < |t| && NumberEnd(t, i).Some?
    ensures start == (if t[i] == '-' then i + 1 else i) <= |t| && NumberEnd(t, i) == Some(end)
    ensures IntegerEnd(t, start) == Some(rest) && rest <= |t| && FractionEnd(t, rest) == Some(tail) && tail <= |t|
    ensures ExponentEnd(t, tail) == Some(end)
  {
    start := if t[i] == '-' then i + 1 else i;
    rest := IntegerEnd(t, start).value;
    tail := FractionEnd(t, rest).value;
    end := ExponentEnd(t, tail).value;
  }

  lemma WholeWritten(t: string, i: nat)
    requires i <= |t| && IntegerEnd(t, i).Some?
    ensures var j := IntegerEnd(t, i).value;
            && i < j <= |t| && Has(t, i, t[i..j]) && Digits(t[i..j]) && (t[i..j][0] == '0' ==> |t[i..j]| == 1)
  {
    hide DigitsEnd;
    if t[i..] != "" && t[i] == '0' {
      HasSlice(t, i, i + 1);
    } else {
      DigitsWritten(t, i);
    }
  }

  lemma FractionWritten(t: string, i: nat) returns (f: Option<string>)
    requires i <= |t| && FractionEnd(t, i).Some?
    ensures f.Some? ==> Digits(f.value)
    ensures Has(t, i, FractionText(f)) && FractionEnd(t, i) == Some(i + |FractionText(f)|)
  {
    hide DigitsEnd;
    if i < |t| && t[i] == '.' {
      DigitsWritten(t, i + 1);
      f := Some(t[i + 1..DigitsEnd(t, i + 1).value]);
      HasChar(t, i, '.');
      HasJoin(t, i, ".", f.value);
    } else {
      f := None;
    }
  }

  lemma SignWritten(t: string, i: nat) returns (sign: string)
    requires i <= |t|
    ensures sign == "" || sign == "+" || sign == "-"
    ensures Has(t, i, sign) && |sign| == if i < |t| && t[i] in {'+', '-'} then 1 else 0
  {
    sign := if i < |t| && t[i] in {'+', '-'} then [t[i]] else "";
  }

  lemma ExponentWritten(t: string, i: nat) returns (e: Option<Exponent>)
    requires i <= |t| && ExponentEnd(t, i).Some?
    ensures e.Some? ==> GoodExponent(e.value)
    ensures Has(t, i, ExponentText(e)) && ExponentEnd(t, i) == Some(i + |ExponentText(e)|)
  {
    hide *;
    if i < |t| && t[i] in {'e', 'E'} {
      var sign := SignWritten(t, i + 1);
      DigitsAfterSign(t, i);
      DigitsWritten(t, i + 1 + |sign|);
      var x := Exponent(t[i], sign, t[i + 1 + |sign|..DigitsEnd(t, i + 1 + |sign|).value]);
      e := Some(x);
      ExponentIsGood(x);
      ExponentJoins(t, i, x);
    } else {
      e := None;
      NoExponentWritten(t, i);
    }
  }

  lemma ExponentJoins(t: string, i: nat, e: Exponent)
    requires i < |t| && t[i] == e.letter && Has(t, i + 1, e.sign) && Has(t, i + 1 + |e.sign|, e.digits)
    ensures Has(t, i, ExponentText(Some(e))) && |ExponentText(Some(e))| == 1 + |e.sign| + |e.digits|
  {
    hide *;
    ExponentTextIs(e);
    HasChar(t, i, e.letter);
    HasJoin(t, i + 1, e.sign, e.digits);
    HasJoin(t, i, [e.letter], e.sign + e.digits);
  }

  lemma DigitsAfterSign(t: string, i: nat)
    requires i < |t| && t[i] in {'e', 'E'}
    ensures ExponentEnd(t, i) == DigitsEnd(t, if i + 1 < |t| && t[i + 1] in {'+', '-'} then i + 2 else i + 1)
  {
  }

  lemma ExponentIsGood(e: Exponent)
    requires e.letter in {'e', 'E'} && (e.sign == "" || e.sign == "+" || e.sign == "-") && Digits(e.digits)
    ensures GoodExponent(e)
  {
  }

  lemma NoExponentWritten(t: string, i: nat)
    requires i <= |t| && !(i < |t| && t[i] in {'e', 'E'})
    ensures Has(t, i, ExponentText(None)) && ExponentText(None) == "" && ExponentEnd(t, i) == Some(i)
  {
    HasNothing(t, i);
  }

  lemma HasNothing(t: string, i: nat)
    requires i <= |t|
    ensures Has(t, i, "")
  {
  }

  lemma WordWritten(t: string, i: nat) returns (v: Tree)
    requires i < |t| && WordOrNumberEnd(t, i).Some?
    ensures Good(v) && Has(t, i, TextOf(v)) && WordOrNumberEnd(t, i) == Some(i + |TextOf(v)|)
  {
    hide NumberEnd, NumberText, GoodNumber;
    if HasWord(t, i, "true") {
      v := Word("true");
    } else if HasWord(t, i, "null") {
      v := Word("null");
    } else if HasWord(t, i, "false") {
      v := Word("false");
    } else {
      var n := NumberWritten(t, i);
      v := Num(n);
    }
  }

  lemma {:induction false} ValueWritten(t: string, i: nat) returns (v: Tree)
    requires i <= |t| && ValueEnd(t, i).Some?
    ensures Good(v) && Has(t, i, TextOf(v)) && ValueEnd(t, i) == Some(i + |TextOf(v)|)
    decreases |t| - i, 1
  {
    hide *;
    ValueCases(t, i);
    if t[i] == '[' {
      v := ArrWritten(t, i);
    } else if t[i] == '{' {
      v := ObjWritten(t, i);
    } else if t[i] == '"' {
      var pieces := StringWritten(t, i + 1);
      v := Text(pieces);
      HasChar(t, i, '"');
      HasJoin(t, i, "\"", PiecesText(pieces));
      PiecesAreText(pieces);
    } else {
      v := WordWritten(t, i);
    }
  }

  /** An opening token, blanks and the rest. */
  lemma OpensWith(t: string, i: nat, open: char, rest: string)
    requires i < |t| && t[i] == open
    requires var j := SkipBlanks(t, i + 1); Has(t, j, rest)
    ensures var blank := t[i + 1..SkipBlanks(t, i + 1)];
            Has(t, i, [open] + (blank + rest)) && Blank(blank)
    ensures |[open] + (t[i + 1..SkipBlanks(t, i + 1)] + rest)| == SkipBlanks(t, i + 1) + |rest| - i
  {
    hide SkipBlanks, Has, Blank;
    BlanksWritten(t, i + 1);
    HasChar(t, i, open);
    var blank := t[i + 1..SkipBlanks(t, i + 1)];
    HasJoin(t, i + 1, blank, rest);
    HasJoin(t, i, [open], blank + rest);
  }

  lemma {:induction false} ArrWritten(t: string, i: nat) returns (v: Tree)
    requires i < |t| && t[i] == '[' && ValueEnd(t, i).Some?
    ensures Good(v) && Has(t, i, TextOf(v)) && ValueEnd(t, i) == Some(i + |TextOf(v)|)
    decreases |t| - i, 0
  {
    hide *;
    ValueCases(t, i);
    var j := SkipBlanks(t, i + 1);
    var blank := t[i + 1..j];
    BlanksWritten(t, i + 1);
    if j < |t| && t[j] == ']' {
      v := Arr(blank, []);
      HasChar(t, j, ']');
      OpensWith(t, i, '[', "]");
      EmptyWritten(blank);
    } else {
      var elements := ElementsWritten(t, j, blank);
      v := Arr("", elements);
      OpensWith(t, i, '[', ElementsText(elements));
      NothingBad();
      FullWritten(elements, []);
    }
  }

  lemma {:induction false} ObjWritten(t: string, i: nat) returns (v: Tree)
    requires i < |t| && t[i] == '{' && ValueEnd(t, i).Some?
    ensures Good(v) && Has(t, i, TextOf(v)) && ValueEnd(t, i) == Some(i + |TextOf(v)|)
    decreases |t| - i, 0
  {
    hide *;
    ValueCases(t, i);
    var j := SkipBlanks(t, i + 1);
    var blank := t[i + 1..j];
    BlanksWritten(t, i + 1);
    if j < |t| && t[j] == '}' {
      v := Obj(blank, []);
      HasChar(t, j, '}');
      OpensWith(t, i, '{', "}");
      EmptyWritten(blank);
    } else {
      var members := MembersWritten(t, j, blank);
      v := Obj("", members);
      OpensWith(t, i, '{', MembersText(members));
      NothingBad();
      FullWritten([], members);
    }
  }

  lemma ValueCases(t: string, i: nat)
    requires i <= |t| && ValueEnd(t, i).Some?
    ensures i < |t|
    ensures ValueEnd(t, i) ==
            if t[i] == '{' then
              var j := SkipBlanks(t, i + 1);
              if j < |t| && t[j] == '}' then Some(j + 1) else MembersEnd(t, j)
            else if t[i] == '[' then
              var j := SkipBlanks(t, i + 1);
              if j < |t| && t[j] == ']' then Some(j + 1) else ElementsEnd(t, j)
            else if t[i] == '"' then StringEnd(t, i + 1)
            else WordOrNumberEnd(t, i)
  {
    hide SkipBlanks, MembersEnd, ElementsEnd, StringEnd, WordOrNumberEnd;
  }

  lemma EmptyWritten(blank: string)
    requires Blank(blank)
    ensures Good(Arr(blank, [])) && TextOf(Arr(blank, [])) == "[" + (blank + "]")
    ensures Good(Obj(blank, [])) && TextOf(Obj(blank, [])) == "{" + (blank + "}")
  {
  }

  lemma NothingBad()
    ensures GoodElements([]) && GoodMembers([])
  {
  }

  lemma FullWritten(elements: seq<Element>, members: seq<Member>)
    requires GoodElements(elements) && GoodMembers(members)
    ensures elements != [] ==>
              && Good(Arr("", elements))
              && TextOf(Arr("", elements)) == "[" + (elements[0].before + ElementsText(elements))
    ensures members != [] ==>
              && Good(Obj("", members))
              && TextOf(Obj("", members)) == "{" + (members[0].before + MembersText(members))
  {
    hide GoodElements, GoodMembers, ElementsText, MembersText;
  }

  lemma PiecesAreText(pieces: seq<Piece>)
    requires GoodPieces(pieces)
    ensures Good(Text(pieces)) && TextOf(Text(pieces)) == "\"" + PiecesText(pieces)
  {
    hide GoodPieces, PiecesText;
  }

  lemma ElementsCases(t: string, i: nat)
    requires i <= |t| && ElementsEnd(t, i).Some?
    ensures ValueEnd(t, i).Some?
    ensures var k := ValueEnd(t, i).value;
            var next := SkipBlanks(t, k);
            && k <= |t| && next < |t| && (t[next] == ']' || t[next] == ',')
            && (t[next] == ']' ==> ElementsEnd(t, i) == Some(next + 1))
            && (t[next] == ',' ==> ElementsEnd(t, i) == ElementsEnd(t, SkipBlanks(t, next + 1)))
  {
    hide ValueEnd, SkipBlanks;
  }

  lemma OneElement(e: Element)
    requires Blank(e.before) && Good(e.value) && Blank(e.after)
    ensures GoodElements([e]) && ElementsText([e]) == TextOf(e.value) + (e.after + "]")
  {
    hide Good, TextOf;
  }

  lemma OneMoreElement(e: Element, rest: seq<Element>)
    requires Blank(e.before) && Good(e.value) && Blank(e.after) && rest != [] && GoodElements(rest)
    ensures GoodElements([e] + rest)
    ensures ElementsText([e] + rest) == TextOf(e.value) + (e.after + ("," + (rest[0].before + ElementsText(rest))))
  {
    hide Good, TextOf, ElementsText, Blank;
    var elements := [e] + rest;
    assert elements[1..] == rest;
    ElementsSplit(elements);
    LastElement(elements);
  }

  /** A value, what follows it, and the tail. */
  lemma ElementHas(t: string, i: nat, e: Element, tail: string)
    requires Has(t, i, TextOf(e.value)) && Has(t, i + |TextOf(e.value)|, e.after)
    requires Has(t, i + |TextOf(e.value)| + |e.after|, tail)
    ensures Has(t, i, TextOf(e.value) + (e.after + tail))
  {
    hide Has, TextOf;
    HasJoin(t, i + |TextOf(e.value)|, e.after, tail);
    HasJoin(t, i, TextOf(e.value), e.after + tail);
  }

  lemma {:induction false} ElementsWritten(t: string, i: nat, before: string) returns (elements: seq<Element>)
    requires i <= |t| && ElementsEnd(t, i).Some? && Blank(before)
    ensures elements != [] && GoodElements(elements) && elements[0].before == before
    ensures Has(t, i, ElementsText(elements))
    ensures ElementsEnd(t, i) == Some(i + |ElementsText(elements)|)
    decreases |t| - i, 2
  {
    hide *;
    ElementsCases(t, i);
    var v := ValueWritten(t, i);
    var k := i + |TextOf(v)|;
    ValueAdvances(t, i);
    var next := SkipBlanks(t, k);
    BlanksWritten(t, k);
    var e := Element(before, v, t[k..next]);
    if t[next] == ']' {
      HasChar(t, next, ']');
      elements := [e];
      ElementHas(t, i, e, "]");
      OneElement(e);
    } else {
      var start := SkipBlanks(t, next + 1);
      BlanksWritten(t, next + 1);
      var rest := ElementsWritten(t, start, t[next + 1..start]);
      OpensWith(t, next, ',', ElementsText(rest));
      ElementHas(t, i, e, "," + (rest[0].before + ElementsText(rest)));
      elements := [e] + rest;
      OneMoreElement(e, rest);
    }
  }

  lemma ValueAdvances(t: string, i: nat)
    requires i <= |t| && ValueEnd(t, i).Some?
    ensures i < ValueEnd(t, i).value <= |t|
  {
    hide ValueEnd;
  }

  lemma MembersCases(t: string, i: nat)
    requires i <= |t| && MembersEnd(t, i).Some?
    ensures i < |t| && t[i] == '"' && StringEnd(t, i + 1).Some?
    ensures var j := StringEnd(t, i + 1).value;
            var colon := SkipBlanks(t, j);
            && j <= |t| && colon < |t| && t[colon] == ':'
            && ValueEnd(t, SkipBlanks(t, colon + 1)).Some?
  {
    hide ValueEnd, SkipBlanks, StringEnd;
  }

  lemma OneMember(m: Member)
    requires GoodMember(m)
    ensures GoodMembers([m]) && MembersText([m]) == MemberText(m, "}")
  {
    hide Good, TextOf, PiecesText;
    MembersSplit([m]);
    LastMember([m]);
  }

  predicate GoodMemberBlanks(m: Member) {
    Blank(m.before) && Blank(m.colonBefore) && Blank(m.colonAfter) && Blank(m.after)
  }

  ghost predicate GoodMember(m: Member) {
    GoodMemberBlanks(m) && GoodPieces(m.name) && Good(m.value)
  }

  /** The text of a member from its name on, followed by a tail. */
  function MemberText(m: Member, tail: string): string {
    "\"" + (PiecesText(m.name) + (m.colonBefore + (":" + (m.colonAfter + (TextOf(m.value) + (m.after + tail))))))
  }

  lemma OneMoreMember(m: Member, rest: seq<Member>)
    requires GoodMember(m) && rest != [] && GoodMembers(rest)
    ensures GoodMembers([m] + rest)
    ensures MembersText([m] + rest) == MemberText(m, "," + (rest[0].before + MembersText(rest)))
  {
    hide Good, TextOf, MembersText, Blank, PiecesText, GoodPieces, ColonText, MembersTail;
    var members := [m] + rest;
    assert members[1..] == rest;
    MembersSplit(members);
    LastMember(members);
  }

  /** The member that starts at `i`, whatever its tail. */
  lemma {:induction false} MemberWritten(t: string, i: nat, before: string) returns (m: Member, next: nat)
    requires i <= |t| && MembersEnd(t, i).Some? && Blank(before)
    ensures GoodMember(m) && m.before == before && i < next < |t|
    ensures t[next] == '}' ==> MembersEnd(t, i) == Some(next + 1)
    ensures t[next] == ',' ==> MembersEnd(t, i) == MembersEnd(t, SkipBlanks(t, next + 1))
    ensures t[next] == '}' || t[next] == ','
    ensures forall tail :: Has(t, next, tail) ==>
              Has(t, i, MemberText(m, tail)) && |MemberText(m, tail)| == next - i + |tail|
    decreases |t| - i, 2
  {
    hide *;
    MembersCases(t, i);
    var name := StringWritten(t, i + 1);
    var j := i + 1 + |PiecesText(name)|;
    var colon := SkipBlanks(t, j);
    BlanksWritten(t, j);
    var start := SkipBlanks(t, colon + 1);
    BlanksWritten(t, colon + 1);
    var v := ValueWritten(t, start);
    ValueAdvances(t, start);
    var k := start + |TextOf(v)|;
    MembersStep(t, i, j, colon, start, k);
    MembersGoOn(t, k);
    next := SkipBlanks(t, k);
    BlanksWritten(t, k);
    m := Member(before, name, t[j..colon], t[colon + 1..start], v, t[k..next]);
    MemberIsGood(m);
    forall tail | Has(t, next, tail)
      ensures Has(t, i, MemberText(m, tail)) && |MemberText(m, tail)| == next - i + |tail|
    {
      MemberHas(t, i, m, tail);
    }
  }

  /** The tokens and blanks of a member, and its tail. */
  lemma MemberHas(t: string, i: nat, m: Member, tail: string)
    requires i < |t| && t[i] == '"' && Has(t, i + 1, PiecesText(m.name))
    requires var j := i + 1 + |PiecesText(m.name)|;
             var colon := j + |m.colonBefore|;
             var start := colon + 1 + |m.colonAfter|;
             var k := start + |TextOf(m.value)|;
             && Has(t, j, m.colonBefore) && colon < |t| && t[colon] == ':' && Has(t, colon + 1, m.colonAfter)
             && Has(t, start, TextOf(m.value)) && Has(t, k, m.after) && Has(t, k + |m.after|, tail)
    ensures Has(t, i, MemberText(m, tail))
    ensures |MemberText(m, tail)| == 2 + |PiecesText(m.name)| + |m.colonBefore| + |m.colonAfter| + |TextOf(m.value)|
                                     + |m.after| + |tail|
  {
    hide *;
    var valued := TextOf(m.value) + (m.after + tail);
    var colon := i + 1 + |PiecesText(m.name)| + |m.colonBefore|;
    ElementHas(t, colon + 1 + |m.colonAfter|, Element("", m.value, m.after), tail);
    HasChar(t, colon, ':');
    HasJoin(t, colon + 1, m.colonAfter, valued);
    HasJoin(t, colon, ":", m.colonAfter + valued);
    NameHas(t, i, m, ":" + (m.colonAfter + valued));
    MemberTextIs(m, tail);
  }

  lemma NameHas(t: string, i: nat, m: Member, rest: string)
    requires i < |t| && t[i] == '"' && Has(t, i + 1, PiecesText(m.name))
    requires var j := i + 1 + |PiecesText(m.name)|; Has(t, j, m.colonBefore) && Has(t, j + |m.colonBefore|, rest)
    ensures Has(t, i, "\"" + (PiecesText(m.name) + (m.colonBefore + rest)))
  {
    hide *;
    HasChar(t, i, '"');
    HasJoin(t, i + 1 + |PiecesText(m.name)|, m.colonBefore, rest);
    HasJoin(t, i + 1, PiecesText(m.name), m.colonBefore + rest);
    HasJoin(t, i, "\"", PiecesText(m.name) + (m.colonBefore + rest));
  }

  lemma MemberTextIs(m: Member, tail: string)
    ensures var value := TextOf(m.value) + (m.after + tail);
            MemberText(m, tail) == "\"" + (PiecesText(m.name) + (m.colonBefore + (":" + (m.colonAfter + value))))
  {
    hide PiecesText, TextOf;
  }

  lemma MemberIsGood(m: Member)
    requires Blank(m.before) && Blank(m.colonBefore) && Blank(m.colonAfter) && Blank(m.after)
    requires GoodPieces(m.name) && Good(m.value)
    ensures GoodMember(m)
  {
    hide Blank, GoodPieces, Good;
  }

  lemma {:induction false} MembersWritten(t: string, i: nat, before: string) returns (members: seq<Member>)
    requires i <= |t| && MembersEnd(t, i).Some? && Blank(before)
    ensures members != [] && GoodMembers(members) && members[0].before == before && Has(t, i, MembersText(members))
    ensures MembersEnd(t, i) == Some(i + |MembersText(members)|)
    decreases |t| - i, 3
  {
    hide *;
    var m, next := MemberWritten(t, i, before);
    if t[next] == '}' {
      HasChar(t, next, '}');
      members := [m];
      OneMember(m);
    } else {
      var start := SkipBlanks(t, next + 1);
      BlanksWritten(t, next + 1);
      var rest := MembersWritten(t, start, t[next + 1..start]);
      OpensWith(t, next, ',', MembersText(rest));
      members := [m] + rest;
      OneMoreMember(m, rest);
    }
  }

  // ----- The theorems -----

  ghost predicate Written(t: string, lead: string, v: Tree, trail: string) {
    Blank(lead) && Good(v) && Blank(trail) && t == lead + (TextOf(v) + trail)
  }

  /** Main result: the recogniser accepts a text exactly when it is a value of the grammar, blanks around it. */
  lemma IsJsonExactlyWhenWritten(t: string)
    ensures IsJson(t) <==> exists lead, v, trail :: Written(t, lead, v, trail)
  {
    if IsJson(t) {
      JsonIsWritten(t);
    }
    if lead, v, trail :| Written(t, lead, v, trail) {
      WrittenIsJson(t, lead, v, trail);
    }
  }

  lemma JsonIsWritten(t: string)
    requires IsJson(t)
    ensures exists lead, v, trail :: Written(t, lead, v, trail)
  {
    hide ValueEnd, SkipBlanks, Good, TextOf, Blank;
    var i := SkipBlanks(t, 0);
    BlanksWritten(t, 0);
    var v := ValueWritten(t, i);
    var end := i + |TextOf(v)|;
    ValueAdvances(t, i);
    BlanksWritten(t, end);
    assert t[i..end] == TextOf(v);
    assert t == t[0..i] + (TextOf(v) + t[end..|t|]);
    assert Written(t, t[0..i], v, t[end..|t|]);
  }

  lemma WrittenIsJson(t: string, lead: string, v: Tree, trail: string)
    requires Written(t, lead, v, trail)
    ensures IsJson(t)
  {
    hide ValueEnd, SkipBlanks, Good, TextOf, Blank, Delimited, IsBlank;
    assert Has(t, 0, lead + (TextOf(v) + trail));
    HasSplit(t, 0, lead, TextOf(v) + trail);
    HasSplit(t, |lead|, TextOf(v), trail);
    var end := |lead| + |TextOf(v)|;
    ValueStart(t, |lead|, v);
    SkipsBlanks(t, 0, lead);
    BlankDelimits(t, end, trail);
    ValueReads(t, |lead|, v);
    SkipsBlanks(t, end, trail);
  }

  lemma BlankDelimits(t: string, i: nat, trail: string)
    requires Has(t, i, trail) && i + |trail| == |t| && Blank(trail)
    ensures Delimited(t, i)
  {
    if trail != "" {
      HasAt(t, i, trail, 0);
    }
  }

  /** What the loader trims off at the ends. */
  predicate Trimmed(s: string) {
    forall k :: 0 <= k < |s| ==> IsJsSpace(s[k])
  }

  lemma {:induction false} TrimLeftAround(lead: string, rest: string)
    requires Trimmed(lead) && rest != "" && !IsJsSpace(rest[0])
    ensures TrimLeft(lead + rest, IsJsSpace) == rest
  {
    if lead == "" {
      assert lead + rest == rest;
    } else {
      assert (lead + rest)[1..] == lead[1..] + rest;
      TrimLeftAround(lead[1..], rest);
    }
  }

  lemma {:induction false} TrimRightAround(text: string, trail: string)
    requires Trimmed(trail) && text != "" && !IsJsSpace(text[|text| - 1])
    ensures TrimRight(text + trail, IsJsSpace) == text
    decreases |trail|
  {
    var all := text + trail;
    if trail == "" {
      assert all == text;
    } else {
      assert all[..|all| - 1] == text + trail[..|trail| - 1];
      assert all[|all| - 1] == trail[|trail| - 1];
      TrimRightAround(text, trail[..|trail| - 1]);
    }
  }

  lemma TrimsAround(lead: string, text: string, trail: string)
    requires Trimmed(lead) && Trimmed(trail) && text != "" && !IsJsSpace(text[0]) && !IsJsSpace(text[|text| - 1])
    ensures Trim(WithoutMark(lead + (text + trail)), IsJsSpace) == text
  {
    hide IsJsSpace;
    var all := lead + (text + trail);
    if StartsWith(all, "\U{FEFF}") {
      assert all[0] == '\U{FEFF}';
      MarkIsSpace();
      assert (text + trail)[0] == text[0];
      assert lead == "" ==> all == text + trail;
      assert all[1..] == lead[1..] + (text + trail);
      TrimLeftAround(lead[1..], text + trail);
    } else {
      TrimLeftAround(lead, text + trail);
    }
    TrimRightAround(text, trail);
  }

  lemma MarkIsSpace()
    ensures IsJsSpace('\U{FEFF}')
  {
  }

  lemma {:induction false} ElementsLast(elements: seq<Element>)
    requires elements != []
    ensures var s := ElementsText(elements); s != "" && s[|s| - 1] == ']'
    decreases |elements|
  {
    hide TextOf;
    if |elements| > 1 {
      ElementsLast(elements[1..]);
    }
  }

  lemma {:induction false} MembersLast(members: seq<Member>)
    requires members != []
    ensures var s := MembersText(members); s != "" && s[|s| - 1] == '}'
    decreases |members|
  {
    hide TextOf, PiecesText;
    if |members| > 1 {
      MembersLast(members[1..]);
    }
    var tail := MembersTail(members);
    assert tail[|tail| - 1] == '}' by {
      if |members| > 1 {
        assert tail == "," + (members[1].before + MembersText(members[1..]));
      }
    }
    MembersSplit(members);
    EndsLikeTail(members);
  }

  lemma EndsLikeTail(members: seq<Member>)
    requires members != []
    ensures var (s, tail) := (MembersText(members), MembersTail(members));
            s != "" && tail != "" && s[|s| - 1] == tail[|tail| - 1]
  {
    hide TextOf, PiecesText, MembersTail, ColonText;
    MembersSplit(members);
    var c, tail := ColonText(members), MembersTail(members);
    var inner := members[0].colonAfter + (TextOf(members[0].value) + (members[0].after + tail));
    assert c == ":" + inner;
    assert inner[|inner| - 1] == tail[|tail| - 1];
    assert c[|c| - 1] == inner[|inner| - 1];
    var s := MembersText(members);
    assert s[|s| - 1] == c[|c| - 1];
  }

  lemma CollectionEnds(v: Tree)
    requires v.Arr? || v.Obj?
    ensures var s := TextOf(v);
            s != "" && s[0] in {'{', '['} && !IsJsSpace(s[0]) && !IsJsSpace(s[|s| - 1])
  {
    hide ElementsText, MembersText;
    match v
    case Arr(_, elements) =>
      if elements != [] {
        ElementsLast(elements);
      }
    case Obj(_, members) =>
      if members != [] {
        MembersLast(members);
      }
  }

  /** Main result: the loader takes every object and array that is written as JSON, under every file name and with
      any white space around it, a byte order mark included. */
  lemma LoadsEveryCollection(v: Tree, lead: string, trail: string, filename: string)
    requires Good(v) && (v.Arr? || v.Obj?) && Trimmed(lead) && Trimmed(trail)
    ensures LoadOpenApiSpec(lead + (TextOf(v) + trail), filename) == Success(Flow(TextOf(v)))
  {
    hide Json.IsJson, Trim, Good, WithoutMark, NamesYaml, LaterColon;
    var text := TextOf(v);
    CollectionEnds(v);
    assert Written(text, "", v, "") by {
      assert text == "" + (text + "");
    }
    WrittenIsJson(text, "", v, "");
    TrimsAround(lead, text, trail);
  }
}
