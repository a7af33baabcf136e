/** Which texts are JSON documents: the grammar of RFC 8259, sections 2 to 7. */
module Json {
  import opened Wrappers
  import opened Text

  predicate IsBlank(c: char) {
    c == ' ' || c == '\t' || c == '\n' || c == '\r'
  }

  function SkipBlanks(t: string, i: nat): (j: nat)
    requires i <= |t|
    ensures i <= j <= |t| && forall k :: i <= k < j ==> IsBlank(t[k])
    decreases |t| - i
  {
    if i < |t| && IsBlank(t[i]) then SkipBlanks(t, i + 1) else i
  }

  function SkipDigits(t: string, i: nat): (j: nat)
    requires i <= |t|
    ensures i <= j <= |t| && forall k :: i <= k < j ==> IsDigit(t[k])
    decreases |t| - i
  {
    if i < |t| && IsDigit(t[i]) then SkipDigits(t, i + 1) else i
  }

  predicate IsHexDigit(c: char) {
    IsDigit(c) || 'a' <= c <= 'f' || 'A' <= c <= 'F'
  }

  /** The end of one or more digits. */
  function DigitsEnd(t: string, i: nat): Option<nat>
    requires i <= |t|
  {
    var j := SkipDigits(t, i);
    if j > i then Some(j) else None
  }

  /** The end of the integer part of a number; a leading zero stands alone. */
  function IntegerEnd(t: string, i: nat): Option<nat>
    requires i <= |t|
  {
    if i < |t| && t[i] == '0' then Some(i + 1) else DigitsEnd(t, i)
  }

  function FractionEnd(t: string, i: nat): Option<nat>
    requires i <= |t|
  {
    if i < |t| && t[i] == '.' then DigitsEnd(t, i + 1) else Some(i)
  }

  function ExponentEnd(t: string, i: nat): Option<nat>
    requires i <= |t|
  {
    if i < |t| && t[i] in {'e', 'E'} then
      DigitsEnd(t, if i + 1 < |t| && t[i + 1] in {'+', '-'} then i + 2 else i + 1)
    else Some(i)
  }

  function NumberEnd(t: string, i: nat): Option<nat>
    requires i < |t|
  {
    match IntegerEnd(t, if t[i] == '-' then i + 1 else i)
    case None => None
    case Some(j) =>
      match FractionEnd(t, j)
      case None => None
      case Some(k) => ExponentEnd(t, k)
  }

  /** The end of a string whose opening quote is before `i`. */
  function StringEnd(t: string, i: nat): (end: Option<nat>)
    requires i <= |t|
    ensures end.Some? ==> i < end.value <= |t|
    decreases |t| - i
  {
    if i == |t| || t[i] < ' ' then None
    else if t[i] == '"' then Some(i + 1)
    else if t[i] != '\\' then StringEnd(t, i + 1)
    else if i + 1 < |t| && t[i + 1] in {'"', '\\', '/', 'b', 'f', 'n', 'r', 't'} then StringEnd(t, i + 2)
    else if i + 5 < |t| && t[i + 1] == 'u' && forall k :: i + 2 <= k < i + 6 ==> IsHexDigit(t[k]) then
      StringEnd(t, i + 6)
    else None
  }

  predicate HasWord(t: string, i: nat, word: string) {
    i + |word| <= |t| && t[i..i + |word|] == word
  }

  function WordOrNumberEnd(t: string, i: nat): (end: Option<nat>)
    requires i < |t|
    ensures end.Some? ==> i < end.value <= |t|
  {
    if HasWord(t, i, "true") || HasWord(t, i, "null") then Some(i + 4)
    else if HasWord(t, i, "false") then Some(i + 5)
    else
      NumberAdvances(t, i);
      NumberEnd(t, i)
  }

  /** The end of the value that starts at `i`. */
  function ValueEnd(t: string, i: nat): (end: Option<nat>)
    requires i <= |t|
    ensures end.Some? ==> i < end.value <= |t|
    decreases |t| - i, 1
  {
    if i == |t| then None
    else if t[i] == '{' then
      var j := SkipBlanks(t, i + 1);
      if j < |t| && t[j] == '}' then Some(j + 1) else MembersEnd(t, j)
    else if t[i] == '[' then
      var j := SkipBlanks(t, i + 1);
      if j < |t| && t[j] == ']' then Some(j + 1) else ElementsEnd(t, j)
    else if t[i] == '"' then StringEnd(t, i + 1)
    else WordOrNumberEnd(t, i)
  }

  /** The end of an object whose next member starts at `i`. */
  function MembersEnd(t: string, i: nat): (end: Option<nat>)
    requires i <= |t|
    ensures end.Some? ==> i < end.value <= |t|
    decreases |t| - i, 0
  {
    if i == |t| || t[i] != '"' then None
    else
      match StringEnd(t, i + 1)
      case None => None
      case Some(j) =>
        var colon := SkipBlanks(t, j);
        if colon == |t| || t[colon] != ':' then None
        else
          match ValueEnd(t, SkipBlanks(t, colon + 1))
          case None => None
          case Some(k) => AfterMember(t, k)
  }

  /** The end of an object after the value of a member. */
  function AfterMember(t: string, k: nat): (end: Option<nat>)
    requires k <= |t|
    ensures end.Some? ==> k < end.value <= |t|
    decreases |t| - k, 2
  {
    var next := SkipBlanks(t, k);
    if next == |t| then None
    else if t[next] == '}' then Some(next + 1)
    else if t[next] == ',' then MembersEnd(t, SkipBlanks(t, next + 1))
    else None
  }

  /** The end of an array whose next element starts at `i`. */
  function ElementsEnd(t: string, i: nat): (end: Option<nat>)
    requires i <= |t|
    ensures end.Some? ==> i < end.value <= |t|
    decreases |t| - i, 2
  {
    match ValueEnd(t, i)
    case None => None
    case Some(k) =>
      var next := SkipBlanks(t, k);
      if next == |t| then None
      else if t[next] == ']' then Some(next + 1)
      else if t[next] == ',' then ElementsEnd(t, SkipBlanks(t, next + 1))
      else None
  }

  predicate IsJson(t: string) {
    var end := ValueEnd(t, SkipBlanks(t, 0));
    end.Some? && SkipBlanks(t, end.value) == |t|
  }

  // ----- What every document has -----

  /** A stretch in which every colon follows a double quote. */
  ghost predicate Guarded(t: string, i: nat, end: nat) {
    && i <= end <= |t|
    && forall k :: i <= k < end && t[k] == ':' ==> '"' in t[i..k]
  }

  lemma NumberAdvances(t: string, i: nat)
    requires i < |t|
    ensures NumberEnd(t, i).Some? ==> i < NumberEnd(t, i).value <= |t| && NoColon(t, i, NumberEnd(t, i).value)
  {
    var start := if t[i] == '-' then i + 1 else i;
    assert NoColon(t, i, start);
  }

  predicate NoColon(t: string, i: nat, end: nat)
    requires end <= |t|
  {
    forall k :: i <= k < end ==> t[k] != ':'
  }

  lemma GuardedJoin(t: string, i: nat, j: nat, end: nat)
    requires Guarded(t, i, j) && Guarded(t, j, end)
    ensures Guarded(t, i, end)
  {
    forall k | i <= k < end && t[k] == ':' ensures '"' in t[i..k] {
      if k >= j {
        assert t[i..k] == t[i..j] + t[j..k];
      }
    }
  }

  lemma QuoteGuards(t: string, i: nat, end: nat)
    requires i < end <= |t| && t[i] == '"'
    ensures Guarded(t, i, end)
  {
    forall k | i <= k < end && t[k] == ':' ensures '"' in t[i..k] {
      assert t[i..k][0] == '"';
    }
  }

  lemma BlanksGuard(t: string, i: nat)
    requires i <= |t|
    ensures Guarded(t, i, SkipBlanks(t, i))
  {
  }

  lemma {:induction false} ValueGuarded(t: string, i: nat)
    requires i <= |t|
    ensures ValueEnd(t, i).Some? ==> Guarded(t, i, ValueEnd(t, i).value)
    decreases |t| - i, 1
  {
    hide Guarded, StringEnd, WordOrNumberEnd, MembersEnd, ElementsEnd;
    if ValueEnd(t, i).Some? {
      var end := ValueEnd(t, i).value;
      if t[i] == '{' {
        OneGuards(t, i);
        BlanksGuard(t, i + 1);
        var j := SkipBlanks(t, i + 1);
        GuardedJoin(t, i, i + 1, j);
        if t[j] == '}' {
          OneGuards(t, j);
        } else {
          MembersGuarded(t, j);
        }
        GuardedJoin(t, i, j, end);
      } else if t[i] == '[' {
        OneGuards(t, i);
        BlanksGuard(t, i + 1);
        var j := SkipBlanks(t, i + 1);
        GuardedJoin(t, i, i + 1, j);
        if j < |t| && t[j] == ']' {
          OneGuards(t, j);
        } else {
          ElementsGuarded(t, j);
        }
        GuardedJoin(t, i, j, end);
      } else if t[i] == '"' {
        QuoteGuards(t, i, end);
      } else {
        PlainGuarded(t, i);
      }
    }
  }

  lemma OneGuards(t: string, i: nat)
    requires i < |t| && t[i] != ':'
    ensures Guarded(t, i, i + 1)
  {
  }

  lemma WordGuarded(t: string, i: nat, word: string)
    requires HasWord(t, i, word) && forall k :: 0 <= k < |word| ==> word[k] != ':'
    ensures Guarded(t, i, i + |word|)
  {
    forall k | i <= k < i + |word| ensures t[k] != ':' {
      assert t[k] == t[i..i + |word|][k - i];
    }
  }

  lemma NumberGuarded(t: string, i: nat)
    requires i < |t| && NumberEnd(t, i).Some?
    ensures i < NumberEnd(t, i).value <= |t| && Guarded(t, i, NumberEnd(t, i).value)
  {
    hide NumberEnd;
    NumberAdvances(t, i);
  }

  lemma PlainGuarded(t: string, i: nat)
    requires i < |t| && WordOrNumberEnd(t, i).Some?
    ensures Guarded(t, i, WordOrNumberEnd(t, i).value)
  {
    hide NumberEnd, Guarded, HasWord;
    if HasWord(t, i, "true") {
      WordGuarded(t, i, "true");
    } else if HasWord(t, i, "null") {
      WordGuarded(t, i, "null");
    } else if HasWord(t, i, "false") {
      WordGuarded(t, i, "false");
    } else {
      NumberGuarded(t, i);
    }
  }

  lemma MembersGuarded(t: string, i: nat)
    requires i <= |t|
    ensures MembersEnd(t, i).Some? ==> Guarded(t, i, MembersEnd(t, i).value)
  {
    if MembersEnd(t, i).Some? {
      QuoteGuards(t, i, MembersEnd(t, i).value);
    }
  }

  lemma {:induction false} ElementsGuarded(t: string, i: nat)
    requires i <= |t|
    ensures ElementsEnd(t, i).Some? ==> Guarded(t, i, ElementsEnd(t, i).value)
    decreases |t| - i, 2
  {
    hide Guarded, ValueEnd;
    if ElementsEnd(t, i).Some? {
      ValueGuarded(t, i);
      var k := ValueEnd(t, i).value;
      var next := SkipBlanks(t, k);
      BlanksGuard(t, k);
      OneGuards(t, next);
      GuardedJoin(t, i, k, next);
      GuardedJoin(t, i, next, next + 1);
      if t[next] == ',' {
        var rest := SkipBlanks(t, next + 1);
        BlanksGuard(t, next + 1);
        GuardedJoin(t, i, next + 1, rest);
        ElementsGuarded(t, rest);
        GuardedJoin(t, i, rest, ElementsEnd(t, i).value);
      }
    }
  }

  /** In a JSON document a double quote comes before every colon. */
  lemma QuoteBeforeColon(t: string, k: nat)
    requires IsJson(t) && k < |t| && t[k] == ':'
    ensures '"' in t[..k]
  {
    hide Guarded, ValueEnd;
    var start := SkipBlanks(t, 0);
    var end := ValueEnd(t, start).value;
    BlanksGuard(t, 0);
    ValueGuarded(t, start);
    BlanksGuard(t, end);
    GuardedJoin(t, 0, start, end);
    GuardedJoin(t, 0, end, |t|);
    GuardedAt(t, k);
  }

  lemma GuardedAt(t: string, k: nat)
    requires Guarded(t, 0, |t|) && k < |t| && t[k] == ':'
    ensures '"' in t[..k]
  {
    assert t[0..k] == t[..k];
  }

  /** In a JSON document a leading minus sign starts a number. */
  lemma DigitAfterMinus(t: string)
    requires IsJson(t) && t != "" && t[0] == '-'
    ensures |t| > 1 && IsDigit(t[1])
  {
    assert SkipBlanks(t, 0) == 0;
    WordStart(t, "true");
    WordStart(t, "null");
    WordStart(t, "false");
    assert WordOrNumberEnd(t, 0) == NumberEnd(t, 0);
    assert IntegerEnd(t, 1).Some?;
  }

  lemma WordStart(t: string, word: string)
    requires t != "" && word != ""
    ensures HasWord(t, 0, word) ==> t[0] == word[0]
  {
    if HasWord(t, 0, word) {
      assert t[0..|word|][0] == t[0];
    }
  }
}
