/** String operations that the Python and JavaScript sources take from their standard libraries. */
module Text {

  /** The characters that Python's `str.strip` removes. */
  predicate IsPySpace(c: char) {
    || c == ' ' || '\t' <= c <= '\r' || '\U{001C}' <= c <= '\U{001F}'
    || c == '\U{0085}' || c == '\U{00A0}' || c == '\U{1680}' || '\U{2000}' <= c <= '\U{200A}'
    || c == '\U{2028}' || c == '\U{2029}' || c == '\U{202F}' || c == '\U{205F}' || c == '\U{3000}'
  }

  /** The characters that ECMAScript's `trim` and `\s` accept. */
  predicate IsJsSpace(c: char) {
    || c == ' ' || '\t' <= c <= '\r'
    || c == '\U{00A0}' || c == '\U{1680}' || '\U{2000}' <= c <= '\U{200A}'
    || c == '\U{2028}' || c == '\U{2029}' || c == '\U{202F}' || c == '\U{205F}' || c == '\U{3000}'
    || c == '\U{FEFF}'
  }

  /** The characters at which Python's `str.splitlines` ends a line. */
  predicate IsLineBreak(c: char) {
    || '\n' <= c <= '\r' || '\U{001C}' <= c <= '\U{001E}'
    || c == '\U{0085}' || c == '\U{2028}' || c == '\U{2029}'
  }

  function TrimLeft(s: string, space: char -> bool): (r: string)
    ensures |r| <= |s|
  {
    if s != [] && space(s[0]) then TrimLeft(s[1..], space) else s
  }

  function TrimRight(s: string, space: char -> bool): string {
    if s != [] && space(s[|s| - 1]) then TrimRight(s[..|s| - 1], space) else s
  }

  function Trim(s: string, space: char -> bool): string {
    TrimRight(TrimLeft(s, space), space)
  }

  function Spaces(n: nat): (s: string)
    ensures |s| == n && forall i :: 0 <= i < n ==> s[i] == ' '
  {
    seq(n, _ => ' ')
  }

  predicate StartsWith(s: string, prefix: string) {
    prefix <= s
  }

  predicate EndsWith(s: string, suffix: string) {
    |suffix| <= |s| && s[|s| - |suffix|..] == suffix
  }

  /** Position of the first `c` at or after `from`, or the length when there is none. */
  function IndexFrom(s: string, c: char, from: nat): (k: nat)
    requires from <= |s|
    ensures from <= k <= |s|
    ensures k < |s| ==> s[k] == c
    ensures forall j :: from <= j < k ==> s[j] != c
    decreases |s| - from
  {
    if from == |s| || s[from] == c then from else IndexFrom(s, c, from + 1)
  }

  /** Position of the first occurrence of `pattern`, or the length when there is none. */
  function IndexOfString(s: string, pattern: string): (k: nat)
    ensures k <= |s|
    ensures k < |s| ==> pattern <= s[k..]
    ensures forall j :: 0 <= j < k ==> !(pattern <= s[j..])
  {
    if s == [] || pattern <= s then 0
    else
      var k := 1 + IndexOfString(s[1..], pattern);
      assert forall j :: 1 <= j <= |s| ==> s[j..] == s[1..][j - 1..];
      k
  }

  predicate Contains(s: string, pattern: string)
    requires pattern != []
  {
    IndexOfString(s, pattern) < |s|
  }

  /** Python's `s.replace(a + b, with)` for a two-character pattern. */
  function ReplacePair(s: string, a: char, b: char, with: string): string {
    if s == [] then []
    else if |s| >= 2 && s[0] == a && s[1] == b then with + ReplacePair(s[2..], a, b, with)
    else [s[0]] + ReplacePair(s[1..], a, b, with)
  }

  /** Python's `s.replace(a, with)` for a one-character pattern. */
  function ReplaceChar(s: string, a: char, with: string): string {
    if s == [] then []
    else if s[0] == a then with + ReplaceChar(s[1..], a, with)
    else [s[0]] + ReplaceChar(s[1..], a, with)
  }

  // ----- Decimal integers -----

  predicate IsDigit(c: char) {
    '0' <= c <= '9'
  }

  predicate AllDigits(s: string) {
    forall i :: 0 <= i < |s| ==> IsDigit(s[i])
  }

  function DigitValue(c: char): nat
    requires IsDigit(c)
  {
    c as int - '0' as int
  }

  function NatValue(s: string): nat
    requires AllDigits(s)
  {
    if s == [] then 0 else NatValue(s[..|s| - 1]) * 10 + DigitValue(s[|s| - 1])
  }

  function NatText(n: nat): (s: string)
    ensures s != [] && AllDigits(s)
    ensures n > 0 ==> s[0] != '0'
  {
    var last := ['0' + (n % 10) as char];
    if n < 10 then last else NatText(n / 10) + last
  }

  lemma {:induction false} NatTextValue(n: nat)
    ensures NatValue(NatText(n)) == n
  {
    var s := NatText(n);
    if n >= 10 {
      NatTextValue(n / 10);
      assert s[..|s| - 1] == NatText(n / 10);
    } else {
      assert s[..|s| - 1] == [];
    }
  }

  /** Whether the whole string matches `-?\d+`. */
  predicate IsIntText(s: string) {
    var digits := if s != [] && s[0] == '-' then s[1..] else s;
    digits != [] && AllDigits(digits)
  }

  function IntValue(s: string): int
    requires IsIntText(s)
  {
    if s[0] == '-' then 0 - NatValue(s[1..]) else NatValue(s)
  }

  function IntText(n: int): (s: string) {
    if n < 0 then "-" + NatText(-n) else NatText(n)
  }

  lemma IntTextValue(n: int)
    ensures IsIntText(IntText(n)) && IntValue(IntText(n)) == n
  {
    NatTextValue(if n < 0 then -n else n);
  }

  // ----- Trimming facts -----

  /** Trimming leaves a text alone whose two ends are not white space. */
  lemma TrimKeeps(s: string, space: char -> bool)
    requires s != [] && !space(s[0]) && !space(s[|s| - 1])
    ensures Trim(s, space) == s && TrimLeft(s, space) == s && TrimRight(s, space) == s
  {
  }

  lemma TrimDropsSpace(s: string, space: char -> bool)
    requires space(' ')
    requires s != [] && !space(s[0]) && !space(s[|s| - 1])
    ensures Trim(" " + s, space) == s && TrimLeft(" " + s, space) == s
  {
    assert (" " + s)[1..] == s;
    TrimKeeps(s, space);
  }

  lemma {:induction false} TrimLeftSpaces(n: nat, s: string, space: char -> bool)
    requires space(' ')
    requires s != [] && !space(s[0])
    ensures TrimLeft(Spaces(n) + s, space) == s
  {
    if n > 0 {
      TrimLeftSpaces(n - 1, s, space);
      assert (Spaces(n) + s)[1..] == Spaces(n - 1) + s;
    } else {
      assert Spaces(n) + s == s;
    }
  }
}
