/** The string handling the services rely on: Python's `str.strip()` (used by the
    blank-skipping updates), `str(int)` (used in display labels) and the labels themselves. */
module Strings {
  import opened Common

  /** Python's `str.isspace()` for a single character. */
  predicate IsSpace(c: char) {
    || ('\t' <= c <= '\r')
    || ('\U{1C}' <= c <= ' ')
    || c == '\U{85}' || c == '\U{A0}' || c == '\U{1680}'
    || ('\U{2000}' <= c <= '\U{200A}')
    || c == '\U{2028}' || c == '\U{2029}' || c == '\U{202F}' || c == '\U{205F}' || c == '\U{3000}'
  }

  predicate Blank(s: string) {
    forall i :: 0 <= i < |s| ==> IsSpace(s[i])
  }

  /** Drops leading whitespace: the result is a suffix of `s`, what was dropped is blank,
      and the result starts with a non-space character unless it is empty. */
  function StripLeft(s: string): (r: string)
    ensures |r| <= |s| && r == s[|s| - |r|..]
    ensures Blank(s[..|s| - |r|])
    ensures |r| > 0 ==> !IsSpace(r[0])
    ensures |r| == 0 <==> Blank(s)
  {
    if |s| > 0 && IsSpace(s[0]) then
      var r := StripLeft(s[1..]);
      assert s[1..][..|s[1..]| - |r|] == s[1..|s| - |r|];
      r
    else s
  }

  /** Drops trailing whitespace: the result is a prefix of `s`, what was dropped is blank,
      and the result ends with a non-space character unless it is empty. */
  function StripRight(s: string): (r: string)
    ensures |r| <= |s| && r == s[..|r|]
    ensures Blank(s[|r|..])
    ensures |r| > 0 ==> !IsSpace(r[|r| - 1])
    ensures |r| == 0 <==> Blank(s)
  {
    if |s| > 0 && IsSpace(s[|s| - 1]) then
      var r := StripRight(s[..|s| - 1]);
      assert s[..|s| - 1][|r|..] == s[|r|..|s| - 1];
      assert forall i :: |r| <= i < |s| ==> IsSpace(s[i]) by {
        forall i | |r| <= i < |s| ensures IsSpace(s[i]) {
          if i < |s| - 1 { assert s[i] == s[..|s| - 1][|r|..][i - |r|]; }
        }
      }
      r
    else s
  }

  /** Taking the suffix from `i`, then splitting it at `n`, splits `s` at `i + n`. */
  lemma SuffixSplit<T>(s: seq<T>, i: nat, n: nat)
    requires i + n <= |s|
    ensures s[i..][..n] == s[i..i + n] && s[i..][n..] == s[i + n..]
  {
  }

  /** How many blank characters `s` starts with: the prefix of that length is blank and
      the next character, if any, is not. */
  function LeadingBlanks(s: string): (k: nat)
    ensures k <= |s| && Blank(s[..k])
    ensures k < |s| ==> !IsSpace(s[k])
  {
    |s| - |StripLeft(s)|
  }

  /** Python's `str.strip()` with no argument: `s` with its leading blanks and a blank
      suffix cut off, leaving text that is empty or starts and ends with a non-space. */
  function Strip(s: string): (r: string)
    ensures LeadingBlanks(s) + |r| <= |s|
    ensures r == s[LeadingBlanks(s)..LeadingBlanks(s) + |r|]
    ensures Blank(s[LeadingBlanks(s) + |r|..])
    ensures |r| == 0 <==> Blank(s)
    ensures |r| > 0 ==> !IsSpace(r[0]) && !IsSpace(r[|r| - 1])
  {
    var t := StripLeft(s);
    var r := StripRight(t);
    SuffixSplit(s, |s| - |t|, |r|);
    assert |t| > 0 ==> |r| > 0;
    r
  }

  /** The guard `v and v.strip()` of the blank-skipping updates: the argument is present
      and holds at least one non-space character. */
  function Supplied(v: Text): (b: bool)
    ensures b <==> v.Some? && exists i :: 0 <= i < |v.value| && !IsSpace(v.value[i])
    ensures b ==> Truthy(v)
  {
    Truthy(v) && |Strip(v.value)| > 0
  }

  predicate IsDigit(c: char) {
    '0' <= c <= '9'
  }

  predicate AllDigits(s: string) {
    forall i :: 0 <= i < |s| ==> IsDigit(s[i])
  }

  function DigitChar(d: int): (c: char)
    requires 0 <= d < 10
    ensures IsDigit(c) && c as int - '0' as int == d
  {
    (d + '0' as int) as char
  }

  /** The number a string of decimal digits denotes. */
  function DigitsValue(s: string): (n: nat)
    requires AllDigits(s)
  {
    if |s| == 0 then 0 else DigitsValue(s[..|s| - 1]) * 10 + (s[|s| - 1] as int - '0' as int)
  }

  /** Python's `str(n)` for a natural number: decimal digits, no sign, no leading zero. */
  function NatToString(n: nat): (s: string)
    ensures |s| > 0 && AllDigits(s)
    ensures DigitsValue(s) == n
    ensures |s| > 1 ==> s[0] != '0'
    decreases n
  {
    if n < 10 then [DigitChar(n)]
    else
      var p := NatToString(n / 10);
      var s := p + [DigitChar(n % 10)];
      assert s[..|s| - 1] == p;
      s
  }

  /** Reads back what `IntToString` writes: an optional minus sign followed by digits. */
  function ParseInt(s: string): Option<int> {
    if |s| > 1 && s[0] == '-' && AllDigits(s[1..]) then Some(0 - DigitsValue(s[1..]))
    else if |s| > 0 && AllDigits(s) then Some(DigitsValue(s))
    else None
  }

  /** Python's `str(n)` (the `f"{n}"` of the display labels); it reads back as `n` and
      never contains the colon the labels use as separator. */
  function IntToString(n: int): (s: string)
    ensures ParseInt(s) == Some(n)
    ensures forall i :: 0 <= i < |s| ==> s[i] != ':'
  {
    if n < 0 then
      var d := NatToString(-n);
      var s := "-" + d;
      assert s[1..] == d;
      s
    else NatToString(n)
  }

  /** The `f"{id}: {name}"` label of the listings. */
  function DisplayName(id: int, name: string): string {
    IntToString(id) + ": " + name
  }

  /** The `f"Feedback {id}"` label of the feedback listing. */
  function FeedbackLabel(id: int): string {
    "Feedback " + IntToString(id)
  }

  /** The index of the first colon in `s`, or `|s|` when there is none. */
  function FirstColon(s: string): (k: nat)
    ensures k <= |s|
  {
    if |s| == 0 || s[0] == ':' then 0 else 1 + FirstColon(s[1..])
  }

  /** A colon-free prefix followed by a colon puts the first colon right after the prefix. */
  lemma {:induction false} ColonAfterPrefix(a: string, rest: string)
    requires forall i :: 0 <= i < |a| ==> a[i] != ':'
    requires |rest| > 0 && rest[0] == ':'
    ensures FirstColon(a + rest) == |a|
  {
    if |a| > 0 {
      assert (a + rest)[1..] == a[1..] + rest;
      ColonAfterPrefix(a[1..], rest);
    }
  }

  /** A display label determines both the id and the name it was built from. */
  lemma DisplayNameInjective(i: int, x: string, j: int, y: string)
    requires DisplayName(i, x) == DisplayName(j, y)
    ensures i == j && x == y
  {
    var a, b := IntToString(i), IntToString(j);
    var d := DisplayName(i, x);
    assert d == a + ": " + x;
    assert d == b + ": " + y;
    ColonAfterPrefix(a, ": " + x);
    ColonAfterPrefix(b, ": " + y);
    assert (a + ": " + x) == a + (": " + x);
    assert (b + ": " + y) == b + (": " + y);
    assert a == d[..|a|] == b;
    assert x == d[|a| + 2..] == y;
  }

  /** Two feedback labels are equal only for the same id. */
  lemma FeedbackLabelInjective(i: int, j: int)
    requires FeedbackLabel(i) == FeedbackLabel(j)
    ensures i == j
  {
    var p := "Feedback ";
    assert IntToString(i) == FeedbackLabel(i)[|p|..];
    assert IntToString(j) == FeedbackLabel(j)[|p|..];
  }
}
