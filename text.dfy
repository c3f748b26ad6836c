/**
  The string operations the application relies on: `toLowerCase`, `includes`,
  `trim`, printing an integer (`toString`, template literals) and reading one
  back with `Number(...)` or `parseInt(..., 10)`.

  Numbers are integers here: `Number` and `parseInt` are modelled on text that
  spells an integer, and anything else (fractions, exponents, hexadecimal,
  "Infinity") reads as NaN, i.e. `None`.
 */
module Text {
  import opened Common

  /** The characters JavaScript's `trim` removes and `\s` matches. */
  predicate IsWhitespace(c: char) {
    c == ' ' || c == '\t' || c == '\n' || c == '\r' || c == '\U{000B}' || c == '\U{000C}'
    || c == '\U{00A0}' || c == '\U{1680}' || ('\U{2000}' <= c <= '\U{200A}')
    || c == '\U{2028}' || c == '\U{2029}' || c == '\U{202F}' || c == '\U{205F}'
    || c == '\U{3000}' || c == '\U{FEFF}'
  }

  /** `toLowerCase` on the ASCII letters. */
  function LowerChar(c: char): char {
    if 'A' <= c <= 'Z' then (c as int + 32) as char else c
  }

  function ToLower(s: string): (r: string)
    ensures |r| == |s|
    ensures forall i :: 0 <= i < |s| ==> r[i] == LowerChar(s[i])
  {
    if s == [] then [] else [LowerChar(s[0])] + ToLower(s[1..])
  }

  /** `text.toLowerCase() === other.toLowerCase()`, MySQL's `LOWER(a) = LOWER(b)` */
  predicate SameIgnoringCase(a: string, b: string) {
    ToLower(a) == ToLower(b)
  }

  predicate IsPrefix(p: string, s: string) {
    |p| <= |s| && s[..|p|] == p
  }

  /** `needle` occurs in `hay` starting at position `i`. */
  predicate OccursAt(hay: string, needle: string, i: int) {
    0 <= i <= |hay| - |needle| && hay[i..i + |needle|] == needle
  }

  /** `hay.includes(needle)` */
  function Includes(hay: string, needle: string): (r: bool)
    ensures r <==> exists i :: OccursAt(hay, needle, i)
  {
    if IsPrefix(needle, hay) then
      assert OccursAt(hay, needle, 0);
      true
    else if hay == [] then false
    else
      var r := Includes(hay[1..], needle);
      assert forall i :: OccursAt(hay[1..], needle, i) ==> OccursAt(hay, needle, i + 1);
      assert forall i :: OccursAt(hay, needle, i) ==> i == 0 || OccursAt(hay[1..], needle, i - 1);
      r
  }

  /** Every text includes the empty text, which is what an empty search box finds. */
  lemma IncludesEmpty(hay: string)
    ensures Includes(hay, "")
  {
    assert OccursAt(hay, "", 0);
  }

  predicate AllWhitespace(s: string) {
    forall k :: 0 <= k < |s| ==> IsWhitespace(s[k])
  }

  /** `trimStart`: drops the leading white space and nothing else. */
  function TrimStart(s: string): (r: string)
    ensures |r| <= |s|
    ensures r == [] || !IsWhitespace(r[0])
  {
    if s != [] && IsWhitespace(s[0]) then TrimStart(s[1..]) else s
  }

  /** `trimEnd`: drops the trailing white space and nothing else. */
  function TrimEnd(s: string): (r: string)
    ensures |r| <= |s|
    ensures r == [] || !IsWhitespace(r[|r| - 1])
  {
    if s != [] && IsWhitespace(s[|s| - 1]) then TrimEnd(s[..|s| - 1]) else s
  }

  /** What `TrimStart` keeps is a suffix of `s`, and it removed white space only. */
  lemma {:induction false} TrimStartDrops(s: string)
    ensures TrimStart(s) == s[|s| - |TrimStart(s)|..]
    ensures AllWhitespace(s[..|s| - |TrimStart(s)|])
  {
    if s != [] && IsWhitespace(s[0]) {
      TrimStartDrops(s[1..]);
      var n := |s| - |TrimStart(s)|;
      assert s[..n] == [s[0]] + s[1..][..n - 1];
    }
  }

  /** What `TrimEnd` keeps is a prefix of `s`, and it removed white space only. */
  lemma {:induction false} TrimEndDrops(s: string)
    ensures TrimEnd(s) == s[..|TrimEnd(s)|]
    ensures AllWhitespace(s[|TrimEnd(s)|..])
  {
    if s != [] && IsWhitespace(s[|s| - 1]) {
      var init := s[..|s| - 1];
      TrimEndDrops(init);
      var n := |TrimEnd(s)|;
      assert s[n..] == init[n..] + [s[|s| - 1]];
    }
  }

  /** `String(s).trim()` */
  function Trim(s: string): string {
    TrimEnd(TrimStart(s))
  }

  predicate IsDigit(c: char) {
    '0' <= c <= '9'
  }

  predicate AllDigits(s: string) {
    forall i :: 0 <= i < |s| ==> IsDigit(s[i])
  }

  function DigitValue(c: char): nat
    requires IsDigit(c)
  {
    c as int - '0' as int
  }

  function DigitChar(d: nat): (c: char)
    requires d < 10
    ensures IsDigit(c) && DigitValue(c) == d
  {
    ('0' as int + d) as char
  }

  /** The value of a string of decimal digits, read left to right. */
  function DigitsValue(s: string): nat
    requires AllDigits(s)
  {
    if s == [] then 0 else DigitsValue(s[..|s| - 1]) * 10 + DigitValue(s[|s| - 1])
  }

  /** `String(n)` for a natural number: no sign, no leading zero. */
  function NatToString(n: nat): (s: string)
    ensures |s| > 0 && AllDigits(s)
    ensures |s| > 1 ==> s[0] != '0'
  {
    if n < 10 then [DigitChar(n)] else NatToString(n / 10) + [DigitChar(n % 10)]
  }

  /** `String(n)`, `n.toString()`, `${n}` */
  function IntToString(n: int): string {
    if n < 0 then "-" + NatToString(-n) else NatToString(n)
  }

  /** JavaScript's `Number(text)`, for text that spells an integer. */
  function NumberOf(s: string): Option<int> {
    var t := Trim(s);
    if t == "" then Some(0)
    else if t[0] == '-' || t[0] == '+' then
      if |t| > 1 && AllDigits(t[1..]) then
        var v: int := DigitsValue(t[1..]);
        Some(if t[0] == '-' then -v else v)
      else None
    else if AllDigits(t) then Some(DigitsValue(t))
    else None
  }

  /** The longest prefix of `s` made of digits. */
  function DigitPrefix(s: string): (r: string)
    ensures AllDigits(r) && IsPrefix(r, s)
  {
    if s != [] && IsDigit(s[0]) then [s[0]] + DigitPrefix(s[1..]) else []
  }

  /** JavaScript's `parseInt(text, 10)`: leading blanks, a sign, then as many digits as there are. */
  function ParseIntOf(s: string): Option<int> {
    var t := TrimStart(s);
    var negative := t != [] && t[0] == '-';
    var body := if t != [] && (t[0] == '-' || t[0] == '+') then t[1..] else t;
    var digits := DigitPrefix(body);
    if digits == [] then None
    else
      var v: int := DigitsValue(digits);
      Some(if negative then -v else v)
  }

  lemma {:induction false} NatToStringValue(n: nat)
    ensures DigitsValue(NatToString(n)) == n
  {
    var s := NatToString(n);
    if n >= 10 {
      NatToStringValue(n / 10);
      assert s[..|s| - 1] == NatToString(n / 10);
    }
  }

  lemma NoWhitespaceInDigits(s: string)
    requires AllDigits(s)
    ensures Trim(s) == s
  {
    assert TrimStart(s) == s;
  }

  /** Printing an integer and reading it back with `Number` gives the integer. */
  lemma NumberOfIntToString(n: int)
    ensures NumberOf(IntToString(n)) == Some(n)
  {
    if n < 0 {
      var d := NatToString(-n);
      var t := "-" + d;
      assert !IsWhitespace(t[0]) && !IsWhitespace(t[|t| - 1]);
      assert TrimStart(t) == t;
      assert Trim(t) == t;
      assert t[1..] == d;
      NatToStringValue(-n);
    } else {
      NoWhitespaceInDigits(NatToString(n));
      NatToStringValue(n);
    }
  }

  /** Printing an integer and reading it back with `parseInt` gives the integer. */
  lemma ParseIntOfIntToString(n: int)
    ensures ParseIntOf(IntToString(n)) == Some(n)
  {
    var d := NatToString(if n < 0 then -n else n);
    AllDigitsPrefix(d);
    NatToStringValue(if n < 0 then -n else n);
    if n < 0 {
      var t := "-" + d;
      assert TrimStart(t) == t;
      assert t[1..] == d;
    } else {
      assert TrimStart(d) == d;
    }
  }

  lemma {:induction false} AllDigitsPrefix(s: string)
    requires AllDigits(s)
    ensures DigitPrefix(s) == s
  {
    if s != [] {
      AllDigitsPrefix(s[1..]);
    }
  }

  function Pow10(k: nat): nat {
    if k == 0 then 1 else 10 * Pow10(k - 1)
  }

  /** A number with k digits prints as k characters. */
  lemma {:induction false} NatToStringLength(n: nat, k: nat)
    requires k >= 1 && Pow10(k - 1) <= n < Pow10(k)
    ensures |NatToString(n)| == k
  {
    if k > 1 {
      NatToStringLength(n / 10, k - 1);
    } else {
      assert n < 10;
    }
  }
}
