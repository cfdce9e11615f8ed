/** How far `strtod` reads: the length of the longest numeral prefix of a C
    string at a given index, under the C locale.  The tokenizer uses only this
    length (json.c, `endptr - start`); the double value itself is not modelled. */
module Numerals {
  import opened CStrings

  /** `isspace` in the C locale: space, \t, \n, \v, \f, \r. */
  predicate IsSpace(c: char)
  {
    c == ' ' || c == '\t' || c == '\n' || c == '\U{000B}' || c == '\U{000C}' || c == '\r'
  }

  predicate IsDigit(c: char)
  {
    '0' <= c <= '9'
  }

  predicate IsHexDigit(c: char)
  {
    IsDigit(c) || 'a' <= c <= 'f' || 'A' <= c <= 'F'
  }

  /** The characters of the optional `n-char-sequence` of `NAN(...)`. */
  predicate IsNanChar(c: char)
  {
    IsDigit(c) || 'a' <= c <= 'z' || 'A' <= c <= 'Z' || c == '_'
  }

  function Lower(c: char): char
  {
    if 'A' <= c <= 'Z' then (c as int + 32) as char else c
  }

  /** The length of the run of characters satisfying `p` at `i`. */
  function RunOf(s: seq<char>, i: nat, p: char -> bool): (n: nat)
    requires i <= |s|
    decreases |s| - i
    ensures i + n <= |s|
    ensures forall k :: i <= k < i + n ==> p(s[k])
    ensures i + n == |s| || !p(s[i + n])
  {
    if i < |s| && p(s[i]) then 1 + RunOf(s, i + 1, p) else 0
  }

  /** Whether the (lower-case, NUL-free) `word` occurs at `i`, ignoring case. */
  predicate HasWordAt(s: seq<char>, i: nat, word: seq<char>)
  {
    i + |word| <= |s| && forall k :: 0 <= k < |word| ==> Lower(s[i + k]) == word[k]
  }

  /** A non-empty digit sequence with an optional radix point: `d+`, `d+.`,
      `d+.d+` or `.d+`; 0 when there is no digit. */
  function Mantissa(s: seq<char>, i: nat, digit: char -> bool): (n: nat)
    requires i <= |s|
    ensures i + n <= |s|
  {
    var a := RunOf(s, i, digit);
    if CharAt(s, i + a) == '.' then
      var b := RunOf(s, i + a + 1, digit);
      if a + b == 0 then 0 else a + 1 + b
    else a
  }

  /** An exponent part `marker [+-] d+` at `i`, or 0 when none is complete. */
  function Exponent(s: seq<char>, i: nat, marker: seq<char>): (n: nat)
    requires i <= |s|
    ensures i + n <= |s|
  {
    if i < |s| && s[i] in marker then
      var k := i + 1 + (if CharAt(s, i + 1) in "+-" then 1 else 0);
      var d := RunOf(s, k, IsDigit);
      if d == 0 then 0 else k + d - i
    else 0
  }

  /** `NAN` may be followed by `(n-char-sequence)`. */
  function NanSuffix(s: seq<char>, i: nat): (n: nat)
    requires i <= |s|
    ensures i + n <= |s|
  {
    if CharAt(s, i) == '(' then
      var k := RunOf(s, i + 1, IsNanChar);
      if CharAt(s, i + 1 + k) == ')' then k + 2 else 0
    else 0
  }

  /** The subject sequence after the optional sign: a hexadecimal numeral
      (`0x` and hex digits, optional `p` exponent), a decimal numeral (optional
      `e` exponent), `INF`, `INFINITY`, or `NAN` with its optional suffix. */
  function Subject(s: seq<char>, i: nat): (n: nat)
    requires i <= |s|
    ensures i + n <= |s|
  {
    var hex := if CharAt(s, i) == '0' && CharAt(s, i + 1) in "xX" then Mantissa(s, i + 2, IsHexDigit) else 0;
    if hex > 0 then
      2 + hex + Exponent(s, i + 2 + hex, "pP")
    else
      var m := Mantissa(s, i, IsDigit);
      if m > 0 then m + Exponent(s, i + m, "eE")
      else if HasWordAt(s, i, "infinity") then 8
      else if HasWordAt(s, i, "inf") then 3
      else if HasWordAt(s, i, "nan") then 3 + NanSuffix(s, i + 3)
      else 0
  }

  /** `endptr - start` after `strtod(s + i, &endptr)`: leading white space, an
      optional sign and a subject sequence, or 0 when there is no numeral at `i`
      (and then `endptr == start`). */
  function NumeralLength(s: seq<char>, i: nat): (n: nat)
    requires i <= |s|
    ensures i + n <= |s|
  {
    var w := RunOf(s, i, IsSpace);
    var sign := if CharAt(s, i + w) in "+-" then 1 else 0;
    var m := Subject(s, i + w + sign);
    if m == 0 then 0 else w + sign + m
  }
}
