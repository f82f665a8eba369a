/**
 * The few ECMAScript built-ins the application leans on, over unbounded integers:
 * `parseInt(s, 10)`, the decimal rendering of an integral Number (template
 * literals), `s.split('.')[0]`, and `new Date(s)` for a date-only ISO string.
 */
module Ecma {
  import opened Wrappers

  /** A JavaScript Number as it occurs in this application: NaN or an integer. */
  datatype Num = NaN | Int(value: int)

  /** `n >= bound`: every comparison involving NaN is false. */
  predicate AtLeast(n: Num, bound: int) {
    n.Int? && n.value >= bound
  }

  predicate IsDecimalDigit(c: char) {
    '0' <= c <= '9'
  }

  predicate AllDigits(s: string) {
    forall i :: 0 <= i < |s| ==> IsDecimalDigit(s[i])
  }

  function DigitValue(c: char): (d: nat)
    requires IsDecimalDigit(c)
    ensures d < 10
  {
    c as int - '0' as int
  }

  function DigitChar(d: nat): (c: char)
    requires d < 10
    ensures IsDecimalDigit(c) && DigitValue(c) == d
  {
    ('0' as int + d) as char
  }

  /** The mathematical value of a string of decimal digits (most significant first). */
  function DigitsValue(s: string): nat
    requires AllDigits(s)
  {
    if s == [] then 0 else DigitsValue(s[..|s| - 1]) * 10 + DigitValue(s[|s| - 1])
  }

  /** Appending a digit multiplies the value by ten and adds that digit. */
  lemma DigitsValueAppend(s: string, c: char)
    requires AllDigits(s) && IsDecimalDigit(c)
    ensures AllDigits(s + [c])
    ensures DigitsValue(s + [c]) == DigitsValue(s) * 10 + DigitValue(c)
  {
    assert (s + [c])[..|s|] == s;
  }

  /**
   * StrWhiteSpaceChar of ECMA-262 (section 7.1.4.1.1): WhiteSpace (TAB, VT, FF,
   * SP, NBSP, ZWNBSP and the other category Zs characters) and LineTerminator
   * (LF, CR, LS, PS).
   */
  predicate IsStrWhiteSpaceChar(c: char) {
    c == '\t' || c == '\U{B}' || c == '\U{C}' || c == ' ' || c == '\U{A0}' || c == '\U{FEFF}'
    || c == '\U{1680}' || ('\U{2000}' <= c <= '\U{200A}') || c == '\U{202F}' || c == '\U{205F}'
    || c == '\U{3000}' || c == '\n' || c == '\r' || c == '\U{2028}' || c == '\U{2029}'
  }

  /** Step 2 of parseInt: drop the leading white space. */
  function TrimStart(s: string): (r: string)
    ensures |r| <= |s| && r == s[|s| - |r|..]
    ensures forall i :: 0 <= i < |s| - |r| ==> IsStrWhiteSpaceChar(s[i])
    ensures r == [] || !IsStrWhiteSpaceChar(r[0])
  {
    if s != [] && IsStrWhiteSpaceChar(s[0]) then TrimStart(s[1..]) else s
  }

  /** The length of the longest prefix of `s` made of decimal digits. */
  function DigitPrefixLength(s: string): (k: nat)
    ensures k <= |s|
    ensures AllDigits(s[..k])
    ensures k == |s| || !IsDecimalDigit(s[k])
  {
    if s != [] && IsDecimalDigit(s[0]) then
      var k := 1 + DigitPrefixLength(s[1..]);
      assert s[..k] == [s[0]] + s[1..][..k - 1];
      k
    else 0
  }

  /** The text `parseInt` reads its digits from: `s` after white space and one optional sign. */
  function Unsigned(s: string): string {
    var t := TrimStart(s);
    if t != [] && (t[0] == '+' || t[0] == '-') then t[1..] else t
  }

  /** Whether that sign is '-'. */
  predicate HasMinusSign(s: string) {
    var t := TrimStart(s);
    t != [] && t[0] == '-'
  }

  /**
   * `parseInt(s, 10)` (ECMA-262, section 19.2.5): skip leading white space, take an
   * optional sign, then the longest run of decimal digits; NaN when that run is empty.
   */
  function ParseInt(s: string): (r: Num)
    ensures r.NaN? <==> (Unsigned(s) == [] || !IsDecimalDigit(Unsigned(s)[0]))
  {
    var u := Unsigned(s);
    var k := DigitPrefixLength(u);
    if k == 0 then NaN
    else
      var magnitude: int := DigitsValue(u[..k]);
      Int(if HasMinusSign(s) then -magnitude else magnitude)
  }

  /** The decimal digits of `n`, without leading zeros. */
  function NatToString(n: nat): (s: string)
    ensures s != [] && AllDigits(s)
    ensures s[0] == '0' ==> n == 0
    ensures DigitsValue(s) == n
  {
    if n < 10 then [DigitChar(n)]
    else
      var s := NatToString(n / 10) + [DigitChar(n % 10)];
      assert s[..|s| - 1] == NatToString(n / 10);
      s
  }

  /**
   * `${n}` for an integral Number `n`: its decimal digits, with a leading '-' when
   * negative.
   */
  function IntToString(n: int): (s: string)
    ensures s != [] && (s[0] == '-' <==> n < 0) && (s[0] == '-' || IsDecimalDigit(s[0]))
    ensures forall i :: 0 < i < |s| ==> IsDecimalDigit(s[i])
  {
    if n < 0 then "-" + NatToString(-n) else NatToString(n)
  }

  lemma {:induction false} TrimStartSkips(ws: string, t: string)
    requires forall i :: 0 <= i < |ws| ==> IsStrWhiteSpaceChar(ws[i])
    requires t == [] || !IsStrWhiteSpaceChar(t[0])
    ensures TrimStart(ws + t) == t
  {
    if ws != [] {
      assert (ws + t)[1..] == ws[1..] + t;
      TrimStartSkips(ws[1..], t);
    }
  }

  lemma TrimStartOfPadded(ws: string, r: string, rest: string)
    requires forall i :: 0 <= i < |ws| ==> IsStrWhiteSpaceChar(ws[i])
    requires r != [] && !IsStrWhiteSpaceChar(r[0])
    ensures TrimStart(ws + r + rest) == r + rest
  {
    assert ws + r + rest == ws + (r + rest);
    TrimStartSkips(ws, r + rest);
  }

  lemma DigitPrefixOfDigits(d: string, rest: string)
    requires AllDigits(d)
    requires rest == [] || !IsDecimalDigit(rest[0])
    ensures DigitPrefixLength(d + rest) == |d|
    ensures (d + rest)[..|d|] == d
  {
  }

  /** parseInt of a string whose text after white space and sign is digits followed by a non-digit. */
  lemma ParseIntOfUnsigned(s: string, d: string, rest: string)
    requires d != [] && AllDigits(d)
    requires rest == [] || !IsDecimalDigit(rest[0])
    requires Unsigned(s) == d + rest
    ensures ParseInt(s) == Int(if HasMinusSign(s) then -(DigitsValue(d) as int) else DigitsValue(d))
  {
    DigitPrefixOfDigits(d, rest);
  }

  /** parseInt of a string whose trimmed text is digits followed by a non-digit. */
  lemma ParseIntOfDigits(s: string, d: string, rest: string)
    requires d != [] && AllDigits(d)
    requires rest == [] || !IsDecimalDigit(rest[0])
    requires TrimStart(s) == d + rest
    ensures ParseInt(s) == Int(DigitsValue(d))
  {
    assert TrimStart(s)[0] == d[0];
    assert !HasMinusSign(s);
    assert Unsigned(s) == d + rest;
    ParseIntOfUnsigned(s, d, rest);
  }

  /** parseInt of a string whose trimmed text is '+', digits, then a non-digit. */
  lemma ParseIntOfPlusDigits(s: string, d: string, rest: string)
    requires d != [] && AllDigits(d)
    requires rest == [] || !IsDecimalDigit(rest[0])
    requires TrimStart(s) == ['+'] + (d + rest)
    ensures ParseInt(s) == Int(DigitsValue(d))
  {
    var t := TrimStart(s);
    assert t[0] == '+' && !HasMinusSign(s);
    assert t[1..] == d + rest;
    assert Unsigned(s) == d + rest;
    ParseIntOfUnsigned(s, d, rest);
  }

  /** parseInt of a string whose trimmed text is '-', digits, then a non-digit. */
  lemma ParseIntOfMinusDigits(s: string, d: string, rest: string)
    requires d != [] && AllDigits(d)
    requires rest == [] || !IsDecimalDigit(rest[0])
    requires TrimStart(s) == ['-'] + (d + rest)
    ensures ParseInt(s) == Int(-(DigitsValue(d) as int))
  {
    var t := TrimStart(s);
    assert t[0] == '-' && HasMinusSign(s);
    assert t[1..] == d + rest;
    assert Unsigned(s) == d + rest;
    ParseIntOfUnsigned(s, d, rest);
  }

  /**
   * parseInt reads back what `${n}` renders, whatever white space precedes it and
   * whatever non-digit text follows it.
   */
  lemma {:induction false} ParseIntOfRendered(ws: string, n: int, rest: string)
    requires forall i :: 0 <= i < |ws| ==> IsStrWhiteSpaceChar(ws[i])
    requires rest == [] || !IsDecimalDigit(rest[0])
    ensures ParseInt(ws + IntToString(n) + rest) == Int(n)
  {
    TrimStartOfPadded(ws, IntToString(n), rest);
    if n < 0 {
      ParseIntOfNegativeRendered(ws + IntToString(n) + rest, n, rest);
    } else {
      ParseIntOfDigits(ws + IntToString(n) + rest, NatToString(n), rest);
    }
  }

  lemma NegativeRendering(n: int, rest: string)
    requires n < 0
    ensures IntToString(n) + rest == ['-'] + (NatToString(-n) + rest)
  {
  }

  lemma ParseIntOfNegativeRendered(s: string, n: int, rest: string)
    requires n < 0 && TrimStart(s) == IntToString(n) + rest
    requires rest == [] || !IsDecimalDigit(rest[0])
    ensures ParseInt(s) == Int(n)
  {
    NegativeRendering(n, rest);
    ParseIntOfMinusDigits(s, NatToString(-n), rest);
  }

  /** A string that starts with something other than white space, a sign or a digit parses to NaN. */
  lemma ParseIntOfNonNumeral(s: string)
    requires s != [] && !IsStrWhiteSpaceChar(s[0]) && s[0] != '+' && s[0] != '-' && !IsDecimalDigit(s[0])
    ensures ParseInt(s) == NaN
  {
    assert TrimStart(s) == s;
  }

  /** Two renderings followed by non-digit text are equal only when the numbers and the texts are. */
  lemma RenderedPrefixUnique(a: int, x: string, b: int, y: string)
    requires x == [] || !IsDecimalDigit(x[0])
    requires y == [] || !IsDecimalDigit(y[0])
    requires IntToString(a) + x == IntToString(b) + y
    ensures a == b && x == y
  {
    var s := IntToString(a) + x;
    assert [] + IntToString(a) + x == s;
    assert [] + IntToString(b) + y == s;
    ParseIntOfRendered([], a, x);
    ParseIntOfRendered([], b, y);
    assert x == s[|IntToString(a)|..];
    assert y == s[|IntToString(b)|..];
  }

  /** `parseInt(`${n}`, 10)` is `n`. */
  lemma ParseIntOfIntToString(n: int)
    ensures ParseInt(IntToString(n)) == Int(n)
  {
    var r := IntToString(n);
    assert [] + r + [] == r;
    ParseIntOfRendered([], n, []);
  }

  /** `s.split('.')[0]`: the text before the first '.', or all of `s` when it has none. */
  function BeforeFirstDot(s: string): (r: string)
    ensures r <= s && '.' !in r
    ensures r == s || (|r| < |s| && s[|r|] == '.')
  {
    if s == [] || s[0] == '.' then [] else [s[0]] + BeforeFirstDot(s[1..])
  }

  lemma {:induction false} BeforeFirstDotOf(head: string, rest: string)
    requires '.' !in head
    ensures BeforeFirstDot(head + "." + rest) == head
  {
    if head != [] {
      assert (head + "." + rest)[1..] == head[1..] + "." + rest;
      BeforeFirstDotOf(head[1..], rest);
    }
  }

  // ---- Dates ----

  const MsPerDay: int := 86400000

  /** Whole days from `created` to `now` (milliseconds): `Math.floor((now - created) / 86400000)`. */
  function DaysBetween(created: int, now: int): (d: int)
    ensures d * MsPerDay <= now - created < (d + 1) * MsPerDay
  {
    (now - created) / MsPerDay
  }

  predicate InLeapYear(y: int) {
    (y % 4 == 0 && y % 100 != 0) || y % 400 == 0
  }

  /** DayFromYear of ECMA-262 (section 21.4.1.3): the day number of 1 January of year `y`. */
  function DayFromYear(y: int): int {
    365 * (y - 1970) + (y - 1969) / 4 - (y - 1901) / 100 + (y - 1601) / 400
  }

  /** Days of year `y` before the first day of month `m` (1 to 12). */
  function DaysBeforeMonth(y: int, m: int): (d: nat)
    requires 1 <= m <= 12
    ensures d <= 335
  {
    [0, 31, 59, 90, 120, 151, 181, 212, 243, 273, 304, 334][m - 1]
    + (if m > 2 && InLeapYear(y) then 1 else 0)
  }

  predicate IsDateOnlyForm(s: string) {
    |s| == 10 && s[4] == '-' && s[7] == '-'
    && AllDigits(s[..4]) && AllDigits(s[5..7]) && AllDigits(s[8..])
  }

  /**
   * `new Date(s).getTime()` for the date-only form YYYY-MM-DD of the Date Time
   * String Format (ECMA-262, section 21.4.1.32): the UTC-midnight instant of that
   * day. None for every other string (and for a month outside 1..12 or a day
   * outside 1..31), which the model never passes.
   */
  function ParseDateOnly(s: string): (r: Option<int>)
    ensures r.Some? ==> IsDateOnlyForm(s)
  {
    if !IsDateOnlyForm(s) then None
    else
      var y, m, d := DigitsValue(s[..4]), DigitsValue(s[5..7]), DigitsValue(s[8..]);
      if 1 <= m <= 12 && 1 <= d <= 31 then Some((DayFromYear(y) + DaysBeforeMonth(y, m) + d - 1) * MsPerDay)
      else None
  }

  /** A date-only string with in-range fields parses to the start of its day. */
  lemma ParseDateOnlyOfFields(s: string, y: int, m: int, d: int)
    requires IsDateOnlyForm(s)
    requires DigitsValue(s[..4]) == y && DigitsValue(s[5..7]) == m && DigitsValue(s[8..]) == d
    requires 1 <= m <= 12 && 1 <= d <= 31
    ensures ParseDateOnly(s) == Some((DayFromYear(y) + DaysBeforeMonth(y, m) + d - 1) * MsPerDay)
  {
  }
}
