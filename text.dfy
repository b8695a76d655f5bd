/**
 * The JavaScript string built-ins the application relies on: `trim`,
 * `toUpperCase`, `String(n)`, `padStart(2, '0')`, `split`, `Number` on the
 * pieces of a date, `toFixed(1)` and the UTF-16 `length`.
 */
module Text {
  import opened Wrappers

  // ---------------------------------------------------------------- trim

  /** WhiteSpace and LineTerminator code points of ECMAScript: what `trim` removes. */
  predicate IsJsWhitespace(c: char) {
    || c == '\U{9}' || c == '\U{B}' || c == '\U{C}' || c == ' ' || c == '\U{A0}' || c == '\U{FEFF}'
    || c == '\U{1680}' || ('\U{2000}' <= c <= '\U{200A}') || c == '\U{202F}' || c == '\U{205F}'
    || c == '\U{3000}' || c == '\n' || c == '\r' || c == '\U{2028}' || c == '\U{2029}'
  }

  predicate AllWhitespace(s: string) {
    forall k :: 0 <= k < |s| ==> IsJsWhitespace(s[k])
  }

  /** How many whitespace code points `s` starts with. */
  function LeadingWs(s: string): (n: nat)
    ensures n <= |s|
    ensures forall k :: 0 <= k < n ==> IsJsWhitespace(s[k])
    ensures n < |s| ==> !IsJsWhitespace(s[n])
  {
    if s == [] || !IsJsWhitespace(s[0]) then 0 else 1 + LeadingWs(s[1..])
  }

  /** Where the trailing whitespace of `s` begins. */
  function ContentEnd(s: string): (e: nat)
    ensures e <= |s|
    ensures forall k :: e <= k < |s| ==> IsJsWhitespace(s[k])
    ensures e > 0 ==> !IsJsWhitespace(s[e - 1])
  {
    if s == [] || !IsJsWhitespace(s[|s| - 1]) then |s| else ContentEnd(s[..|s| - 1])
  }

  /** LeadingWs is the only count with its two properties. */
  lemma LeadingWsUnique(s: string, n: nat)
    requires n <= |s|
    requires forall k :: 0 <= k < n ==> IsJsWhitespace(s[k])
    requires n < |s| ==> !IsJsWhitespace(s[n])
    ensures n == LeadingWs(s)
  {
  }

  /** ContentEnd is the only index with its two properties. */
  lemma ContentEndUnique(s: string, e: nat)
    requires e <= |s|
    requires forall k :: e <= k < |s| ==> IsJsWhitespace(s[k])
    requires e > 0 ==> !IsJsWhitespace(s[e - 1])
    ensures e == ContentEnd(s)
  {
  }

  /** `s.trim()`: drops the leading and trailing whitespace and nothing else. */
  function Trim(s: string): (r: string)
    ensures r == [] <==> AllWhitespace(s)
    ensures r != [] ==> !IsJsWhitespace(r[0]) && !IsJsWhitespace(r[|r| - 1])
    ensures LeadingWs(s) + |r| <= |s|
    ensures r == s[LeadingWs(s)..LeadingWs(s) + |r|]
    ensures r != [] ==> LeadingWs(s) + |r| == ContentEnd(s)
  {
    var n := LeadingWs(s);
    if n == |s| then [] else s[n..ContentEnd(s)]
  }

  /** `!s || s.trim() === ""`: the text is empty or only whitespace. */
  predicate IsBlank(s: string) {
    Trim(s) == []
  }

  /** Trimming twice is trimming once. */
  lemma TrimIdempotent(s: string)
    ensures Trim(Trim(s)) == Trim(s)
  {
    var r := Trim(s);
    if r != [] {
      LeadingWsUnique(r, 0);
      ContentEndUnique(r, |r|);
    }
  }

  // ---------------------------------------------------------- toUpperCase

  /**
   * `toUpperCase` on one code point, for Basic Latin and Latin-1 letters:
   * a-z and the Latin-1 lower-case letters U+00E0..U+00FE (except U+00F7, the
   * division sign) move 32 code points down.
   */
  function UpperChar(c: char): (u: char)
    ensures 'A' <= u <= 'Z' || !('a' <= u <= 'z')
  {
    if 'a' <= c <= 'z' then (c as int - 32) as char
    else if '\U{E0}' <= c <= '\U{FE}' && c != '\U{F7}' then (c as int - 32) as char
    else c
  }

  function ToUpper(s: string): (r: string)
    ensures |r| == |s|
    ensures forall k :: 0 <= k < |s| ==> r[k] == UpperChar(s[k])
  {
    seq(|s|, k requires 0 <= k < |s| => UpperChar(s[k]))
  }

  /** Upper-casing never turns a character into whitespace or whitespace into something else. */
  lemma UpperKeepsWhitespace(c: char)
    ensures IsJsWhitespace(UpperChar(c)) <==> IsJsWhitespace(c)
  {
  }

  /** Upper-casing a slice is slicing the upper-cased text. */
  lemma UpperSlice(s: string, i: nat, j: nat)
    requires i <= j <= |s|
    ensures ToUpper(s[i..j]) == ToUpper(s)[i..j]
  {
    var u := ToUpper(s);
    var v := ToUpper(s[i..j]);
    forall k | 0 <= k < j - i
      ensures v[k] == u[i + k]
    {
      assert v[k] == UpperChar(s[i + k]);
    }
  }

  /** Upper-casing twice is upper-casing once. */
  lemma ToUpperIdempotent(s: string)
    ensures ToUpper(ToUpper(s)) == ToUpper(s)
  {
    var u := ToUpper(s);
    forall k | 0 <= k < |s|
      ensures UpperChar(u[k]) == u[k]
    {
      assert u[k] == UpperChar(s[k]);
    }
  }

  /** Upper-casing then trimming (the vehicle plate) equals trimming then upper-casing. */
  lemma TrimUpperCommute(s: string)
    ensures Trim(ToUpper(s)) == ToUpper(Trim(s))
  {
    var u := ToUpper(s);
    UpperSameLeading(s);
    UpperSameEnd(s);
    var n := LeadingWs(s);
    if n < |s| {
      var e := ContentEnd(s);
      assert Trim(u) == u[n..e];
      UpperSlice(s, n, e);
    }
  }

  /** Upper-casing keeps the leading whitespace. */
  lemma UpperSameLeading(s: string)
    ensures LeadingWs(ToUpper(s)) == LeadingWs(s)
  {
    var u := ToUpper(s);
    var n := LeadingWs(s);
    forall k | 0 <= k < n
      ensures IsJsWhitespace(u[k])
    {
      UpperKeepsWhitespace(s[k]);
    }
    if n < |s| {
      UpperKeepsWhitespace(s[n]);
    }
    LeadingWsUnique(u, n);
  }

  /** Upper-casing keeps the trailing whitespace. */
  lemma UpperSameEnd(s: string)
    ensures ContentEnd(ToUpper(s)) == ContentEnd(s)
  {
    var u := ToUpper(s);
    var e := ContentEnd(s);
    forall k | e <= k < |s|
      ensures IsJsWhitespace(u[k])
    {
      UpperKeepsWhitespace(s[k]);
    }
    if e > 0 {
      UpperKeepsWhitespace(s[e - 1]);
    }
    ContentEndUnique(u, e);
  }

  // ------------------------------------------------------ numbers as text

  predicate IsDigit(c: char) {
    '0' <= c <= '9'
  }

  predicate AllDigits(s: string) {
    forall k :: 0 <= k < |s| ==> IsDigit(s[k])
  }

  function DigitChar(d: nat): (c: char)
    requires d < 10
    ensures IsDigit(c) && c as int - '0' as int == d
  {
    ('0' as int + d) as char
  }

  /** `String(n)` for a non-negative integer: its decimal digits, no leading zero. */
  function NatToDecimal(n: nat): (r: string)
    ensures 1 <= |r| && AllDigits(r)
    ensures |r| == 1 <==> n < 10
    decreases n
  {
    if n < 10 then [DigitChar(n)] else NatToDecimal(n / 10) + [DigitChar(n % 10)]
  }

  /** `String(n)` for any integer. */
  function IntToDecimal(n: int): (r: string)
    ensures n >= 0 ==> r == NatToDecimal(n)
    ensures n < 0 ==> r == "-" + NatToDecimal(-n)
  {
    if n < 0 then "-" + NatToDecimal(-n) else NatToDecimal(n)
  }

  /** The value of a string of decimal digits ("" is 0). */
  function DigitsValue(s: string): nat
    requires AllDigits(s)
  {
    if s == [] then 0 else DigitsValue(s[..|s| - 1]) * 10 + (s[|s| - 1] as int - '0' as int)
  }

  /** Reading back `String(n)` gives n. */
  lemma {:induction false} DecimalRoundTrip(n: nat)
    ensures DigitsValue(NatToDecimal(n)) == n
    decreases n
  {
    if n >= 10 {
      var r := NatToDecimal(n);
      assert r[..|r| - 1] == NatToDecimal(n / 10);
      DecimalRoundTrip(n / 10);
    }
  }

  /** Leading zeros do not change the value of a digit string. */
  lemma {:induction false} LeadingZero(s: string)
    requires AllDigits(s)
    ensures DigitsValue("0" + s) == DigitsValue(s)
    decreases |s|
  {
    if s != [] {
      assert ("0" + s)[..|s|] == "0" + s[..|s| - 1];
      LeadingZero(s[..|s| - 1]);
    }
  }

  /** `s.padStart(2, '0')`. */
  function Pad2(s: string): (r: string)
    ensures |r| == if |s| >= 2 then |s| else 2
    ensures r[|r| - |s|..] == s
    ensures forall k :: 0 <= k < |r| - |s| ==> r[k] == '0'
  {
    if |s| >= 2 then s else if |s| == 1 then "0" + s else "00"
  }

  /**
   * `Number(s)` for the strings a date field is made of: after trimming, the
   * empty string is 0 and a run of decimal digits is its value; everything
   * else is NaN (None).
   */
  function NumberOf(s: string): (r: Option<int>)
    ensures r.Some? ==> r.value >= 0
    ensures AllDigits(s) ==> r == Some(DigitsValue(Trim(s)))
  {
    var t := Trim(s);
    if t == [] then Some(0)
    else if AllDigits(t) then Some(DigitsValue(t))
    else None
  }

  /** Text that differs only in an embedded decimal number is equal only for equal numbers. */
  lemma DecimalTextInjective(prefix: string, t1: nat, t2: nat, suffix: string)
    requires prefix + NatToDecimal(t1) + suffix == prefix + NatToDecimal(t2) + suffix
    ensures t1 == t2
  {
    var d1 := NatToDecimal(t1);
    var d2 := NatToDecimal(t2);
    var s := prefix + d1 + suffix;
    assert d1 == s[|prefix|..|prefix| + |d1|];
    assert d2 == s[|prefix|..|prefix| + |d2|];
    DecimalRoundTrip(t1);
    DecimalRoundTrip(t2);
  }

  /** `Number` of a run of decimal digits is its value. */
  lemma NumberOfDigits(s: string)
    requires AllDigits(s)
    ensures NumberOf(s) == Some(DigitsValue(s))
  {
    if s != [] {
      LeadingWsUnique(s, 0);
      ContentEndUnique(s, |s|);
      assert Trim(s) == s;
    }
  }

  // ---------------------------------------------------------------- split

  /** The parts joined back with `sep` between them (`parts.join(sep)`). */
  function Join(parts: seq<string>, sep: char): string
    requires |parts| >= 1
  {
    if |parts| == 1 then parts[0] else parts[0] + [sep] + Join(parts[1..], sep)
  }

  function IndexOf(s: string, c: char): (i: nat)
    requires c in s
    ensures i < |s| && s[i] == c && c !in s[..i]
  {
    if s[0] == c then 0 else 1 + IndexOf(s[1..], c)
  }

  /** `s.split(sep)` for a one-character separator. */
  function Split(s: string, sep: char): (parts: seq<string>)
    ensures |parts| >= 1
    ensures forall k :: 0 <= k < |parts| ==> sep !in parts[k]
    ensures Join(parts, sep) == s
    decreases |s|
  {
    if sep !in s then [s]
    else
      var i := IndexOf(s, sep);
      var rest := Split(s[i + 1..], sep);
      assert s == s[..i] + [sep] + s[i + 1..];
      [s[..i]] + rest
  }

  /** Splitting text built by joining separator-free parts gives those parts back. */
  lemma {:induction false} SplitJoin(parts: seq<string>, sep: char)
    requires |parts| >= 1
    requires forall k :: 0 <= k < |parts| ==> sep !in parts[k]
    ensures Split(Join(parts, sep), sep) == parts
    decreases |parts|
  {
    if |parts| > 1 {
      var s := Join(parts, sep);
      var rest := Join(parts[1..], sep);
      assert s == parts[0] + [sep] + rest;
      assert sep in s by { assert s[|parts[0]|] == sep; }
      assert s[..|parts[0]|] == parts[0];
      var i := IndexOf(s, sep);
      assert i == |parts[0]|;
      assert s[..i] == parts[0];
      assert s[i + 1..] == rest;
      SplitJoin(parts[1..], sep);
    }
  }

  // -------------------------------------------------------------- toFixed

  /**
   * The integer n closest to x * 10, the larger on a tie: the digits that
   * `x.toFixed(1)` prints for a non-negative x.
   */
  function TenthsRounded(x: real): (n: int)
    ensures (n as real) / 10.0 - x <= 0.05 && x - (n as real) / 10.0 < 0.05
  {
    (x * 10.0 + 0.5).Floor
  }

  /** `x.toFixed(1)`: sign, whole part, '.', one rounded decimal digit. */
  function ToFixed1(x: real): (r: string)
    ensures x >= 0.0 ==> r == NatToDecimal(TenthsRounded(x) / 10) + "." + [DigitChar(TenthsRounded(x) % 10)]
    ensures x < 0.0 ==> |r| > 1 && r[0] == '-'
  {
    var m := if x < 0.0 then -x else x;
    var n := TenthsRounded(m);
    var digits := NatToDecimal(n / 10) + "." + [DigitChar(n % 10)];
    if x < 0.0 then "-" + digits else digits
  }

  // ------------------------------------------------------------ parseFloat

  /** How many decimal digits `s` starts with. */
  function DigitRun(s: string): (n: nat)
    ensures n <= |s| && AllDigits(s[..n])
    ensures n < |s| ==> !IsDigit(s[n])
  {
    if s == [] || !IsDigit(s[0]) then 0 else 1 + DigitRun(s[1..])
  }

  function Pow10(n: nat): (r: nat)
    ensures r >= 1
  {
    if n == 0 then 1 else 10 * Pow10(n - 1)
  }

  /** The value of the digits after a decimal point. */
  function Fraction(digits: string): (f: real)
    requires AllDigits(digits)
    ensures 0.0 <= f <= 1.0
  {
    if digits == [] then 0.0
    else ((digits[0] as int - '0' as int) as real + Fraction(digits[1..])) / 10.0
  }

  /** `m` with its decimal point moved `e` places to the right (left when `e` is negative). */
  function Shift(m: real, e: int): (r: real)
    ensures m >= 0.0 ==> r >= 0.0
    decreases if e < 0 then -e else e
  {
    if e == 0 then m
    else if e > 0 then Shift(m, e - 1) * 10.0
    else Shift(m, e + 1) / 10.0
  }

  /** Moving the point n places right multiplies by 10^n. */
  lemma {:induction false} ShiftByPow10(m: real, n: nat)
    ensures Shift(m, n) == m * Pow10(n) as real
  {
    if n > 0 {
      ShiftByPow10(m, n - 1);
      assert m * Pow10(n) as real == (m * Pow10(n - 1) as real) * 10.0;
    }
  }

  /** `s` after its leading whitespace and one optional '+' or '-' sign. */
  function Unsigned(s: string): (u: string)
    ensures |u| <= |s|
  {
    var t := s[LeadingWs(s)..];
    if t != [] && (t[0] == '+' || t[0] == '-') then t[1..] else t
  }

  /** The sign read after the leading whitespace of `s` is '-'. */
  predicate NegativeSign(s: string) {
    var t := s[LeadingWs(s)..];
    t != [] && t[0] == '-'
  }

  /** Text that starts a decimal literal: a digit, or a '.' followed by a digit. */
  predicate StartsDecimal(u: string) {
    u != [] && (IsDigit(u[0]) || (u[0] == '.' && |u| > 1 && IsDigit(u[1])))
  }

  /**
   * The power of ten an exponent part ('e' or 'E', an optional sign,
   * digits) gives; 0 when `s` does not start with a complete one.
   */
  function Exponent(s: string): (e: int)
    ensures s == [] || (s[0] != 'e' && s[0] != 'E') ==> e == 0
  {
    if s == [] || (s[0] != 'e' && s[0] != 'E') then 0
    else
      var signed := |s| > 1 && (s[1] == '+' || s[1] == '-');
      var digits := if signed then s[2..] else s[1..];
      var k := DigitRun(digits);
      if k == 0 then 0
      else if signed && s[1] == '-' then -(DigitsValue(digits[..k]) as int)
      else DigitsValue(digits[..k])
  }

  /** The value of a literal's whole digits, fraction digits and exponent part. */
  function Literal(whole: string, frac: string, exponent: string): (v: real)
    requires AllDigits(whole) && AllDigits(frac)
    ensures v >= 0.0
  {
    Shift(DigitsValue(whole) as real + Fraction(frac), Exponent(exponent))
  }

  /**
   * The unsigned decimal literal at the start of `u`: digits, then a '.' and
   * digits, then an exponent, each part optional but with a digit before the
   * exponent. None (NaN) when there is no such digit.
   */
  function ParseUnsigned(u: string): (r: Option<real>)
    ensures r.Some? <==> StartsDecimal(u)
    ensures r.Some? ==> r.value >= 0.0
  {
    var n := DigitRun(u);
    if n < |u| && u[n] == '.' then
      var after := u[n + 1..];
      var m := DigitRun(after);
      if n == 0 && m == 0 then None
      else Some(Literal(u[..n], after[..m], after[m..]))
    else if n == 0 then None
    else Some(Literal(u[..n], [], u[n..]))
  }

  /**
   * `parseFloat(s)`: skip the leading whitespace, read an optional sign and
   * the longest decimal literal after it; whatever follows is ignored. Text
   * with no digit where the literal should start is NaN (None).
   */
  function ParseFloat(s: string): (r: Option<real>)
    ensures r.Some? <==> StartsDecimal(Unsigned(s))
    ensures r.Some? && !NegativeSign(s) ==> r.value >= 0.0
    ensures r.Some? && NegativeSign(s) ==> r.value <= 0.0
  {
    Signed(ParseUnsigned(Unsigned(s)), NegativeSign(s))
  }

  /** A number read after a '-' is negated; NaN stays NaN. */
  function Signed(v: Option<real>, negative: bool): (r: Option<real>)
    ensures r.Some? == v.Some?
    ensures r.Some? ==> r.value == if negative then -v.value else v.value
  {
    if v.Some? && negative then Some(-v.value) else v
  }

  predicate IsHexDigit(c: char) {
    IsDigit(c) || 'a' <= c <= 'f' || 'A' <= c <= 'F'
  }

  function HexDigitValue(c: char): (d: nat)
    requires IsHexDigit(c)
    ensures d < 16
    ensures IsDigit(c) ==> d == c as int - '0' as int
  {
    if IsDigit(c) then c as int - '0' as int
    else if 'a' <= c <= 'f' then c as int - 'a' as int + 10
    else c as int - 'A' as int + 10
  }

  /** How many hexadecimal digits `s` starts with. */
  function HexRun(s: string): (n: nat)
    ensures n <= |s| && forall k :: 0 <= k < n ==> IsHexDigit(s[k])
    ensures n < |s| ==> !IsHexDigit(s[n])
  {
    if s == [] || !IsHexDigit(s[0]) then 0 else 1 + HexRun(s[1..])
  }

  /** The value of a string of hexadecimal digits ("" is 0). */
  function HexValue(s: string): nat
    requires forall k :: 0 <= k < |s| ==> IsHexDigit(s[k])
  {
    if s == [] then 0 else HexValue(s[..|s| - 1]) * 16 + HexDigitValue(s[|s| - 1])
  }

  /** An unsigned text with a "0x" or "0X" prefix, which `parseInt` reads in base 16. */
  predicate HexPrefixed(u: string) {
    |u| >= 2 && u[0] == '0' && (u[1] == 'x' || u[1] == 'X')
  }

  /**
   * `parseInt(s)` without a radix: skip the leading whitespace, read an
   * optional sign, then the hexadecimal digits after a "0x" prefix or else
   * the decimal digits; whatever follows is ignored. No digit is NaN (None).
   */
  function ParseInt(s: string): (r: Option<int>)
    ensures var u := Unsigned(s);
            r.Some? <==> if HexPrefixed(u) then |u| > 2 && IsHexDigit(u[2]) else u != [] && IsDigit(u[0])
    ensures r.Some? && !NegativeSign(s) ==> r.value >= 0
    ensures r.Some? && NegativeSign(s) ==> r.value <= 0
  {
    var u := Unsigned(s);
    var magnitude: Option<nat> :=
      if HexPrefixed(u) then
        var n := HexRun(u[2..]);
        if n == 0 then None else Some(HexValue(u[2..][..n]))
      else
        var n := DigitRun(u);
        if n == 0 then None else Some(DigitsValue(u[..n]));
    match magnitude
    case None => None
    case Some(v) => if NegativeSign(s) then Some(-(v as int)) else Some(v)
  }

  /** The digit run of digits followed by a non-digit is exactly those digits. */
  lemma {:induction false} DigitRunOf(d: string, rest: string)
    requires AllDigits(d)
    requires rest == [] || !IsDigit(rest[0])
    ensures DigitRun(d + rest) == |d|
    decreases |d|
  {
    if d != [] {
      assert (d + rest)[1..] == d[1..] + rest;
      DigitRunOf(d[1..], rest);
    }
  }

  /** Text that starts with a digit or a '.' has no whitespace or sign to skip. */
  lemma UnsignedOf(s: string)
    requires s != [] && (IsDigit(s[0]) || s[0] == '.')
    ensures Unsigned(s) == s && !NegativeSign(s)
  {
    assert !IsJsWhitespace(s[0]);
    LeadingWsUnique(s, 0);
    assert s[0..] == s;
  }

  /** Whitespace before the text leaves what follows the whitespace as it was. */
  lemma AfterWhitespace(ws: string, s: string)
    requires forall k :: 0 <= k < |ws| ==> IsJsWhitespace(ws[k])
    ensures (ws + s)[LeadingWs(ws + s)..] == s[LeadingWs(s)..]
  {
    var n := LeadingWs(s);
    var t := ws + s;
    forall k | 0 <= k < |ws| + n
      ensures IsJsWhitespace(t[k])
    {
      if k >= |ws| {
        assert t[k] == s[k - |ws|];
      }
    }
    if n < |s| {
      assert t[|ws| + n] == s[n];
    }
    LeadingWsUnique(t, |ws| + n);
    assert t[|ws| + n..] == s[n..];
  }

  /** `parseFloat` reads only the unsigned text and its sign. */
  lemma {:induction false} SameFloat(s1: string, s2: string)
    requires Unsigned(s1) == Unsigned(s2) && NegativeSign(s1) == NegativeSign(s2)
    ensures ParseFloat(s1) == ParseFloat(s2)
  {
  }

  /** `parseInt` reads only the unsigned text and its sign. */
  lemma {:induction false} SameInt(s1: string, s2: string)
    requires Unsigned(s1) == Unsigned(s2) && NegativeSign(s1) == NegativeSign(s2)
    ensures ParseInt(s1) == ParseInt(s2)
  {
  }

  /** Whitespace before the text changes nothing `parseFloat` or `parseInt` reads. */
  lemma SkipsWhitespace(ws: string, s: string)
    requires forall k :: 0 <= k < |ws| ==> IsJsWhitespace(ws[k])
    ensures ParseFloat(ws + s) == ParseFloat(s)
    ensures ParseInt(ws + s) == ParseInt(s)
  {
    AfterWhitespace(ws, s);
    SameFloat(ws + s, s);
    SameInt(ws + s, s);
  }

  /** The digits of a whole number, alone, read back as that number. */
  lemma DigitRunAll(d: string)
    requires AllDigits(d)
    ensures DigitRun(d) == |d| && d[..DigitRun(d)] == d
  {
    DigitRunOf(d, []);
    assert d + [] == d;
  }

  /** Text that starts with a digit or a '.' is read as an unsigned literal. */
  lemma ParseFloatUnsigned(s: string, v: real)
    requires s != [] && (IsDigit(s[0]) || s[0] == '.')
    requires ParseUnsigned(s).Some? && ParseUnsigned(s).value == v
    ensures ParseFloat(s).Some? && ParseFloat(s).value == v
  {
    UnsignedOf(s);
  }

  /** A literal with a '.' after its n whole digits. */
  lemma UnsignedWithPoint(u: string, n: nat, m: nat)
    requires n == DigitRun(u) && n < |u| && u[n] == '.'
    requires m == DigitRun(u[n + 1..]) && (n > 0 || m > 0)
    ensures ParseUnsigned(u) == Some(Literal(u[..n], u[n + 1..][..m], u[n + 1..][m..]))
  {
  }

  /** A literal whose n whole digits are not followed by a '.'. */
  lemma UnsignedWithoutPoint(u: string, n: nat)
    requires n == DigitRun(u) && n > 0 && (n == |u| || u[n] != '.')
    ensures ParseUnsigned(u) == Some(Literal(u[..n], [], u[n..]))
  {
  }

  /** A literal with no exponent part is its whole part plus its fraction. */
  lemma LiteralWithoutExponent(whole: string, frac: string, rest: string)
    requires AllDigits(whole) && AllDigits(frac)
    requires rest == [] || (rest[0] != 'e' && rest[0] != 'E')
    ensures Literal(whole, frac, rest) == DigitsValue(whole) as real + Fraction(frac)
  {
  }

  /** Digits, '.', digits is a literal of those two parts with no exponent. */
  lemma WholeDotFraction(whole: string, frac: string)
    requires whole != [] && AllDigits(whole) && AllDigits(frac)
    ensures ParseUnsigned(whole + "." + frac) == Some(Literal(whole, frac, []))
  {
    var s := whole + ("." + frac);
    assert whole + "." + frac == s;
    var n := |whole|;
    assert DigitRun(s) == n by {
      DigitRunOf(whole, "." + frac);
    }
    assert s[..n] == whole && s[n] == '.' && s[n + 1..] == frac;
    DigitRunAll(frac);
    assert frac[|frac|..] == [];
    UnsignedWithPoint(s, n, |frac|);
  }

  /** `parseFloat` of digits, '.', digits reads the whole part plus the fraction. */
  lemma ParseWholeDotFraction(whole: string, frac: string)
    requires whole != [] && AllDigits(whole) && AllDigits(frac)
    ensures ParseFloat(whole + "." + frac).Some?
    ensures ParseFloat(whole + "." + frac).value == DigitsValue(whole) as real + Fraction(frac)
  {
    var s := whole + "." + frac;
    WholeDotFraction(whole, frac);
    LiteralWithoutExponent(whole, frac, []);
    assert s[0] == whole[0];
    ParseFloatUnsigned(s, DigitsValue(whole) as real + Fraction(frac));
  }

  /** `parseFloat` of '.' and digits reads the fraction alone. */
  lemma ParseLeadingDot(frac: string)
    requires frac != [] && AllDigits(frac)
    ensures ParseFloat("." + frac).Some? && ParseFloat("." + frac).value == Fraction(frac)
  {
    var s := "." + frac;
    assert DigitRun(s) == 0;
    assert s[..0] == [] && s[1..] == frac;
    DigitRunAll(frac);
    assert frac[|frac|..] == [];
    UnsignedWithPoint(s, 0, |frac|);
    LiteralWithoutExponent([], frac, []);
    ParseFloatUnsigned(s, Fraction(frac));
  }

  /** An exponent part 'e' and digits is that power of ten. */
  lemma ExponentOf(k: string)
    requires k != [] && AllDigits(k)
    ensures Exponent("e" + k) == DigitsValue(k)
  {
    var s := "e" + k;
    assert s[1..] == k;
    DigitRunAll(k);
  }

  /** Digits, 'e', digits is a literal of those digits with that exponent. */
  lemma DigitsExponent(d: string, k: string)
    requires d != [] && AllDigits(d) && k != [] && AllDigits(k)
    ensures ParseUnsigned(d + "e" + k) == Some(Literal(d, [], "e" + k))
  {
    var s := d + ("e" + k);
    assert d + "e" + k == s;
    var n := |d|;
    assert DigitRun(s) == n by {
      DigitRunOf(d, "e" + k);
    }
    assert s[..n] == d && s[n..] == "e" + k;
    UnsignedWithoutPoint(s, n);
  }

  /** A literal with no fraction digits is its whole part shifted by its exponent. */
  lemma LiteralOfWhole(d: string, exponent: string)
    requires AllDigits(d)
    ensures Literal(d, [], exponent) == Shift(DigitsValue(d) as real, Exponent(exponent))
  {
    assert Fraction([]) == 0.0;
  }

  /**
   * `parseFloat` of digits, 'e', digits moves the point right by that many
   * places (ShiftByPow10: it multiplies by that power of ten).
   */
  lemma ParseExponent(d: string, k: string)
    requires d != [] && AllDigits(d) && k != [] && AllDigits(k)
    ensures ParseFloat(d + "e" + k).Some?
    ensures ParseFloat(d + "e" + k).value == Shift(DigitsValue(d) as real, DigitsValue(k))
  {
    var s := d + "e" + k;
    DigitsExponent(d, k);
    ExponentOf(k);
    LiteralOfWhole(d, "e" + k);
    assert s[0] == d[0];
    ParseFloatUnsigned(s, Shift(DigitsValue(d) as real, DigitsValue(k)));
  }

  /** A '-' sign negates what `parseFloat` reads after it. */
  lemma ParseNegated(u: string)
    requires StartsDecimal(u)
    ensures ParseFloat("-" + u).Some? && ParseFloat(u).Some?
    ensures ParseFloat("-" + u).value == -ParseFloat(u).value
  {
    var s := "-" + u;
    UnsignedOf(u);
    assert !IsJsWhitespace(s[0]);
    LeadingWsUnique(s, 0);
    assert s[0..] == s && s[1..] == u;
  }

  /** `parseInt` of decimal digits reads their value. */
  lemma ParseIntDigits(d: string)
    requires d != [] && AllDigits(d)
    ensures ParseInt(d) == Some(DigitsValue(d))
  {
    UnsignedOf(d);
    assert !HexPrefixed(d) by {
      if |d| >= 2 {
        assert IsDigit(d[1]);
      }
    }
    DigitRunAll(d);
  }

  /** A non-negative integer of tenths is its tens plus its last digit in tenths. */
  lemma TenthsSplit(n: nat)
    ensures (n / 10) as real + (n % 10) as real / 10.0 == n as real / 10.0
  {
    assert n == (n / 10) * 10 + n % 10;
    assert n as real == (n / 10) as real * 10.0 + (n % 10) as real;
  }

  /** One digit after the point is that many tenths. */
  lemma FractionOneDigit(d: nat)
    requires d < 10
    ensures Fraction([DigitChar(d)]) == d as real / 10.0
  {
    var frac := [DigitChar(d)];
    assert frac[1..] == [];
  }

  /** Reading back the tens of n, '.', and its last digit gives n tenths. */
  lemma ParseTenths(n: nat)
    ensures var s := NatToDecimal(n / 10) + "." + [DigitChar(n % 10)];
            ParseFloat(s).Some? && ParseFloat(s).value == n as real / 10.0
  {
    var whole := NatToDecimal(n / 10);
    var frac := [DigitChar(n % 10)];
    ParseWholeDotFraction(whole, frac);
    DecimalRoundTrip(n / 10);
    FractionOneDigit(n % 10);
    TenthsSplit(n);
  }

  /**
   * Reading back what `toFixed(1)` printed for a non-negative number gives
   * that number rounded to tenths.
   */
  lemma ParseFixed1(x: real)
    requires x >= 0.0
    ensures ParseFloat(ToFixed1(x)).Some?
    ensures ParseFloat(ToFixed1(x)).value == TenthsRounded(x) as real / 10.0
  {
    var n: nat := TenthsRounded(x);
    assert ToFixed1(x) == NatToDecimal(n / 10) + "." + [DigitChar(n % 10)];
    ParseTenths(n);
  }

  // ------------------------------------------------------- UTF-16 length

  /** JavaScript's `s.length`: code points above U+FFFF take two UTF-16 code units. */
  function Utf16Length(s: string): (n: nat)
    ensures |s| <= n <= 2 * |s|
  {
    if s == [] then 0 else (if s[0] as int > 0xFFFF then 2 else 1) + Utf16Length(s[1..])
  }
}
