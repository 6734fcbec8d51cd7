/** JavaScript's `parseInt(string, 10)` on integers, and the decimal text of
    a non-negative integer below 10^21 (what a template literal prints for
    such an integer, a port among them; larger ones print in exponent
    form).

    `parseInt` returns a floating-point number; here the result is the exact
    integer the digits denote, and `None` stands for `NaN`. */
module JsParseInt {
  import opened Wrappers

  /** ECMAScript's white space and line terminators, which `parseInt` skips
      before the number: tab, line feed, vertical tab, form feed, carriage
      return, the Unicode space separators (category Zs), the byte order mark,
      and the line and paragraph separators. */
  predicate IsJsWhitespace(c: char) {
    || c == '\t' || c == '\n' || c == '\U{000B}' || c == '\U{000C}' || c == '\r'
    || c == ' ' || c == '\U{00A0}' || c == '\U{1680}'
    || ('\U{2000}' <= c <= '\U{200A}')
    || c == '\U{2028}' || c == '\U{2029}' || c == '\U{202F}' || c == '\U{205F}'
    || c == '\U{3000}' || c == '\U{FEFF}'
  }

  predicate IsDigit(c: char) {
    '0' <= c <= '9'
  }

  predicate AllDigits(s: string) {
    forall i :: 0 <= i < |s| ==> IsDigit(s[i])
  }

  function DigitValue(c: char): (d: nat)
    requires IsDigit(c)
    ensures d < 10
  {
    (c as int - '0' as int)
  }

  function DigitChar(d: nat): (c: char)
    requires d < 10
    ensures IsDigit(c) && DigitValue(c) == d
  {
    ('0' as int + d) as char
  }

  /** The string with its leading white space removed. */
  function TrimStart(s: string): (r: string)
    ensures |r| <= |s| && r == s[|s| - |r|..]
    ensures r == [] || !IsJsWhitespace(r[0])
  {
    if |s| > 0 && IsJsWhitespace(s[0]) then TrimStart(s[1..]) else s
  }

  /** Every character of `s` is white space. */
  predicate AllWhitespace(s: string) {
    |s| == 0 || (IsJsWhitespace(s[0]) && AllWhitespace(s[1..]))
  }

  /** Only white space is dropped. */
  lemma {:induction false} TrimStartDropsOnlyWhitespace(s: string)
    ensures AllWhitespace(s[..|s| - |TrimStart(s)|])
  {
    if |s| > 0 && IsJsWhitespace(s[0]) {
      TrimStartDropsOnlyWhitespace(s[1..]);
      var k := |s| - |TrimStart(s)|;
      assert TrimStart(s) == TrimStart(s[1..]);
      assert s[..k][0] == s[0];
      assert s[..k][1..] == s[1..][..k - 1];
    }
  }

  /** The length of the longest prefix of `s` made of decimal digits. */
  function DigitRun(s: string): (n: nat)
    ensures n <= |s|
    ensures AllDigits(s[..n])
    ensures n == |s| || !IsDigit(s[n])
  {
    if |s| > 0 && IsDigit(s[0]) then
      var n := 1 + DigitRun(s[1..]);
      assert forall i :: 1 <= i < n ==> s[..n][i] == s[1..][..n - 1][i - 1];
      n
    else 0
  }

  /** The number a string of decimal digits denotes, most significant first
      (leading zeros allowed). */
  function DigitsValue(d: string): nat
    requires AllDigits(d)
  {
    if |d| == 0 then 0 else DigitsValue(d[..|d| - 1]) * 10 + DigitValue(d[|d| - 1])
  }

  /** The text after an optional leading sign. */
  function Unsigned(t: string): string {
    if |t| > 0 && (t[0] == '+' || t[0] == '-') then t[1..] else t
  }

  /** `magnitude`, negated when `negative`. */
  function Signed(negative: bool, magnitude: nat): int {
    if negative then -(magnitude as int) else magnitude
  }

  /** The value of the leading digit run of `u`, negated when `negative`;
      `None` when `u` does not start with a digit. */
  function ParseDigits(negative: bool, u: string): Option<int> {
    var n := DigitRun(u);
    if n == 0 then None
    else Some(Signed(negative, DigitsValue(u[..n])))
  }

  /** `parseInt(s, 10)`: skip leading white space, read an optional `+` or
      `-`, then the longest run of decimal digits; with no digit at all the
      result is `NaN` (`None`). Anything after the digits is ignored. */
  function ParseInt(s: string): Option<int> {
    var t := TrimStart(s);
    ParseDigits(|t| > 0 && t[0] == '-', Unsigned(t))
  }

  /** The shortest decimal text of `n`, as JavaScript prints an integer
      below 10^21 (a port, for instance). */
  function Decimal(n: nat): (s: string)
    ensures |s| > 0 && AllDigits(s)
    ensures |s| > 1 ==> s[0] != '0'
  {
    if n < 10 then [DigitChar(n)] else Decimal(n / 10) + [DigitChar(n % 10)]
  }

  /** Reading the decimal text of `n` back gives `n`. */
  lemma {:induction false} DigitsValueOfDecimal(n: nat)
    ensures DigitsValue(Decimal(n)) == n
  {
    if n >= 10 {
      var d := Decimal(n);
      assert d[..|d| - 1] == Decimal(n / 10);
      DigitsValueOfDecimal(n / 10);
    }
  }

  /** A numeral made of optional white space, an optional sign, a non-empty
      run of digits and anything that does not start with a digit parses to
      the signed value of the digits. */
  lemma ParseIntOfNumeral(ws: string, sign: string, digits: string, rest: string)
    requires AllWhitespace(ws)
    requires sign == "" || sign == "+" || sign == "-"
    requires |digits| > 0 && AllDigits(digits)
    requires rest == [] || !IsDigit(rest[0])
    ensures ParseInt(ws + (sign + (digits + rest)))
      == Some(Signed(sign == "-", DigitsValue(digits)))
  {
    var u := digits + rest;
    assert u[0] == digits[0];
    ParseIntOfSigned(ws, sign, u);
    DigitRunOfNumeral(digits, rest);
    assert u[..|digits|] == digits;
    ParseDigitsOfRun(sign == "-", u, digits);
  }

  /** White space and a sign in front of a digit are consumed, and the sign
      decides the sign of the result. */
  lemma ParseIntOfSigned(ws: string, sign: string, u: string)
    requires AllWhitespace(ws)
    requires sign == "" || sign == "+" || sign == "-"
    requires |u| > 0 && IsDigit(u[0])
    ensures ParseInt(ws + (sign + u)) == ParseDigits(sign == "-", u)
  {
    SignedIsNotBlank(sign, u);
    TrimStartOfPadded(ws, sign + u);
    UnsignedOfSigned(sign, u);
  }

  /** A sign or a digit is not white space. */
  lemma SignedIsNotBlank(sign: string, u: string)
    requires sign == "" || sign == "+" || sign == "-"
    requires |u| > 0 && IsDigit(u[0])
    ensures !IsJsWhitespace((sign + u)[0])
  {
    if sign == "" {
      assert (sign + u)[0] == u[0];
    } else {
      assert (sign + u)[0] == sign[0];
    }
  }

  /** The optional sign in front of a digit is what `Unsigned` strips, and it
      is `-` exactly when the sign is. */
  lemma UnsignedOfSigned(sign: string, u: string)
    requires sign == "" || sign == "+" || sign == "-"
    requires |u| > 0 && IsDigit(u[0])
    ensures Unsigned(sign + u) == u
    ensures ((sign + u)[0] == '-') == (sign == "-")
  {
    var t := sign + u;
    if sign == "" {
      assert t == u;
    } else {
      assert t[0] == sign[0] && t[1..] == u;
    }
  }

  /** The converse: whatever `parseInt` reads a number from is white space,
      an optional sign, a non-empty digit run and a remainder that does not
      start with a digit, and the number is the signed value of the run. */
  lemma ParseIntReadsNumeral(s: string) returns (ws: string, sign: string, digits: string, rest: string)
    requires ParseInt(s).Some?
    ensures s == ws + (sign + (digits + rest))
    ensures AllWhitespace(ws)
    ensures sign == "" || sign == "+" || sign == "-"
    ensures |digits| > 0 && AllDigits(digits)
    ensures rest == [] || !IsDigit(rest[0])
    ensures ParseInt(s) == Some(Signed(sign == "-", DigitsValue(digits)))
  {
    var t := TrimStart(s);
    ws := s[..|s| - |t|];
    TrimStartDropsOnlyWhitespace(s);
    assert s == ws + t;
    sign, digits, rest := SplitSigned(t);
    ParseIntOfNumeral(ws, sign, digits, rest);
  }

  /** Text with no leading white space, cut into its optional sign, its
      digit run and what follows the run. */
  lemma SplitSigned(t: string) returns (sign: string, digits: string, rest: string)
    requires DigitRun(Unsigned(t)) > 0
    ensures t == sign + (digits + rest)
    ensures sign == "" || sign == "+" || sign == "-"
    ensures |digits| > 0 && AllDigits(digits)
    ensures rest == [] || !IsDigit(rest[0])
  {
    var u := Unsigned(t);
    var n := DigitRun(u);
    digits := u[..n];
    rest := u[n..];
    assert u == digits + rest;
    if |t| > 0 && (t[0] == '+' || t[0] == '-') {
      sign := [t[0]];
    } else {
      sign := "";
    }
    assert t == sign + u;
  }

  /** When `u` starts with exactly the digit run `digits`, the digits read
      are those, with the sign applied. */
  lemma ParseDigitsOfRun(negative: bool, u: string, digits: string)
    requires |digits| > 0 && AllDigits(digits)
    requires DigitRun(u) == |digits| && u[..|digits|] == digits
    ensures ParseDigits(negative, u)
      == Some(Signed(negative, DigitsValue(digits)))
  {
  }

  /** Leading white space is dropped up to the first non-blank character. */
  lemma {:induction false} TrimStartOfPadded(ws: string, s: string)
    requires AllWhitespace(ws)
    requires s == [] || !IsJsWhitespace(s[0])
    ensures TrimStart(ws + s) == s
  {
    if |ws| > 0 {
      assert (ws + s)[1..] == ws[1..] + s;
      TrimStartOfPadded(ws[1..], s);
    }
  }

  /** The digit run of digits followed by a non-digit is those digits. */
  lemma {:induction false} DigitRunOfNumeral(digits: string, rest: string)
    requires AllDigits(digits)
    requires rest == [] || !IsDigit(rest[0])
    ensures DigitRun(digits + rest) == |digits|
  {
    if |digits| > 0 {
      assert (digits + rest)[1..] == digits[1..] + rest;
      DigitRunOfNumeral(digits[1..], rest);
    } else {
      assert digits + rest == rest;
    }
  }

  /** Printing a non-negative integer and parsing it back is the identity. */
  lemma ParseIntOfDecimal(n: nat)
    ensures ParseInt(Decimal(n)) == Some(n)
  {
    DigitsValueOfDecimal(n);
    ParseIntOfNumeral("", "", Decimal(n), "");
    assert "" + ("" + (Decimal(n) + "")) == Decimal(n);
  }

  /** `parseInt` reads `ws sign digits rest` as the signed value of the
      digits; this instance fixes the digits to the decimal text of `n`. */
  lemma ParsesAs(ws: string, sign: string, n: nat, rest: string, s: string)
    requires AllWhitespace(ws)
    requires sign == "" || sign == "+" || sign == "-"
    requires rest == [] || !IsDigit(rest[0])
    requires s == ws + (sign + (Decimal(n) + rest))
    ensures ParseInt(s) == Some(Signed(sign == "-", n))
  {
    DigitsValueOfDecimal(n);
    ParseIntOfNumeral(ws, sign, Decimal(n), rest);
  }

  /** Leading blanks and a `+` sign are accepted. */
  lemma ParseIntSkipsBlankAndPlus()
    ensures ParseInt(" +8080") == Some(8080)
  {
    assert Decimal(8080) == "8080";
    ParsesAs(" ", "+", 8080, "", " +8080");
  }

  /** Text after the digits is ignored. */
  lemma ParseIntIgnoresTrailingText()
    ensures ParseInt("3000abc") == Some(3000)
  {
    assert Decimal(3000) == "3000";
    ParsesAs("", "", 3000, "abc", "3000abc");
  }

  /** An exponent is not part of the integer read. */
  lemma ParseIntIgnoresExponent()
    ensures ParseInt("8e3") == Some(8)
  {
    assert Decimal(8) == "8";
    ParsesAs("", "", 8, "e3", "8e3");
  }

  /** `-0` reads as zero. */
  lemma ParseIntOfNegativeZero()
    ensures ParseInt("-0") == Some(0)
  {
    assert Decimal(0) == "0";
    ParsesAs("", "-", 0, "", "-0");
  }

  /** Text without a leading digit is `NaN`. */
  lemma ParseIntWithoutDigits()
    ensures ParseInt("") == None
    ensures ParseInt("port") == None
  {
    assert ParseInt("") == None by {
      assert TrimStart("") == "";
      assert DigitRun("") == 0;
    }
    assert !IsJsWhitespace("port"[0]);
    assert TrimStart("port") == "port";
    assert Unsigned("port") == "port";
    assert DigitRun("port") == 0;
  }
}
