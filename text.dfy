/**
 * The few JavaScript string and number conversions the core relies on:
 * decimal rendering of integers, `padStart(2, '0')`, `trim`, `startsWith`,
 * `includes`, `split` on one character, `Number(string)` and `parseInt`.
 * Values are read for integer text only; for every numeric literal form of
 * `Number` the model decides whether it is NaN, zero, negative or positive.
 */
module Text {
  import opened Wrappers

  predicate IsDigit(c: char) {
    '0' <= c <= '9'
  }

  predicate AllDigits(s: string) {
    forall i :: 0 <= i < |s| ==> IsDigit(s[i])
  }

  function DigitChar(d: nat): (c: char)
    requires d < 10
    ensures IsDigit(c)
  {
    ('0' as int + d) as char
  }

  function DigitValue(c: char): (d: nat)
    requires IsDigit(c)
    ensures d < 10
  {
    c as int - '0' as int
  }

  lemma DigitValueOfDigitChar(d: nat)
    requires d < 10
    ensures DigitValue(DigitChar(d)) == d
  {
  }

  /** `n.toString()` for a non-negative integer: decimal, no leading zeros. */
  function NatToString(n: nat): (s: string)
    ensures 1 <= |s| && AllDigits(s)
    ensures (|s| == 1) == (n < 10)
    ensures |s| > 1 ==> s[0] != '0'
    decreases n
  {
    if n < 10 then [DigitChar(n)] else NatToString(n / 10) + [DigitChar(n % 10)]
  }

  /** `${i}` for an integer of either sign. */
  function IntToString(i: int): (s: string)
    ensures 1 <= |s|
  {
    if i < 0 then "-" + NatToString(-i) else NatToString(i)
  }

  /** The value of a string of decimal digits; leading zeros are allowed. */
  function DigitsValue(s: string): nat
    requires AllDigits(s)
  {
    if s == [] then 0 else DigitsValue(s[..|s| - 1]) * 10 + DigitValue(s[|s| - 1])
  }

  lemma {:induction false} DigitsValueOfNatToString(n: nat)
    ensures DigitsValue(NatToString(n)) == n
    decreases n
  {
    var s := NatToString(n);
    if n < 10 {
      DigitValueOfDigitChar(n);
      assert s[..|s| - 1] == [];
    } else {
      DigitsValueOfNatToString(n / 10);
      DigitValueOfDigitChar(n % 10);
      assert s[..|s| - 1] == NatToString(n / 10);
    }
  }

  lemma {:induction false} DigitsValueLeadingZero(s: string)
    requires AllDigits(s)
    ensures AllDigits("0" + s) && DigitsValue("0" + s) == DigitsValue(s)
    decreases |s|
  {
    var t := "0" + s;
    if s == [] {
      assert t[..|t| - 1] == [];
    } else {
      assert t[..|t| - 1] == "0" + s[..|s| - 1];
      DigitsValueLeadingZero(s[..|s| - 1]);
    }
  }

  /** `n.toString().padStart(2, '0')`. */
  function Pad2(n: nat): (s: string)
    ensures 2 <= |s| && AllDigits(s)
    ensures n < 100 ==> |s| == 2
  {
    var t := NatToString(n);
    if |t| < 2 then "0" + t else t
  }

  lemma Pad2Value(n: nat)
    ensures DigitsValue(Pad2(n)) == n
  {
    DigitsValueOfNatToString(n);
    var t := NatToString(n);
    if |t| < 2 {
      DigitsValueLeadingZero(t);
    }
  }

  /** Below 100, the padded rendering is exactly the tens digit and the units digit. */
  lemma Pad2Small(n: nat)
    requires n < 100
    ensures Pad2(n) == [DigitChar(n / 10), DigitChar(n % 10)]
  {
    if n >= 10 {
      assert NatToString(n / 10) == [DigitChar(n / 10)];
    }
  }

  /** `s.length`: JavaScript counts UTF-16 code units, two for a character beyond U+FFFF. */
  function Utf16Length(s: string): (n: nat)
    ensures |s| <= n <= 2 * |s|
  {
    if s == [] then 0 else Utf16Length(s[..|s| - 1]) + (if s[|s| - 1] as int > 0xFFFF then 2 else 1)
  }

  /** Text within the Basic Multilingual Plane has one code unit per character. */
  lemma {:induction false} Utf16LengthOfBmp(s: string)
    requires forall i :: 0 <= i < |s| ==> s[i] as int <= 0xFFFF
    ensures Utf16Length(s) == |s|
  {
    if s != [] {
      Utf16LengthOfBmp(s[..|s| - 1]);
    }
  }

  /** Four characters beyond U+FFFF are eight code units. */
  lemma FourAstralCharacters()
    ensures Utf16Length("\U{1F512}\U{1F512}\U{1F512}\U{1F512}") == 8
  {
    var c := '\U{1F512}';
    assert "\U{1F512}\U{1F512}\U{1F512}\U{1F512}" == [c, c, c, c];
    assert c as int > 0xFFFF;
    assert [c][..0] == [];
    assert Utf16Length([c]) == 2;
    assert [c, c][..1] == [c];
    assert Utf16Length([c, c]) == 4;
    assert [c, c, c][..2] == [c, c];
    assert Utf16Length([c, c, c]) == 6;
    assert [c, c, c, c][..3] == [c, c, c];
  }

  /** The characters JavaScript's `trim` removes and its regular-expression `\s` matches. */
  predicate IsWhitespace(c: char) {
    c == ' ' || c == '\t' || c == '\n' || c == '\r' || c == '\U{0B}' || c == '\U{0C}'
    || c == '\U{A0}' || c == '\U{1680}' || ('\U{2000}' <= c <= '\U{200A}')
    || c == '\U{2028}' || c == '\U{2029}' || c == '\U{202F}' || c == '\U{205F}'
    || c == '\U{3000}' || c == '\U{FEFF}'
  }

  predicate IsBlank(s: string) {
    forall i :: 0 <= i < |s| ==> IsWhitespace(s[i])
  }

  /** `s.trimStart()`: the suffix left after dropping leading whitespace. */
  function TrimStart(s: string): (r: string)
    ensures |r| <= |s|
  {
    if s == [] || !IsWhitespace(s[0]) then s else TrimStart(s[1..])
  }

  /** `trimStart` drops a whitespace prefix and stops at the first other character. */
  lemma {:induction false} TrimStartShape(s: string)
    ensures var r := TrimStart(s);
      && r == s[|s| - |r|..]
      && (forall i :: 0 <= i < |s| - |r| ==> IsWhitespace(s[i]))
      && (r == [] || !IsWhitespace(r[0]))
  {
    if s != [] && IsWhitespace(s[0]) {
      TrimStartShape(s[1..]);
    }
  }

  /** `s.trimEnd()`: the prefix left after dropping trailing whitespace. */
  function TrimEnd(s: string): (r: string)
    ensures |r| <= |s|
  {
    if s == [] || !IsWhitespace(s[|s| - 1]) then s else TrimEnd(s[..|s| - 1])
  }

  /** `trimEnd` drops a whitespace suffix and stops at the last other character. */
  lemma {:induction false} TrimEndShape(s: string)
    ensures var r := TrimEnd(s);
      && r == s[..|r|]
      && (forall i :: |r| <= i < |s| ==> IsWhitespace(s[i]))
      && (r == [] || !IsWhitespace(r[|r| - 1]))
  {
    if s != [] && IsWhitespace(s[|s| - 1]) {
      TrimEndShape(s[..|s| - 1]);
    }
  }

  /** `s.trim()`. */
  function Trim(s: string): string {
    TrimEnd(TrimStart(s))
  }

  /** Trimming leaves nothing exactly when the string was all whitespace. */
  lemma TrimEmptyIffBlank(s: string)
    ensures Trim(s) == "" <==> IsBlank(s)
  {
    var t := TrimStart(s);
    TrimStartShape(s);
    TrimEndShape(t);
    if Trim(s) != "" {
      assert t != [] && !IsWhitespace(s[|s| - |t|]);
    }
  }

  /** A string with a non-whitespace first and last character is its own trim. */
  lemma TrimOfTrimmed(s: string)
    requires s != [] && !IsWhitespace(s[0]) && !IsWhitespace(s[|s| - 1])
    ensures Trim(s) == s
  {
  }

  predicate StartsWith(s: string, prefix: string) {
    |prefix| <= |s| && s[..|prefix|] == prefix
  }

  /** `s.includes(sub)`. */
  predicate Contains(s: string, sub: string)
    decreases |s|
  {
    StartsWith(s, sub) || (s != [] && Contains(s[1..], sub))
  }

  lemma {:induction false} ContainsAfterPrefix(a: string, b: string, sub: string)
    requires Contains(b, sub)
    ensures Contains(a + b, sub)
    decreases |a|
  {
    if a == [] {
      assert a + b == b;
    } else {
      assert (a + b)[1..] == a[1..] + b;
      ContainsAfterPrefix(a[1..], b, sub);
    }
  }

  /** Text that lacks the first character of `sub` does not contain `sub`. */
  lemma {:induction false} NotContainsMissingChar(s: string, sub: string)
    requires sub != [] && forall i :: 0 <= i < |s| ==> s[i] != sub[0]
    ensures !Contains(s, sub)
    decreases |s|
  {
    if s != [] {
      NotContainsMissingChar(s[1..], sub);
    }
  }

  lemma ContainsPrefix(s: string, sub: string, rest: string)
    ensures Contains(sub + rest, sub)
  {
    assert (sub + rest)[..|sub|] == sub;
  }

  lemma {:induction false} ContainsBeforeSuffix(a: string, b: string, sub: string)
    requires Contains(a, sub)
    ensures Contains(a + b, sub)
    decreases |a|
  {
    if StartsWith(a, sub) {
      assert (a + b)[..|sub|] == a[..|sub|];
    } else {
      ContainsBeforeSuffix(a[1..], b, sub);
      assert (a + b)[1..] == a[1..] + b;
    }
  }

  /** Text found in the middle piece is found in the whole. */
  lemma ContainsInside(a: string, w: string, b: string, sub: string)
    requires Contains(w, sub)
    ensures Contains(a + w + b, sub)
  {
    ContainsBeforeSuffix(w, b, sub);
    ContainsAfterPrefix(a, w + b, sub);
    assert a + w + b == a + (w + b);
  }

  /** `s.split(sep)` for a one-character separator: never empty, one more piece than separators. */
  function Split(s: string, sep: char): (parts: seq<string>)
    ensures |parts| >= 1
  {
    if s == [] then [""]
    else
      var rest := Split(s[1..], sep);
      if s[0] == sep then [""] + rest else [[s[0]] + rest[0]] + rest[1..]
  }

  lemma {:induction false} SplitWithoutSeparator(a: string, sep: char)
    requires sep !in a
    ensures Split(a, sep) == [a]
    decreases |a|
  {
    if a != [] {
      SplitWithoutSeparator(a[1..], sep);
      assert [a[0]] + a[1..] == a;
    }
  }

  lemma {:induction false} SplitAtSeparator(a: string, sep: char, t: string)
    requires sep !in a
    ensures Split(a + [sep] + t, sep) == [a] + Split(t, sep)
    decreases |a|
  {
    var s := a + [sep] + t;
    if a == [] {
      assert s[1..] == t;
    } else {
      assert s[1..] == a[1..] + [sep] + t;
      SplitAtSeparator(a[1..], sep, t);
      assert [a[0]] + a[1..] == a;
    }
  }

  /** The longest prefix of `s` made of decimal digits. */
  function DigitPrefix(s: string): (d: string)
    ensures AllDigits(d) && StartsWith(s, d)
    ensures |d| < |s| ==> !IsDigit(s[|d|])
  {
    if s == [] || !IsDigit(s[0]) then "" else [s[0]] + DigitPrefix(s[1..])
  }

  /**
   * `Number(s)` restricted to integers: surrounding whitespace is ignored,
   * an empty or blank string is 0, an optionally signed run of digits is its
   * value, anything else is NaN (`None`).
   */
  function JsNumber(s: string): Option<int> {
    var t := Trim(s);
    if t == "" then Some(0)
    else if AllDigits(t) then Some(DigitsValue(t))
    else if |t| > 1 && (t[0] == '-' || t[0] == '+') && AllDigits(t[1..]) then
      var v: int := DigitsValue(t[1..]);
      Some(if t[0] == '-' then -v else v)
    else None
  }

  lemma JsNumberOfDigits(s: string)
    requires s != [] && AllDigits(s)
    ensures JsNumber(s) == Some(DigitsValue(s))
  {
    assert !IsWhitespace(s[0]) && !IsWhitespace(s[|s| - 1]);
    TrimOfTrimmed(s);
  }

  // ---------------------------------------------------------------------
  // The sign of `Number(s)` for every numeric literal form

  /** Where `Number(s)` falls against zero; negative zero counts as `Zero`. */
  datatype Sign = Negative | Zero | Positive

  function SignOf(v: int): (r: Sign)
    ensures r == Zero <==> v == 0
    ensures r == Negative <==> v < 0
  {
    if v < 0 then Negative else if v == 0 then Zero else Positive
  }

  /** The letter after a leading `0` that selects base 16, 8 or 2 (either case); 0 for any other character. */
  function RadixOfMarker(c: char): nat {
    if c == 'x' || c == 'X' then 16 else if c == 'o' || c == 'O' then 8 else if c == 'b' || c == 'B' then 2 else 0
  }

  /** A digit of the given base; letters `a`-`f` in either case are digits of base 16 only. */
  predicate InRadix(c: char, radix: nat) {
    (IsDigit(c) && DigitValue(c) < radix) || (radix == 16 && ('a' <= c <= 'f' || 'A' <= c <= 'F'))
  }

  predicate AllInRadix(s: string, radix: nat) {
    forall i :: 0 <= i < |s| ==> InRadix(s[i], radix)
  }

  /** Some character is neither `0` nor the decimal point: the digits do not spell zero. */
  predicate NonZeroIn(s: string) {
    exists i :: 0 <= i < |s| && s[i] != '0' && s[i] != '.'
  }

  /** The index of the first `e` or `E`, or `|u|` when there is none. */
  function ExponentMark(u: string): (k: nat)
    ensures k <= |u|
    ensures forall i :: 0 <= i < k ==> u[i] != 'e' && u[i] != 'E'
    ensures k < |u| ==> u[k] == 'e' || u[k] == 'E'
  {
    if u == [] || u[0] == 'e' || u[0] == 'E' then 0 else 1 + ExponentMark(u[1..])
  }

  /** `1.5`, `1.`, `.5` or `15`: at least one digit and at most one decimal point. */
  predicate IsMantissa(m: string) {
    var whole := DigitPrefix(m);
    var rest := m[|whole|..];
    if rest == [] then whole != []
    else rest[0] == '.' && AllDigits(rest[1..]) && |whole| + |rest| > 1
  }

  /** The exponent after `e`: an optional sign and at least one digit. */
  predicate IsSignedInteger(x: string) {
    var digits := if x != [] && (x[0] == '+' || x[0] == '-') then x[1..] else x;
    digits != [] && AllDigits(digits)
  }

  /** An unsigned decimal literal other than `Infinity`: a mantissa and an optional exponent. */
  predicate IsUnsignedDecimal(u: string) {
    var k := ExponentMark(u);
    IsMantissa(u[..k]) && (k == |u| || IsSignedInteger(u[k + 1..]))
  }

  /**
   * The sign of `Number(s)`, NaN being `None`. Surrounding whitespace is
   * ignored and blank text is 0. A `0x`, `0o` or `0b` literal takes no sign
   * and is zero when all its digits are; a decimal literal may carry a sign,
   * a fraction and an exponent, and is zero exactly when its mantissa has no
   * digit other than 0; `Infinity` may be signed too.
   */
  function NumberSign(s: string): Option<Sign> {
    var t := Trim(s);
    if t == "" then Some(Zero)
    else if |t| >= 2 && t[0] == '0' && RadixOfMarker(t[1]) != 0 then
      var digits := t[2..];
      if digits != [] && AllInRadix(digits, RadixOfMarker(t[1])) then
        Some(if NonZeroIn(digits) then Positive else Zero)
      else None
    else
      var negative := t[0] == '-';
      var u := if t[0] == '-' || t[0] == '+' then t[1..] else t;
      if u == "Infinity" then Some(if negative then Negative else Positive)
      else if IsUnsignedDecimal(u) then
        Some(if !NonZeroIn(u[..ExponentMark(u)]) then Zero else if negative then Negative else Positive)
      else None
  }

  lemma {:induction false} DigitPrefixOfDigits(s: string)
    requires AllDigits(s)
    ensures DigitPrefix(s) == s
  {
    if s != [] {
      DigitPrefixOfDigits(s[1..]);
      assert [s[0]] + s[1..] == s;
    }
  }

  /** Decimal digits spell zero exactly when every one of them is `0`. */
  lemma {:induction false} NonZeroInDigits(s: string)
    requires AllDigits(s)
    ensures NonZeroIn(s) <==> DigitsValue(s) != 0
  {
    if s != [] {
      var front := s[..|s| - 1];
      NonZeroInDigits(front);
      if NonZeroIn(front) {
        var i :| 0 <= i < |front| && front[i] != '0' && front[i] != '.';
        assert s[i] == front[i];
      }
      if NonZeroIn(s) {
        var i :| 0 <= i < |s| && s[i] != '0' && s[i] != '.';
        if i < |s| - 1 {
          assert front[i] == s[i];
        }
      }
    }
  }

  lemma UnsignedDigitsSign(u: string)
    requires u != [] && AllDigits(u)
    ensures ExponentMark(u) == |u| && IsUnsignedDecimal(u) && u != "Infinity"
    ensures NonZeroIn(u[..ExponentMark(u)]) <==> DigitsValue(u) != 0
  {
    var k := ExponentMark(u);
    assert u[..k] == u;
    DigitPrefixOfDigits(u);
    assert u[|u|..] == [];
    NonZeroInDigits(u);
    assert u[0] != "Infinity"[0];
  }

  /** On integer text, where the two are both defined, the sign agrees with the integer `Number` reading. */
  lemma NumberSignOfInteger(s: string)
    requires JsNumber(s).Some?
    ensures NumberSign(s) == Some(SignOf(JsNumber(s).value))
  {
    var t := Trim(s);
    if t != "" {
      if AllDigits(t) {
        UnsignedDigitsSign(t);
        if |t| >= 2 {
          assert IsDigit(t[1]);
        }
      } else {
        UnsignedDigitsSign(t[1..]);
      }
    }
  }

  lemma NonZeroInAppend(a: string, b: string)
    ensures NonZeroIn(a + b) <==> NonZeroIn(a) || NonZeroIn(b)
  {
    var u := a + b;
    if NonZeroIn(u) {
      var i :| 0 <= i < |u| && u[i] != '0' && u[i] != '.';
      if i < |a| { assert a[i] == u[i]; } else { assert b[i - |a|] == u[i]; }
    }
    if NonZeroIn(a) {
      var i :| 0 <= i < |a| && a[i] != '0' && a[i] != '.';
      assert u[i] == a[i];
    }
    if NonZeroIn(b) {
      var i :| 0 <= i < |b| && b[i] != '0' && b[i] != '.';
      assert u[|a| + i] == b[i];
    }
  }

  /** Text without `e` or `E` has no exponent part. */
  lemma ExponentMarkNone(u: string)
    requires forall i :: 0 <= i < |u| ==> u[i] != 'e' && u[i] != 'E'
    ensures ExponentMark(u) == |u|
  {
  }

  /** The exponent mark after a part without one is the first one. */
  lemma ExponentMarkAfter(m: string, e: char, x: string)
    requires ExponentMark(m) == |m| && (e == 'e' || e == 'E')
    ensures ExponentMark(m + [e] + x) == |m|
  {
    var u := m + [e] + x;
    assert u[|m|] == e;
  }

  /** `whole.frac` with digits on at least one side is a decimal literal, zero exactly when all its digits are. */
  lemma FractionLiteral(whole: string, frac: string)
    requires AllDigits(whole) && AllDigits(frac) && |whole| + |frac| > 0
    ensures var u := whole + "." + frac;
      && ExponentMark(u) == |u| && IsUnsignedDecimal(u)
      && (NonZeroIn(u) <==> NonZeroIn(whole) || NonZeroIn(frac))
  {
    var u := whole + "." + frac;
    forall i | 0 <= i < |u| ensures u[i] != 'e' && u[i] != 'E' {
      if i < |whole| { assert u[i] == whole[i]; }
      else if i > |whole| { assert u[i] == frac[i - |whole| - 1]; }
    }
    ExponentMarkNone(u);
    assert u[..|u|] == u;
    DigitPrefixUpTo(whole, "." + frac);
    assert u[|whole|..] == "." + frac;
    assert ("." + frac)[1..] == frac;
    NonZeroInAppend(whole + ".", frac);
    NonZeroInAppend(whole, ".");
  }

  /** A mantissa followed by `e` or `E` and a signed integer is a decimal literal whose sign is the mantissa's. */
  lemma ExponentLiteral(m: string, e: char, x: string)
    requires IsMantissa(m) && ExponentMark(m) == |m|
    requires (e == 'e' || e == 'E') && IsSignedInteger(x)
    ensures var u := m + [e] + x;
      && IsUnsignedDecimal(u) && u[..ExponentMark(u)] == m
  {
    var u := m + [e] + x;
    ExponentMarkAfter(m, e, x);
    assert u[..|m|] == m;
    assert u[|m| + 1..] == x;
  }

  /**
   * A decimal literal reads with its own sign; with `-` in front it reads
   * as negative, or as negative zero when its digits are all 0.
   */
  lemma {:induction false} DecimalSign(u: string)
    requires IsUnsignedDecimal(u) && u != []
    requires !IsWhitespace(u[0]) && u[0] != '-' && u[0] != '+' && !IsWhitespace(u[|u| - 1])
    requires |u| < 2 || RadixOfMarker(u[1]) == 0
    ensures NumberSign(u) == Some(if NonZeroIn(u[..ExponentMark(u)]) then Positive else Zero)
    ensures NumberSign("-" + u) == Some(if NonZeroIn(u[..ExponentMark(u)]) then Negative else Zero)
  {
    TrimOfTrimmed(u);
    var t := "-" + u;
    assert t[|t| - 1] == u[|u| - 1];
    TrimOfTrimmed(t);
    assert t[1..] == u;
    if u == "Infinity" {
      assert false;
    }
  }

  /** A `0x`, `0o` or `0b` literal is positive unless all its digits are 0. */
  lemma RadixLiteral(marker: char, digits: string)
    requires RadixOfMarker(marker) != 0 && digits != [] && AllInRadix(digits, RadixOfMarker(marker))
    ensures NumberSign(['0', marker] + digits) == Some(if NonZeroIn(digits) then Positive else Zero)
  {
    var t := ['0', marker] + digits;
    assert t[|t| - 1] == digits[|digits| - 1];
    TrimOfTrimmed(t);
    assert t[2..] == digits;
  }

  /** A sign in front of a `0x`, `0o` or `0b` literal makes it NaN. */
  lemma SignedRadixLiteral(sign: char, marker: char, digits: string)
    requires sign == '-' || sign == '+'
    requires RadixOfMarker(marker) != 0 && digits != [] && AllInRadix(digits, RadixOfMarker(marker))
    ensures NumberSign([sign, '0', marker] + digits) == None
  {
    var t := [sign, '0', marker] + digits;
    assert t[|t| - 1] == digits[|digits| - 1];
    TrimOfTrimmed(t);
    var u := t[1..];
    assert u[0] == '0' && u[1] == marker;
    var k := ExponentMark(u);
    var m := u[..k];
    assert m[0] == '0' && m[1] == marker;
    assert DigitPrefix(m[1..]) == "";
    assert DigitPrefix(m) == "0";
  }

  // How `Number` reads a few notations of zero and of negative amounts.

  lemma ZeroFraction()
    ensures NumberSign("0.0") == Some(Zero)
  {
  }

  lemma ZeroLeadingPoint()
    ensures NumberSign(".0") == Some(Zero)
  {
  }

  lemma ZeroHex()
    ensures NumberSign("0x0") == Some(Zero)
  {
  }

  lemma NegativeFraction()
    ensures NumberSign("-0.5") == Some(Negative)
  {
  }

  lemma NegativeExponent()
    ensures NumberSign("-1e3") == Some(Negative)
  {
  }

  // ---------------------------------------------------------------------
  // `parseInt` without a radix

  function HexDigitValue(c: char): (d: nat)
    requires InRadix(c, 16)
    ensures d < 16
  {
    if IsDigit(c) then DigitValue(c)
    else if 'a' <= c <= 'f' then c as int - 'a' as int + 10
    else c as int - 'A' as int + 10
  }

  /** The value of a string of hexadecimal digits. */
  function HexValue(s: string): nat
    requires AllInRadix(s, 16)
  {
    if s == [] then 0 else HexValue(s[..|s| - 1]) * 16 + HexDigitValue(s[|s| - 1])
  }

  /** The longest prefix of `s` made of hexadecimal digits. */
  function HexPrefix(s: string): (d: string)
    ensures AllInRadix(d, 16) && StartsWith(s, d)
    ensures |d| < |s| ==> !InRadix(s[|d|], 16)
  {
    if s == [] || !InRadix(s[0], 16) then "" else [s[0]] + HexPrefix(s[1..])
  }

  /**
   * `parseInt(s)` with no radix: leading whitespace is skipped and an
   * optional sign read; after it `0x` or `0X` selects base 16, otherwise
   * base 10; the longest run of digits of that base is read, and no digit
   * at all gives NaN (`None`).
   */
  function JsParseInt(s: string): Option<int> {
    var t := TrimStart(s);
    var signed := |t| > 0 && (t[0] == '-' || t[0] == '+');
    var negative := signed && t[0] == '-';
    var body := if signed then t[1..] else t;
    if |body| >= 2 && body[0] == '0' && (body[1] == 'x' || body[1] == 'X') then
      var h := HexPrefix(body[2..]);
      if h == "" then None
      else
        var v: int := HexValue(h);
        Some(if negative then -v else v)
    else
      var d := DigitPrefix(body);
      if d == "" then None
      else
        var v: int := DigitsValue(d);
        Some(if negative then -v else v)
  }

  /** A run of decimal digits reads as its value, whatever non-digit text follows (other than an `x` after a lone `0`). */
  lemma ParseIntDecimal(digits: string, rest: string)
    requires digits != [] && AllDigits(digits)
    requires rest == [] || (!IsDigit(rest[0]) && rest[0] != 'x' && rest[0] != 'X')
    ensures JsParseInt(digits + rest) == Some(DigitsValue(digits))
  {
    var s := digits + rest;
    assert s[0] == digits[0];
    assert TrimStart(s) == s;
    if |s| >= 2 {
      assert s[1] != 'x' && s[1] != 'X' by {
        if |digits| > 1 { assert s[1] == digits[1]; } else { assert s[1] == rest[0]; }
      }
    }
    DigitPrefixUpTo(digits, rest);
  }

  lemma {:induction false} DigitPrefixUpTo(digits: string, rest: string)
    requires AllDigits(digits)
    requires rest == [] || !IsDigit(rest[0])
    ensures DigitPrefix(digits + rest) == digits
  {
    if digits != [] {
      assert (digits + rest)[1..] == digits[1..] + rest;
      DigitPrefixUpTo(digits[1..], rest);
      assert [digits[0]] + digits[1..] == digits;
    } else {
      assert digits + rest == rest;
    }
  }

  /** `0x` or `0X` and hexadecimal digits read as their base-16 value. */
  lemma ParseIntHex(marker: char, hex: string)
    requires marker == 'x' || marker == 'X'
    requires hex != [] && AllInRadix(hex, 16)
    ensures JsParseInt(['0', marker] + hex) == Some(HexValue(hex))
  {
    HexPrefixOfHex(hex);
    assert (['0', marker] + hex)[2..] == hex;
  }

  /** A `-` in front of unsigned text negates what `parseInt` reads, in either base. */
  lemma ParseIntNegative(s: string)
    requires s != [] && !IsWhitespace(s[0]) && s[0] != '-' && s[0] != '+'
    ensures JsParseInt("-" + s) == if JsParseInt(s).Some? then Some(-JsParseInt(s).value) else None
  {
    assert ("-" + s)[1..] == s;
  }

  lemma {:induction false} HexPrefixOfHex(s: string)
    requires AllInRadix(s, 16)
    ensures HexPrefix(s) == s
  {
    if s != [] {
      HexPrefixOfHex(s[1..]);
      assert [s[0]] + s[1..] == s;
    }
  }
}
