/** JavaScript's `parseInt(s)` without a radix argument, as every handler
    and page calls it on query strings, route parameters and form fields:
    decimal, or hexadecimal after a `0x`/`0X` prefix. */
module JsNumbers {
  import opened Common

  /** The value of a digit character in radixes up to 36: `0`-`9`, then
      the letters in either case; 36 for anything else. */
  function CharValue(c: char): (v: nat)
    ensures v <= 36
  {
    if '0' <= c <= '9' then c as int - '0' as int
    else if 'a' <= c <= 'z' then c as int - 'a' as int + 10
    else if 'A' <= c <= 'Z' then c as int - 'A' as int + 10
    else 36
  }

  predicate IsDigitOf(radix: nat, c: char)
  {
    CharValue(c) < radix
  }

  predicate IsDigit(c: char)
  {
    '0' <= c <= '9'
  }

  /** The longest prefix of `s` made of digits of `radix`. */
  function DigitRun(s: string, radix: nat): (r: string)
    ensures |r| <= |s| && r == s[..|r|]
    ensures forall i :: 0 <= i < |r| ==> IsDigitOf(radix, r[i])
    ensures |r| < |s| ==> !IsDigitOf(radix, s[|r|])
  {
    if |s| > 0 && IsDigitOf(radix, s[0]) then [s[0]] + DigitRun(s[1..], radix) else ""
  }

  /** The value of a run of digits of `radix`, most significant first
      (applied only to runs that `DigitRun` cut out). */
  function DigitsValue(d: string, radix: nat): (v: nat)
  {
    if |d| == 0 then 0
    else DigitsValue(d[..|d| - 1], radix) * radix + CharValue(d[|d| - 1])
  }

  /** After the sign, `0x` or `0X` switches to radix 16 and is skipped. */
  predicate HexPrefixed(u: string)
  {
    |u| >= 2 && u[0] == '0' && (u[1] == 'x' || u[1] == 'X')
  }

  /** `parseInt(s)`: leading white space is skipped, one optional sign is
      read, then a `0x`/`0X` prefix selects hexadecimal; the longest run of
      digits of the radix follows. With no digit there the result is NaN,
      here `None`. Whatever follows the digits is ignored. */
  function ParseInt(s: string): Option<int>
  {
    ParseTrimmed(TrimStart(s))
  }

  /** A number is read only from text holding a digit, and never when the
      first character after the white space is neither a digit nor a sign. */
  lemma ParseIntNeedsDigit(s: string)
    ensures ParseInt(s).Some? ==> exists i :: 0 <= i < |s| && IsDigit(s[i])
    ensures |TrimStart(s)| > 0 && !IsDigit(TrimStart(s)[0]) && TrimStart(s)[0] != '-' && TrimStart(s)[0] != '+' ==> ParseInt(s).None?
  {
    var t := TrimStart(s);
    if ParseInt(s).Some? {
      assert IsDigit(s[|s| - |t| + SignLength(t)]);
    }
  }

  /** The characters a leading sign takes up. */
  function SignLength(t: string): (n: nat)
    ensures n <= 1 && n <= |t|
  {
    if |t| > 0 && (t[0] == '-' || t[0] == '+') then 1 else 0
  }

  /** `parseInt` after the white space: the sign, the radix prefix, then
      the digits. */
  function ParseTrimmed(t: string): (r: Option<int>)
    ensures var u := t[SignLength(t)..];
      r.Some? <==> if HexPrefixed(u) then |u| > 2 && IsDigitOf(16, u[2]) else |u| > 0 && IsDigit(u[0])
  {
    var u := t[SignLength(t)..];
    var radix := if HexPrefixed(u) then 16 else 10;
    var d := DigitRun(if HexPrefixed(u) then u[2..] else u, radix);
    if |d| == 0 then None
    else
      var v: int := DigitsValue(d, radix);
      Some(if SignLength(t) == 1 && t[0] == '-' then -v else v)
  }

  lemma {:induction false} DigitsOfNat(n: nat)
    ensures DigitRun(NatToString(n), 10) == NatToString(n)
    ensures DigitsValue(NatToString(n), 10) == n
    decreases n
  {
    var s := NatToString(n);
    assert forall i :: 0 <= i < |s| ==> IsDigitOf(10, s[i]);
    DigitRunOfDigits(s, 10);
    if n >= 10 {
      DigitsOfNat(n / 10);
      var prefix := NatToString(n / 10);
      assert s == prefix + [DigitChar(n % 10)];
      assert s[..|s| - 1] == prefix;
      assert DigitsValue(s, 10) == DigitsValue(prefix, 10) * 10 + CharValue(DigitChar(n % 10));
    }
  }

  lemma {:induction false} DigitRunOfDigits(s: string, radix: nat)
    requires forall i :: 0 <= i < |s| ==> IsDigitOf(radix, s[i])
    ensures DigitRun(s, radix) == s
  {
    if |s| > 0 {
      DigitRunOfDigits(s[1..], radix);
    }
  }

  /** Rendering a count and reading it back gives the count: the numbers the
      pages write into URLs come back unchanged from `parseInt`. */
  lemma ParseIntRoundTrip(n: nat)
    ensures ParseInt(NatToString(n)) == Some(n)
  {
    var s := NatToString(n);
    assert forall k :: 0 <= k < |s| ==> IsDigit(s[k]);
    ParseDigits(s);
    DigitsOfNat(n);
  }

  /** A run of decimal digits reads as its decimal value: a second digit is
      never an `x`, so no hexadecimal prefix is seen. */
  lemma ParseDigits(s: string)
    requires |s| >= 1 && forall k :: 0 <= k < |s| ==> IsDigit(s[k])
    ensures forall k :: 0 <= k < |s| ==> IsDigitOf(10, s[k])
    ensures ParseInt(s) == Some(DigitsValue(s, 10))
  {
    assert !IsSpace(s[0]);
    assert TrimStart(s) == s;
    DigitRunOfDigits(s, 10);
    PlainRun(s);
  }

  /** `ParseTrimmed` on a whole run of decimal digits. */
  lemma PlainRun(t: string)
    requires |t| >= 1 && forall k :: 0 <= k < |t| ==> IsDigit(t[k])
    requires DigitRun(t, 10) == t
    ensures forall k :: 0 <= k < |t| ==> IsDigitOf(10, t[k])
    ensures ParseTrimmed(t) == Some(DigitsValue(t, 10))
  {
    assert SignLength(t) == 0 && t[0..] == t;
    assert !HexPrefixed(t);
  }

  /** `0x` followed by hexadecimal digits reads as their hexadecimal value:
      `parseInt("0x1f")` is 31, where a decimal reading would give 0. */
  lemma ParseHexDigits(h: string)
    requires |h| >= 1 && forall k :: 0 <= k < |h| ==> IsDigitOf(16, h[k])
    ensures ParseInt("0x" + h) == Some(DigitsValue(h, 16))
  {
    var s := "0x" + h;
    assert s[0] == '0' && s[1] == 'x' && s[2..] == h;
    HexRun(s, h);
  }

  /** `ParseInt` on a `0x` prefix and a whole run of hexadecimal digits. */
  lemma HexRun(s: string, h: string)
    requires |s| >= 3 && s[0] == '0' && s[1] == 'x' && s[2..] == h
    requires |h| >= 1 && forall k :: 0 <= k < |h| ==> IsDigitOf(16, h[k])
    ensures ParseInt(s) == Some(DigitsValue(h, 16))
  {
    assert !IsSpace(s[0]);
    assert TrimStart(s) == s;
    assert SignLength(s) == 0 && s[0..] == s;
    assert HexPrefixed(s);
    DigitRunOfDigits(h, 16);
  }

  /** A prefix with no hexadecimal digit after it is NaN, not 0. */
  lemma HexPrefixAlone(s: string)
    requires |s| >= 2 && s[0] == '0' && (s[1] == 'x' || s[1] == 'X')
    requires |s| == 2 || !IsDigitOf(16, s[2])
    ensures ParseInt(s).None?
  {
    assert !IsSpace(s[0]);
    assert TrimStart(s) == s;
    assert SignLength(s) == 0 && s[0..] == s;
  }

  /** `String(i)` for an integer (also what `JSON.stringify` writes). */
  function IntToString(i: int): (s: string)
    ensures |s| >= 1
    ensures i >= 0 ==> s == NatToString(i)
    ensures i < 0 ==> |s| >= 2 && s[0] == '-' && s[1..] == NatToString(-i)
  {
    if i < 0 then "-" + NatToString(-i) else NatToString(i)
  }

  /** A minus sign followed by decimal digits reads as the negated digits. */
  lemma ParseNegative(d: string)
    requires |d| >= 1 && forall k :: 0 <= k < |d| ==> IsDigit(d[k])
    ensures forall k :: 0 <= k < |d| ==> IsDigitOf(10, d[k])
    ensures ParseInt("-" + d) == Some(-(DigitsValue(d, 10) as int))
  {
    var s := "-" + d;
    assert !IsSpace(s[0]);
    assert TrimStart(s) == s;
    assert s[1..] == d;
    DecimalDigits(d);
    DigitRunOfDigits(d, 10);
    assert !HexPrefixed(d) by {
      if |d| >= 2 {
        assert IsDigit(d[1]);
      }
    }
    NegatedRun(s, d);
  }

  /** Decimal digits are digits of radix 10. */
  lemma DecimalDigits(d: string)
    requires forall k :: 0 <= k < |d| ==> IsDigit(d[k])
    ensures forall k :: 0 <= k < |d| ==> IsDigitOf(10, d[k])
  {
  }

  /** `ParseTrimmed` on a minus sign and a whole run of decimal digits. */
  lemma NegatedRun(t: string, d: string)
    requires |t| >= 1 && t[0] == '-' && |d| >= 1 && t[1..] == d
    requires !HexPrefixed(d) && DigitRun(d, 10) == d
    ensures ParseTrimmed(t) == Some(-(DigitsValue(d, 10) as int))
  {
    assert SignLength(t) == 1;
  }

  /** Every integer the pages write comes back unchanged from `parseInt`,
      negative ones included. */
  lemma IntToStringRoundTrip(i: int)
    ensures ParseInt(IntToString(i)) == Some(i)
  {
    if i < 0 {
      var d := NatToString(-i);
      DigitsOfNat(-i);
      ParseMinus(IntToString(i), d, i);
    } else {
      ParseIntRoundTrip(i);
    }
  }

  /** A minus sign and the digits of `-i` read as `i`. */
  lemma ParseMinus(s: string, d: string, i: int)
    requires i < 0 && |d| >= 1 && forall k :: 0 <= k < |d| ==> IsDigit(d[k])
    requires s == "-" + d
    requires forall k :: 0 <= k < |d| ==> IsDigitOf(10, d[k])
    requires DigitsValue(d, 10) == -i
    ensures ParseInt(s) == Some(i)
  {
    ParseNegative(d);
  }
}
