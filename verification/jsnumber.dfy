/** ECMAScript number <-> text conversions used by the screens: rendering a
    non-negative integer in decimal (`String(n)`, template literals, route
    parameters) and the global `parseInt` with no radix argument. */
module JsNumber {
  import opened Wrappers
  import opened JsString

  predicate IsDecimalDigit(c: char) {
    '0' <= c <= '9'
  }

  function DigitChar(d: nat): (c: char)
    requires d < 10
    ensures IsDecimalDigit(c) && c as int - '0' as int == d
  {
    ('0' as int + d) as char
  }

  /** The decimal rendering of a non-negative integer, without sign or leading zeros. */
  function Decimal(n: nat): (r: string)
    ensures |r| >= 1
    ensures forall i :: 0 <= i < |r| ==> IsDecimalDigit(r[i])
    ensures |r| > 1 ==> r[0] != '0'
  {
    if n < 10 then [DigitChar(n)] else Decimal(n / 10) + [DigitChar(n % 10)]
  }

  /** Value of a digit character in radices up to 36 (`0`-`9`, then letters of either case). */
  function DigitValue(c: char): (v: nat)
    ensures v <= 36
  {
    if '0' <= c <= '9' then c as int - '0' as int
    else if 'a' <= c <= 'z' then c as int - 'a' as int + 10
    else if 'A' <= c <= 'Z' then c as int - 'A' as int + 10
    else 36
  }

  predicate IsDigitIn(c: char, radix: nat) {
    DigitValue(c) < radix
  }

  /** The longest prefix of `s` made of digits of the given radix. */
  function DigitPrefix(s: string, radix: nat): (r: string)
    ensures |r| <= |s| && r == s[..|r|]
    ensures forall i :: 0 <= i < |r| ==> IsDigitIn(r[i], radix)
    ensures |r| < |s| ==> !IsDigitIn(s[|r|], radix)
  {
    if |s| > 0 && IsDigitIn(s[0], radix) then [s[0]] + DigitPrefix(s[1..], radix) else []
  }

  /** The mathematical value of a digit string, most significant digit first. */
  function ValueOf(digits: string, radix: nat): nat {
    if |digits| == 0 then 0
    else ValueOf(digits[..|digits| - 1], radix) * radix + DigitValue(digits[|digits| - 1])
  }

  /** The sign of a numeral and the text after it. */
  function SplitSign(t: string): (int, string) {
    if |t| > 0 && t[0] == '-' then (-1, t[1..])
    else if |t| > 0 && t[0] == '+' then (1, t[1..])
    else (1, t)
  }

  /** The radix of an unsigned numeral (16 after a `0x`/`0X` prefix, else 10) and its digits. */
  function SplitRadix(u: string): (nat, string) {
    if |u| >= 2 && u[0] == '0' && (u[1] == 'x' || u[1] == 'X') then (16, u[2..]) else (10, u)
  }

  /** ECMAScript `parseInt(s)` without a radix: skip leading white space, read an
      optional sign, switch to radix 16 after a `0x`/`0X`, then read the longest
      run of digits. `None` stands for `NaN` (no digit at all). */
  function ParseInt(s: string): (r: Option<int>)
    ensures AllWhitespace(s) ==> r.None?
    ensures r.Some? && r.value < 0 ==> TrimStart(s)[0] == '-'
  {
    var (sign, u) := SplitSign(TrimStart(s));
    var (radix, body) := SplitRadix(u);
    var digits := DigitPrefix(body, radix);
    if |digits| == 0 then None else Some(sign * ValueOf(digits, radix))
  }

  lemma {:induction false} DigitPrefixOfDigits(d: string, rest: string)
    requires forall i :: 0 <= i < |d| ==> IsDecimalDigit(d[i])
    requires rest == [] || !IsDigitIn(rest[0], 10)
    ensures DigitPrefix(d + rest, 10) == d
    decreases |d|
  {
    if |d| > 0 {
      assert (d + rest)[1..] == d[1..] + rest;
      DigitPrefixOfDigits(d[1..], rest);
    } else {
      assert d + rest == rest;
    }
  }

  lemma {:induction false} ValueOfDecimal(n: nat)
    ensures ValueOf(Decimal(n), 10) == n
  {
    if n >= 10 {
      var d := Decimal(n);
      assert d[..|d| - 1] == Decimal(n / 10);
      ValueOfDecimal(n / 10);
    }
  }

  /** `parseInt` reads back the decimal rendering of `n` from the start of a text,
      whatever follows it, as long as that does not begin with a letter or digit
      (after `0`, an `x` would switch to hexadecimal). */
  lemma ParseIntOfDecimal(n: nat, rest: string)
    requires rest == [] || !IsDigitIn(rest[0], 36)
    ensures ParseInt(Decimal(n) + rest) == Some(n)
  {
    DecimalLeads(n, rest);
    DigitPrefixOfDigits(Decimal(n), rest);
    ValueOfDecimal(n);
  }

  /** Helper: a text opening with a decimal rendering has no leading white
      space, no sign and no hexadecimal prefix. */
  lemma DecimalLeads(n: nat, rest: string)
    requires rest == [] || !IsDigitIn(rest[0], 36)
    ensures var s := Decimal(n) + rest;
      TrimStart(s) == s && SplitSign(s) == (1, s) && SplitRadix(s) == (10, s)
  {
    var d := Decimal(n);
    var s := d + rest;
    assert s[0] == d[0] && IsDecimalDigit(s[0]);
    assert !IsWhitespace(s[0]);
    assert TrimStart(s) == s;
    assert SplitSign(s) == (1, s);
    assert SplitRadix(s) == (10, s) by {
      if |s| >= 2 && s[0] == '0' {
        assert |d| == 1;
        assert s[1] == rest[0];
      }
    }
  }

  lemma ParseIntRoundTrip(n: nat)
    ensures ParseInt(Decimal(n)) == Some(n)
  {
    ParseIntOfDecimal(n, []);
    assert Decimal(n) + [] == Decimal(n);
  }
}
