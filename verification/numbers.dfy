/** Decimal text <-> 64-bit signed integers, as Rust's `str::parse::<i64>` and
    `i64::to_string` do it. Every spreadsheet and platform-data value that is
    read "as a number" goes through `ParseOrZero`. */
module Numbers {
  import opened Common

  const I64Min: int := -0x8000_0000_0000_0000
  const I64Max: int := 0x7fff_ffff_ffff_ffff

  predicate InI64(n: int) {
    I64Min <= n <= I64Max
  }

  predicate IsDigit(c: char) {
    '0' <= c <= '9'
  }

  predicate AllDigits(s: string) {
    forall i :: 0 <= i < |s| ==> IsDigit(s[i])
  }

  function DigitValue(c: char): nat
    requires IsDigit(c)
  {
    c as int - '0' as int
  }

  function DigitChar(d: nat): (c: char)
    requires d < 10
    ensures IsDigit(c) && DigitValue(c) == d
  {
    ('0' as int + d) as char
  }

  /** The value of a run of decimal digits, most significant first */
  function DigitsValue(s: string): nat
    requires AllDigits(s)
    decreases |s|
  {
    if |s| == 0 then 0 else DigitsValue(s[..|s| - 1]) * 10 + DigitValue(s[|s| - 1])
  }

  /** The syntax `str::parse::<i64>` accepts: an optional `+` or `-`, then at
      least one ASCII digit, nothing else (no blanks). */
  predicate NumeralSyntax(s: string) {
    var digits := Unsigned(s);
    |digits| > 0 && AllDigits(digits)
  }

  /** The text after an optional leading sign */
  function Unsigned(s: string): string {
    if |s| > 0 && (s[0] == '-' || s[0] == '+') then s[1..] else s
  }

  /** `s.parse::<i64>()`: `None` stands for the `Err` of a bad digit, an empty
      string, a lone sign, or a value outside the 64-bit range. */
  function ParseI64(s: string): (r: Option<int>)
    ensures r.Some? <==> NumeralSyntax(s) && InI64(SignedValue(s))
    ensures r.Some? ==> r.value == SignedValue(s)
  {
    if !NumeralSyntax(s) then None
    else
      var v := SignedValue(s);
      if InI64(v) then Some(v) else None
  }

  /** The mathematical value of a well-formed numeral, sign included */
  function SignedValue(s: string): int
    requires NumeralSyntax(s)
  {
    if s[0] == '-' then 0 - DigitsValue(Unsigned(s)) as int else DigitsValue(Unsigned(s))
  }

  /** `s.parse::<i64>().unwrap_or_default()`: unparseable text reads as 0 */
  function ParseOrZero(s: string): (r: int)
    ensures InI64(r)
    ensures ParseI64(s).Some? ==> r == ParseI64(s).value
    ensures ParseI64(s).None? ==> r == 0
  {
    ParseI64(s).GetOr(0)
  }

  function FormatNat(n: nat): string
    decreases n
  {
    if n < 10 then [DigitChar(n)] else FormatNat(n / 10) + [DigitChar(n % 10)]
  }

  /** `i64::to_string`: minus sign for negatives, no leading zeros */
  function FormatInt(n: int): string {
    if n < 0 then "-" + FormatNat(-n) else FormatNat(n)
  }

  lemma {:induction false} FormatNatDigits(n: nat)
    ensures |FormatNat(n)| > 0 && AllDigits(FormatNat(n))
    ensures DigitsValue(FormatNat(n)) == n
    ensures |FormatNat(n)| > 1 <==> n >= 10
    ensures FormatNat(n)[0] == '0' <==> n == 0
    decreases n
  {
    if n >= 10 {
      FormatNatDigits(n / 10);
      var s := FormatNat(n);
      assert s[..|s| - 1] == FormatNat(n / 10);
      assert s[0] == FormatNat(n / 10)[0];
    }
  }

  /** Every rendered integer is a numeral whose value is the integer */
  lemma FormatIntValue(n: int)
    ensures NumeralSyntax(FormatInt(n)) && SignedValue(FormatInt(n)) == n
  {
    FormatNatDigits(if n < 0 then -n else n);
    if n < 0 {
      assert Unsigned(FormatInt(n)) == FormatNat(-n);
    } else {
      assert Unsigned(FormatInt(n)) == FormatNat(n);
    }
  }

  /** Rendering an i64 and parsing it back is the identity */
  lemma ParseFormatRoundTrip(n: int)
    requires InI64(n)
    ensures ParseI64(FormatInt(n)) == Some(n)
  {
    FormatIntValue(n);
  }

  /** Rendered integers are canonical: never a leading `+`, a `-` exactly
      for negatives, and no leading zero unless the number is 0 itself */
  lemma FormatIntShape(n: int)
    ensures |FormatInt(n)| > 0
    ensures FormatInt(n)[0] != '+'
    ensures FormatInt(n)[0] == '-' <==> n < 0
    ensures |Unsigned(FormatInt(n))| > 0 && AllDigits(Unsigned(FormatInt(n)))
    ensures |Unsigned(FormatInt(n))| > 1 ==> Unsigned(FormatInt(n))[0] != '0'
    ensures Unsigned(FormatInt(n)) == "0" <==> n == 0
  {
    FormatNatDigits(if n < 0 then -n else n);
    if n >= 0 {
      assert IsDigit(FormatNat(n)[0]);
      assert Unsigned(FormatInt(n)) == FormatNat(n);
    } else {
      assert Unsigned(FormatInt(n)) == FormatNat(-n);
    }
  }

  /** The rendering is the only canonical numeral of its value: two
      numerals in `to_string`'s shape with the same value are the same text,
      so a key read back as text matches the key rendered from the number */
  lemma {:induction false} CanonicalNumeralUnique(s: string, n: int)
    requires NumeralSyntax(s) && s[0] != '+'
    requires |Unsigned(s)| > 1 ==> Unsigned(s)[0] != '0'
    requires s[0] == '-' ==> Unsigned(s) != "0"
    requires SignedValue(s) == n
    ensures s == FormatInt(n)
  {
    var d := Unsigned(s);
    CanonicalDigits(d);
    if s[0] == '-' {
      assert d == s[1..];
      assert DigitsValue(d) > 0 by {
        if DigitsValue(d) == 0 { CanonicalZero(d); }
      }
      assert s == "-" + d;
    } else {
      assert d == s;
    }
  }

  /** A digit run without a leading zero is the rendering of its value */
  lemma {:induction false} CanonicalDigits(d: string)
    requires |d| > 0 && AllDigits(d)
    requires |d| > 1 ==> d[0] != '0'
    ensures d == FormatNat(DigitsValue(d))
    decreases |d|
  {
    if |d| > 1 {
      var init := d[..|d| - 1];
      CanonicalDigits(init);
      LeadingDigitBound(init);
      var v := DigitsValue(d);
      assert v / 10 == DigitsValue(init) && v % 10 == DigitValue(d[|d| - 1]);
      assert d == init + [d[|d| - 1]];
    }
  }

  /** A digit run whose first digit is not 0 has value at least 1, and at
      least 10 when it has two or more digits */
  lemma {:induction false} LeadingDigitBound(d: string)
    requires |d| > 0 && AllDigits(d) && d[0] != '0'
    ensures DigitsValue(d) >= 1
    ensures |d| > 1 ==> DigitsValue(d) >= 10
    decreases |d|
  {
    if |d| > 1 {
      LeadingDigitBound(d[..|d| - 1]);
    }
  }

  /** A one-digit run of value 0 is "0" */
  lemma CanonicalZero(d: string)
    requires |d| == 1 && AllDigits(d) && DigitsValue(d) == 0
    ensures d == "0"
  {
    assert DigitsValue(d) == DigitsValue(d[..0]) * 10 + DigitValue(d[0]);
  }

  /** Distinct integers render to distinct strings */
  lemma FormatIntInjective(a: int, b: int)
    requires FormatInt(a) == FormatInt(b)
    ensures a == b
  {
    FormatIntValue(a);
    FormatIntValue(b);
  }
}
