/** Character and string helpers standing for the .NET library calls the core uses:
    invariant-culture case mapping, OrdinalIgnoreCase comparison, char.IsWhiteSpace,
    integer-to-decimal rendering and the "F2" fixed-point format. Case mapping covers the
    ASCII letters only. */
module Text {

  predicate IsAsciiUpper(c: char) { 'A' <= c <= 'Z' }

  predicate IsAsciiLower(c: char) { 'a' <= c <= 'z' }

  /** char.ToUpperInvariant on the ASCII letters; every other character is kept. */
  function UpperChar(c: char): (r: char)
    ensures IsAsciiLower(c) ==> IsAsciiUpper(r) && r as int == c as int - 32
    ensures !IsAsciiLower(c) ==> r == c
    ensures !IsAsciiLower(r)
  {
    if IsAsciiLower(c) then (c as int - 32) as char else c
  }

  /** char.ToLowerInvariant on the ASCII letters; every other character is kept. */
  function LowerChar(c: char): (r: char)
    ensures IsAsciiUpper(c) ==> IsAsciiLower(r) && r as int == c as int + 32
    ensures !IsAsciiUpper(c) ==> r == c
    ensures !IsAsciiUpper(r)
  {
    if IsAsciiUpper(c) then (c as int + 32) as char else c
  }

  /** string.ToUpperInvariant. */
  function ToUpperInvariant(s: string): (r: string)
    ensures |r| == |s|
    ensures forall i :: 0 <= i < |s| ==> r[i] == UpperChar(s[i])
  {
    seq(|s|, i requires 0 <= i < |s| => UpperChar(s[i]))
  }

  /** StringComparer.OrdinalIgnoreCase equality: equal after upper-casing. */
  predicate EqualsIgnoreCase(a: string, b: string) {
    ToUpperInvariant(a) == ToUpperInvariant(b)
  }

  /** Enumerable.Contains(xs, s, StringComparer.OrdinalIgnoreCase). */
  predicate ContainsIgnoreCase(xs: seq<string>, s: string) {
    exists i :: 0 <= i < |xs| && EqualsIgnoreCase(xs[i], s)
  }

  lemma ContainsIgnoreCaseSingle(x: string, s: string)
    ensures ContainsIgnoreCase([x], s) <==> EqualsIgnoreCase(x, s)
  {
    if EqualsIgnoreCase(x, s) {
      assert EqualsIgnoreCase([x][0], s);
    }
  }

  /** Upper-casing is idempotent, so an ignore-case comparison against an upper-case constant
      is a plain comparison of the upper-cased input. */
  lemma {:induction false} UpperIdempotent(s: string)
    ensures ToUpperInvariant(ToUpperInvariant(s)) == ToUpperInvariant(s)
  {
    var u := ToUpperInvariant(s);
    forall i | 0 <= i < |u| ensures UpperChar(u[i]) == u[i] {
      assert !IsAsciiLower(u[i]);
    }
  }

  lemma EqualsIgnoreCaseUpperConstant(k: string, s: string)
    requires ToUpperInvariant(k) == k
    ensures EqualsIgnoreCase(k, s) <==> ToUpperInvariant(s) == k
  {
  }

  /** char.IsWhiteSpace: the Unicode space, line and paragraph separators, U+0009..U+000D,
      U+0085 and U+00A0. */
  predicate IsWhiteSpace(c: char) {
    var n := c as int;
    n == 0x20 || (0x09 <= n <= 0x0D) || n == 0x85 || n == 0xA0 || n == 0x1680
    || (0x2000 <= n <= 0x200A) || n == 0x2028 || n == 0x2029 || n == 0x202F
    || n == 0x205F || n == 0x3000
  }

  /** A character .NET stores in one UTF-16 code unit: one in the Basic Multilingual Plane.
      Every other character takes a surrogate pair. */
  predicate IsBmp(c: char) { c as int < 0x1_0000 }

  /** string.Length: the number of UTF-16 code units, which is what FluentValidation's Length
      and MaximumLength rules count. */
  function Utf16Length(s: string): (n: nat)
    ensures |s| <= n <= 2 * |s|
    ensures n == |s| <==> forall i :: 0 <= i < |s| ==> IsBmp(s[i])
    ensures (forall i :: 0 <= i < |s| ==> !IsBmp(s[i])) ==> n == 2 * |s|
  {
    if s == [] then 0
    else
      var rest := Utf16Length(s[1..]);
      assert forall i :: 0 < i < |s| ==> s[i] == s[1..][i - 1];
      (if IsBmp(s[0]) then 1 else 2) + rest
  }

  /** string.IsNullOrWhiteSpace on a non-null string. */
  predicate IsWhiteSpaceOnly(s: string) {
    forall i :: 0 <= i < |s| ==> IsWhiteSpace(s[i])
  }

  predicate IsDigit(c: char) { '0' <= c <= '9' }

  function DigitChar(d: nat): (c: char)
    requires d < 10
    ensures IsDigit(c)
  {
    ('0' as int + d) as char
  }

  function DigitValue(c: char): (d: nat)
    requires IsDigit(c)
    ensures d < 10
  {
    c as int - '0' as int
  }

  /** The decimal rendering of a natural number, without leading zeros. */
  function DecimalString(n: nat): (s: string)
    ensures |s| >= 1
    ensures forall i :: 0 <= i < |s| ==> IsDigit(s[i])
    ensures n > 0 ==> s[0] != '0'
  {
    if n < 10 then [DigitChar(n)] else DecimalString(n / 10) + [DigitChar(n % 10)]
  }

  /** Reads a string of decimal digits back into the number it denotes. */
  function ParseDecimal(s: string): nat
    requires forall i :: 0 <= i < |s| ==> IsDigit(s[i])
  {
    if s == [] then 0 else ParseDecimal(s[..|s| - 1]) * 10 + DigitValue(s[|s| - 1])
  }

  /** Rendering a number in decimal and reading it back gives the number. */
  lemma {:induction false} DecimalRoundTrip(n: nat)
    ensures ParseDecimal(DecimalString(n)) == n
  {
    var s := DecimalString(n);
    if n >= 10 {
      DecimalRoundTrip(n / 10);
      assert s[..|s| - 1] == DecimalString(n / 10);
    }
  }

  /** Distinct numbers have distinct renderings. */
  lemma DecimalInjective(m: nat, n: nat)
    requires DecimalString(m) == DecimalString(n)
    ensures m == n
  {
    DecimalRoundTrip(m);
    DecimalRoundTrip(n);
  }

  /** decimal.ToString("F2") of an amount u counted in ten-thousandths: rounded to hundredths,
      half away from zero, with two digits after the point. */
  function FormatF2(u: int): string {
    var a := if u < 0 then -u else u;
    var cents := (a + 50) / 100;
    (if u < 0 then "-" else "") + DecimalString(cents / 100) + "."
      + [DigitChar(cents % 100 / 10), DigitChar(cents % 10)]
  }

  /** The value that FormatF2 shows for a non-negative amount, read back in hundredths, is the
      amount rounded to the nearest hundredth, half away from zero. */
  lemma FormatF2Shows(u: nat)
    ensures var s := FormatF2(u);
      var k := |s| - 3;
      && k >= 1 && s[k] == '.'
      && (forall i :: 0 <= i < |s| && i != k ==> IsDigit(s[i]))
      && var shown := ParseDecimal(s[..k]) * 100 + DigitValue(s[k + 1]) * 10 + DigitValue(s[k + 2]);
         shown * 100 - 50 <= u < shown * 100 + 50
  {
    var cents := (u + 50) / 100;
    var whole := DecimalString(cents / 100);
    var s := FormatF2(u);
    FormatF2Layout(whole, DigitChar(cents % 100 / 10), DigitChar(cents % 10));
    assert s == whole + ['.', DigitChar(cents % 100 / 10), DigitChar(cents % 10)];
    DecimalRoundTrip(cents / 100);
    CentsRounding(u);
  }

  lemma FormatF2Layout(whole: string, d1: char, d2: char)
    ensures var s := whole + "." + [d1, d2];
            && s == whole + ['.', d1, d2]
            && |s| == |whole| + 3 && s[..|whole|] == whole && s[|whole|] == '.'
            && s[|whole| + 1] == d1 && s[|whole| + 2] == d2
  {
    assert whole + "." + [d1, d2] == whole + ['.', d1, d2];
  }

  lemma CentsRounding(u: nat)
    ensures var cents := (u + 50) / 100;
            && DigitValue(DigitChar(cents % 100 / 10)) == cents % 100 / 10
            && DigitValue(DigitChar(cents % 10)) == cents % 10
            && cents / 100 * 100 + cents % 100 / 10 * 10 + cents % 10 == cents
            && cents * 100 - 50 <= u < cents * 100 + 50
  {
  }
}
