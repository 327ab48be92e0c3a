/** The string operations the messages rely on: Java's decimal rendering of a
    `Long` (`"" + id`, `"%d".formatted(id)`), including `null`, and
    `String.contains`. */
module Text {
  import opened Wrappers

  predicate IsDigit(c: char) {
    '0' <= c <= '9'
  }

  predicate AllDigits(s: string) {
    forall i :: 0 <= i < |s| ==> IsDigit(s[i])
  }

  function DigitChar(d: nat): char
    requires d < 10
  {
    ('0' as int + d) as char
  }

  function DigitValue(c: char): nat
    requires IsDigit(c)
  {
    c as int - '0' as int
  }

  /** The decimal digits of `n`, most significant first, without leading zeros. */
  function NatToDecimal(n: nat): (s: string)
    ensures |s| > 0 && AllDigits(s)
    ensures |s| > 1 ==> s[0] != '0'
  {
    if n < 10 then [DigitChar(n)] else NatToDecimal(n / 10) + [DigitChar(n % 10)]
  }

  /** `Long.toString(n)`: a minus sign before the digits of a negative number. */
  function LongToString(n: int): (s: string)
    ensures |s| > 0
    ensures n < 0 <==> s[0] == '-'
    ensures n >= 0 ==> IsDigit(s[0])
  {
    if n < 0 then "-" + NatToDecimal(-n) else NatToDecimal(n)
  }

  /** What `"%d".formatted(x)` and `"" + x` print for a nullable `Long`. */
  function FormatNullableLong(x: Option<int>): (s: string)
    ensures s == "null" <==> x.None?
  {
    match x
    case None => "null"
    case Some(n) => LongToString(n)
  }

  /** Reads a string of digits back as a number (the inverse of `NatToDecimal`). */
  function ParseNat(s: string): nat
    requires AllDigits(s)
  {
    if s == [] then 0 else ParseNat(s[..|s| - 1]) * 10 + DigitValue(s[|s| - 1])
  }

  /** Reads an optional minus sign followed by digits (the inverse of `LongToString`). */
  function ParseLong(s: string): int
    requires |s| > 0
    requires s[0] == '-' ==> AllDigits(s[1..])
    requires s[0] != '-' ==> AllDigits(s)
  {
    if s[0] == '-' then -(ParseNat(s[1..]) as int) else ParseNat(s)
  }

  lemma {:induction false} ParseNatToDecimal(n: nat)
    ensures ParseNat(NatToDecimal(n)) == n
  {
    var s := NatToDecimal(n);
    if n >= 10 {
      var prefix := NatToDecimal(n / 10);
      assert s[..|s| - 1] == prefix;
      ParseNatToDecimal(n / 10);
    }
  }

  /** Rendering a `Long` loses nothing: the number can be read back. */
  lemma LongToStringRoundTrip(n: int)
    ensures var s := LongToString(n); s[0] == '-' ==> AllDigits(s[1..])
    ensures var s := LongToString(n); s[0] != '-' ==> AllDigits(s)
    ensures ParseLong(LongToString(n)) == n
  {
    var s := LongToString(n);
    if n < 0 {
      assert s[1..] == NatToDecimal(-n);
      ParseNatToDecimal(-n);
    } else {
      ParseNatToDecimal(n);
    }
  }

  /** Distinct ids render as distinct strings, so a message names its id unambiguously. */
  lemma LongToStringInjective(a: int, b: int)
    requires LongToString(a) == LongToString(b)
    ensures a == b
  {
    LongToStringRoundTrip(a);
    LongToStringRoundTrip(b);
  }

  /** A character outside the Basic Multilingual Plane, which Java stores as
      a surrogate pair. */
  predicate Supplementary(c: char) {
    c as int >= 0x1_0000
  }

  /** `String.length()`: the number of UTF-16 code units, two for each
      supplementary character and one for every other. */
  function Utf16Length(s: string): (n: nat)
    ensures |s| <= n <= 2 * |s|
    ensures n == |s| <==> forall i :: 0 <= i < |s| ==> !Supplementary(s[i])
    ensures n == 2 * |s| <==> forall i :: 0 <= i < |s| ==> Supplementary(s[i])
  {
    if s == [] then 0
    else
      var rest := Utf16Length(s[1..]);
      assert forall i :: 1 <= i < |s| ==> s[i] == s[1..][i - 1];
      (if Supplementary(s[0]) then 2 else 1) + rest
  }

  /** Code units add up over concatenation. */
  lemma {:induction false} Utf16LengthAppend(a: string, b: string)
    ensures Utf16Length(a + b) == Utf16Length(a) + Utf16Length(b)
  {
    if a != [] {
      assert (a + b)[0] == a[0];
      assert (a + b)[1..] == a[1..] + b;
      Utf16LengthAppend(a[1..], b);
    } else {
      assert a + b == b;
    }
  }

  /** `t` occurs in `s` starting at index `i`. */
  ghost predicate OccursAt(s: string, t: string, i: int) {
    0 <= i && i + |t| <= |s| && s[i..i + |t|] == t
  }

  /** `s.contains(t)`. */
  ghost predicate Contains(s: string, t: string) {
    exists i :: OccursAt(s, t, i)
  }

  /** An occurrence of `t + u` is an occurrence of `t`. */
  lemma OccursAtPrefix(s: string, t: string, u: string, i: int)
    requires OccursAt(s, t + u, i)
    ensures OccursAt(s, t, i)
  {
    assert s[i..i + |t|] == (t + u)[..|t|];
  }
}
