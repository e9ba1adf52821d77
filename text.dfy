/**
 * The text the handlers produce with `sprintf`: the `%d` rendering of an
 * integer, a parser that undoes it, and `sprintf` called with a format
 * string and no further arguments.
 */
module CText {
  import opened Wrappers
  import opened CArith

  predicate IsDigit(c: char) {
    '0' <= c <= '9'
  }

  /** Characters `%d` can produce: the decimal digits and the minus sign. */
  predicate IsNumeral(s: string) {
    forall k :: 0 <= k < |s| ==> IsDigit(s[k]) || s[k] == '-'
  }

  function DigitChar(d: int): (c: char)
    requires 0 <= d < 10
    ensures IsDigit(c) && c as int - '0' as int == d
  {
    ('0' as int + d) as char
  }

  /** Decimal digits of a natural number, most significant first, no leading zeros. */
  function NatText(n: nat): (s: string)
    ensures 1 <= |s|
    ensures forall k :: 0 <= k < |s| ==> IsDigit(s[k])
    ensures |s| > 1 ==> s[0] != '0'
  {
    if n < 10 then [DigitChar(n)] else NatText(n / 10) + [DigitChar(n % 10)]
  }

  /** `sprintf(buf, "%d", n)`: an optional minus sign, then the digits of |n|. */
  function Decimal(n: int): (s: string)
    ensures 1 <= |s| && IsNumeral(s)
  {
    if n < 0 then "-" + NatText(-n) else NatText(n)
  }

  /** Reads a non-empty string of decimal digits. */
  function ParseNat(s: string): Option<nat>
  {
    if s == [] || !IsDigit(s[|s| - 1]) then None
    else
      var last := s[|s| - 1] as int - '0' as int;
      if |s| == 1 then Some(last)
      else
        var high :- ParseNat(s[..|s| - 1]);
        Some(high * 10 + last)
  }

  /** Reads an optionally negative decimal integer. */
  function ParseDecimal(s: string): Option<int>
  {
    if |s| > 0 && s[0] == '-' then
      var m :- ParseNat(s[1..]);
      Some(-(m as int))
    else
      var m :- ParseNat(s);
      Some(m)
  }

  lemma {:induction false} ParseNatText(n: nat)
    ensures ParseNat(NatText(n)) == Some(n)
  {
    if n >= 10 {
      ParseNatText(n / 10);
      var s := NatText(n);
      assert s[..|s| - 1] == NatText(n / 10);
    }
  }

  /** Reading back the `%d` text of any integer gives that integer. */
  lemma DecimalRoundTrip(n: int)
    ensures ParseDecimal(Decimal(n)) == Some(n)
  {
    var s := Decimal(n);
    if n < 0 {
      ParseNatText(-n);
      assert s[0] == '-' && s[1..] == NatText(-n);
      assert ParseDecimal(s) == Some(-(-n));
    } else {
      ParseNatText(n);
      assert s == NatText(n) && IsDigit(s[0]);
    }
  }

  /** Distinct integers have distinct `%d` texts. */
  lemma DecimalInjective(m: int, n: int)
    requires Decimal(m) == Decimal(n)
    ensures m == n
  {
    DecimalRoundTrip(m);
    DecimalRoundTrip(n);
  }

  /**
   * `%d` text contains no markup delimiter, decimal point or NUL, so each
   * element's value is delimited unambiguously and `strcat` copies it whole.
   */
  lemma DecimalExcludes(n: int, c: char)
    requires c == '<' || c == '.' || c == '\0'
    ensures c !in Decimal(n)
  {
  }

  /** 10^k */
  function Pow10(k: nat): (p: nat)
    ensures p >= 1
  {
    if k == 0 then 1 else 10 * Pow10(k - 1)
  }

  lemma {:induction false} NatTextLength(n: nat, k: nat)
    requires 1 <= k && n < Pow10(k)
    ensures |NatText(n)| <= k
  {
    if n >= 10 {
      assert Pow10(1) == 10;
      assert k >= 2;
      NatTextLength(n / 10, k - 1);
    }
  }

  /** A 32-bit integer prints in at most 11 characters ("-2147483648"). */
  lemma DecimalLengthInt32(n: int)
    requires IsInt32(n)
    ensures |Decimal(n)| <= 11
  {
    assert Pow10(10) == 10000000000;
    NatTextLength(Abs(n), 10);
  }

  /** An integer of magnitude below 10^11 prints in at most 12 characters. */
  lemma DecimalLengthBelow10To11(n: int)
    requires Abs(n) < 100000000000
    ensures |Decimal(n)| <= 12
  {
    assert Pow10(11) == 100000000000;
    NatTextLength(Abs(n), 11);
  }

  /**
   * `sprintf(dst, fmt)` with no argument after the format: `%%` prints one
   * `%`, any other character prints itself, and a lone `%` starts a
   * conversion with no argument to convert (undefined in C: None here).
   */
  function FormatNoArgs(fmt: string): (r: Option<string>)
    ensures r.Some? ==> |r.value| <= |fmt|
  {
    if fmt == [] then Some([])
    else if fmt[0] != '%' then
      var rest :- FormatNoArgs(fmt[1..]);
      Some([fmt[0]] + rest)
    else if |fmt| >= 2 && fmt[1] == '%' then
      var rest :- FormatNoArgs(fmt[2..]);
      Some("%" + rest)
    else None
  }

  /** A format string without `%` prints exactly itself. */
  lemma {:induction false} FormatNoArgsPlain(fmt: string)
    requires '%' !in fmt
    ensures FormatNoArgs(fmt) == Some(fmt)
  {
    if fmt != [] {
      assert fmt[0] in fmt;
      FormatNoArgsPlain(fmt[1..]);
      assert [fmt[0]] + fmt[1..] == fmt;
    }
  }

  /** `%d` text never contains `%`, so re-printing it as a format leaves it as it is. */
  lemma DecimalReformat(n: int)
    ensures '%' !in Decimal(n)
    ensures FormatNoArgs(Decimal(n)) == Some(Decimal(n))
  {
    var s := Decimal(n);
    assert forall k :: 0 <= k < |s| ==> s[k] != '%';
    FormatNoArgsPlain(s);
  }
}
