/** Decimal rendering of integers (`${n}`) and JavaScript's `parseInt`: with radix 10, and with
    no radix, where a `0x` prefix switches to hexadecimal. */
module Decimal {
  import opened Wrappers
  import opened Text

  function DigitChar(d: nat): (c: char)
    requires d < 10
    ensures IsAsciiDigit(c) && c as int - '0' as int == d
  {
    ('0' as int + d) as char
  }

  function DigitValue(c: char): (d: nat)
    requires IsAsciiDigit(c)
    ensures d < 10 && DigitChar(d) == c
  {
    c as int - '0' as int
  }

  predicate AllDigits(s: string) {
    forall i :: 0 <= i < |s| ==> IsAsciiDigit(s[i])
  }

  /** The shortest decimal rendering of a natural number: no sign, no leading zero. */
  function NatToDecimal(n: nat): (r: string)
    ensures |r| >= 1 && AllDigits(r)
    ensures r[0] == '0' ==> n == 0 && r == "0"
  {
    if n < 10 then [DigitChar(n)] else NatToDecimal(n / 10) + [DigitChar(n % 10)]
  }

  /** The value of a string of decimal digits, most significant first. */
  function DigitsValue(s: string): nat
    requires AllDigits(s)
  {
    if |s| == 0 then 0 else 10 * DigitsValue(s[..|s| - 1]) + DigitValue(s[|s| - 1])
  }

  lemma {:induction false} DigitsValueOfDecimal(n: nat)
    ensures DigitsValue(NatToDecimal(n)) == n
  {
    if n >= 10 {
      var r := NatToDecimal(n);
      assert r[..|r| - 1] == NatToDecimal(n / 10);
      DigitsValueOfDecimal(n / 10);
    }
  }

  /** `${i}` for an integer value. */
  function IntToDecimal(i: int): (r: string)
    ensures |r| >= 1
    ensures i >= 0 ==> AllDigits(r)
    ensures i < 0 ==> r[0] == '-' && AllDigits(r[1..])
  {
    if i < 0 then "-" + NatToDecimal(-i) else NatToDecimal(i)
  }

  /** The longest prefix of `s` made of decimal digits. */
  function DigitPrefix(s: string): (r: string)
    ensures |r| <= |s| && r == s[..|r|] && AllDigits(r)
    ensures |r| < |s| ==> !IsAsciiDigit(s[|r|])
  {
    if |s| > 0 && IsAsciiDigit(s[0]) then [s[0]] + DigitPrefix(s[1..]) else ""
  }

  lemma {:induction false} DigitPrefixOfDigits(s: string, rest: string)
    requires AllDigits(s)
    requires |rest| == 0 || !IsAsciiDigit(rest[0])
    ensures DigitPrefix(s + rest) == s
    decreases |s|
  {
    if |s| > 0 {
      assert (s + rest)[1..] == s[1..] + rest;
      DigitPrefixOfDigits(s[1..], rest);
    } else {
      assert s + rest == rest;
    }
  }

  /** `t` without one leading sign character. */
  function Unsigned(t: string): string {
    if |t| > 0 && (t[0] == '-' || t[0] == '+') then t[1..] else t
  }

  /** `parseInt(s, 10)`: skip leading whitespace, read an optional sign and the longest run of
      decimal digits; None stands for NaN (no digit at all). A `0x` prefix is not special here. */
  function ParseInt(s: string): Option<int> {
    var t := TrimStart(s);
    var digits := DigitPrefix(Unsigned(t));
    if |digits| == 0 then None
    else if |t| > 0 && t[0] == '-' then Some(0 - DigitsValue(digits))
    else Some(DigitsValue(digits))
  }

  lemma TrimStartNoop(s: string)
    requires |s| > 0 && !IsJsWhitespace(s[0])
    ensures TrimStart(s) == s
  {
  }

  lemma {:induction false} ParseNonNegative(d: string, rest: string)
    requires |d| >= 1 && AllDigits(d)
    requires |rest| == 0 || !IsAsciiDigit(rest[0])
    ensures ParseInt(d + rest) == Some(DigitsValue(d))
  {
    var s := d + rest;
    assert s[0] == d[0];
    TrimStartNoop(s);
    assert Unsigned(s) == s;
    DigitPrefixOfDigits(d, rest);
  }

  /** Reading back a rendered natural number, possibly followed by a non-digit, gives the number. */
  lemma ParseNatDecimal(n: nat, rest: string)
    requires |rest| == 0 || !IsAsciiDigit(rest[0])
    ensures ParseInt(NatToDecimal(n) + rest) == Some(n)
  {
    DigitsValueOfDecimal(n);
    ParseNonNegative(NatToDecimal(n), rest);
  }

  predicate IsHexDigit(c: char) {
    IsAsciiDigit(c) || 'a' <= c <= 'f' || 'A' <= c <= 'F'
  }

  predicate AllHexDigits(s: string) {
    forall i :: 0 <= i < |s| ==> IsHexDigit(s[i])
  }

  function HexDigitValue(c: char): (d: nat)
    requires IsHexDigit(c)
    ensures d < 16
    ensures IsAsciiDigit(c) ==> d == DigitValue(c)
  {
    if IsAsciiDigit(c) then DigitValue(c)
    else if 'a' <= c <= 'f' then c as int - 'a' as int + 10
    else c as int - 'A' as int + 10
  }

  /** The longest prefix of `s` made of hexadecimal digits, either case. */
  function HexPrefix(s: string): (r: string)
    ensures |r| <= |s| && r == s[..|r|] && AllHexDigits(r)
    ensures |r| < |s| ==> !IsHexDigit(s[|r|])
  {
    if |s| > 0 && IsHexDigit(s[0]) then [s[0]] + HexPrefix(s[1..]) else ""
  }

  /** The value of a string of hexadecimal digits, most significant first. */
  function HexDigitsValue(s: string): nat
    requires AllHexDigits(s)
  {
    if |s| == 0 then 0 else 16 * HexDigitsValue(s[..|s| - 1]) + HexDigitValue(s[|s| - 1])
  }

  /** The text after the sign starts with `0x` or `0X`. */
  predicate HexMarked(u: string) {
    |u| >= 2 && u[0] == '0' && (u[1] == 'x' || u[1] == 'X')
  }

  /** `parseInt(s)` with no radix: skip leading whitespace and an optional sign; a `0x` or `0X`
      prefix then selects hexadecimal digits (with none after it the result is NaN), anything
      else is read as `parseInt(s, 10)` reads it. */
  function ParseIntAuto(s: string): Option<int> {
    var t := TrimStart(s);
    var u := Unsigned(t);
    if !HexMarked(u) then ParseInt(s)
    else
      var digits := HexPrefix(u[2..]);
      if |digits| == 0 then None
      else if |t| > 0 && t[0] == '-' then Some(0 - HexDigitsValue(digits))
      else Some(HexDigitsValue(digits))
  }

  /** A rendered natural number never carries the hexadecimal mark, so both readings agree. */
  lemma ParseAutoNatDecimal(n: nat)
    ensures ParseIntAuto(NatToDecimal(n)) == Some(n)
  {
    var r := NatToDecimal(n);
    TrimStartNoop(r);
    assert Unsigned(r) == r;
    ParseNatDecimal(n, "");
    assert r + "" == r;
  }

  /** `parseInt("-1")` is -1. */
  lemma NegativeOneReads()
    ensures ParseIntAuto("-1") == Some(-1)
  {
    TrimStartNoop("-1");
    assert Unsigned("-1") == "1";
    assert DigitPrefix("1") == "1";
  }

  /** `parseInt("0x2")` is 2 where `parseInt("0x2", 10)` stops at the `x` and gives 0, and a
      bare `0x` is NaN. */
  lemma HexPrefixReadings()
    ensures ParseIntAuto("0x2") == Some(2)
    ensures ParseInt("0x2") == Some(0)
    ensures ParseIntAuto("0x") == None
    ensures ParseIntAuto("-0X1f") == Some(-31)
  {
    TrimStartNoop("0x2");
    assert "0x2"[2..] == "2";
    assert HexPrefix("2") == "2";
    assert "2"[..0] == "";
    assert DigitPrefix("0x2") == "0";
    TrimStartNoop("0x");
    TrimStartNoop("-0X1f");
    assert Unsigned("-0X1f") == "0X1f";
    assert "0X1f"[2..] == "1f";
    assert HexPrefix("1f") == "1f" by {
      assert "1f"[1..] == "f";
      assert HexPrefix("f") == "f";
    }
    assert "1f"[..1] == "1";
    assert "1"[..0] == "";
  }
}
