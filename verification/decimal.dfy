/** Decimal rendering of integers, as Rust's `{}` prints an `int`, and its
    inverse. */
module Decimal {

  function DigitChar(d: nat): char
    requires d < 10
  {
    "0123456789"[d]
  }

  predicate IsDigit(c: char)
  {
    '0' <= c <= '9'
  }

  function DigitValue(c: char): nat
    requires IsDigit(c)
  {
    (c - '0') as nat
  }

  /** The digits of `n`, most significant first, with no leading zero. */
  function NatToString(n: nat): (s: string)
    ensures |s| > 0 && forall i :: 0 <= i < |s| ==> IsDigit(s[i])
    ensures |s| > 1 ==> s[0] != '0'
    decreases n
  {
    if n < 10 then [DigitChar(n)] else NatToString(n / 10) + [DigitChar(n % 10)]
  }

  /** `n` printed with `{}`: a minus sign before the digits when negative. */
  function IntToString(n: int): (s: string)
    ensures |s| > 0
    ensures forall i :: 0 <= i < |s| ==> IsDigit(s[i]) || (i == 0 && s[i] == '-')
  {
    if n < 0 then "-" + NatToString(-n) else NatToString(n)
  }

  function ParseNat(s: string): nat
    requires forall i :: 0 <= i < |s| ==> IsDigit(s[i])
    decreases |s|
  {
    if s == [] then 0 else ParseNat(s[..|s| - 1]) * 10 + DigitValue(s[|s| - 1])
  }

  function ParseInt(s: string): int
    requires |s| > 0
    requires forall i :: 0 <= i < |s| ==> IsDigit(s[i]) || (i == 0 && s[i] == '-')
  {
    if s[0] == '-' then 0 - ParseNat(s[1..]) else ParseNat(s)
  }

  lemma {:induction false} ParseNatToString(n: nat)
    ensures ParseNat(NatToString(n)) == n
    decreases n
  {
    var s := NatToString(n);
    if n >= 10 {
      ParseNatToString(n / 10);
      assert s[..|s| - 1] == NatToString(n / 10);
    }
  }

  /** Printing then parsing gives the number back. */
  lemma ParseIntToString(n: int)
    ensures ParseInt(IntToString(n)) == n
  {
    if n < 0 {
      ParseNatToString(-n);
      assert IntToString(n)[1..] == NatToString(-n);
    } else {
      ParseNatToString(n);
    }
  }

  /** A printed number followed by a text starting with anything but a
      digit can be read back unambiguously: two such strings that are
      equal print the same number. */
  lemma NumberBeforeSeparator(m: int, n: int, u: string, v: string)
    requires |u| > 0 && !IsDigit(u[0]) && |v| > 0 && !IsDigit(v[0])
    requires IntToString(m) + u == IntToString(n) + v
    ensures m == n
  {
    var x, y := IntToString(m), IntToString(n);
    var s := x + u;
    if |x| < |y| {
      SeparatorAt(x, u, y, v);
    } else if |y| < |x| {
      SeparatorAt(y, v, x, u);
    }
    assert x == s[..|x|] == y;
    ParseIntToString(m);
    ParseIntToString(n);
  }

  /** The character right after a shorter prefix is the separator on one
      side and a character of the longer prefix on the other. */
  lemma SeparatorAt(x: string, u: string, y: string, v: string)
    ensures |u| > 0 && |x| < |y| ==> (x + u)[|x|] == u[0] && (y + v)[|x|] == y[|x|]
  {
  }
}
