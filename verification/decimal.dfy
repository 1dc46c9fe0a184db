/** Python's `str(int)`: the decimal rendering of an integer, with its inverse. */
module Decimal {

  predicate IsDigit(c: char) {
    '0' <= c <= '9'
  }

  function DigitChar(d: nat): (c: char)
    requires d < 10
    ensures IsDigit(c)
  {
    "0123456789"[d]
  }

  function DigitValue(c: char): (d: nat)
    requires IsDigit(c)
    ensures d < 10
  {
    (c as int - '0' as int) as nat
  }

  lemma DigitRoundTrip(d: nat)
    requires d < 10
    ensures DigitValue(DigitChar(d)) == d
  {
  }

  /** Decimal digits of a non-negative integer, most significant first, no leading zeros. */
  function NatToString(n: nat): (s: string)
    ensures |s| > 0
    ensures forall j :: 0 <= j < |s| ==> IsDigit(s[j])
    decreases n
  {
    if n < 10 then [DigitChar(n)] else NatToString(n / 10) + [DigitChar(n % 10)]
  }

  /** `str` writes a leading zero only for zero itself, and then writes just "0". */
  lemma {:induction false} NatToStringLeading(n: nat)
    ensures NatToString(n)[0] == '0' <==> n == 0
    ensures n == 0 ==> NatToString(n) == "0"
    decreases n
  {
    if n >= 10 {
      NatToStringLeading(n / 10);
      assert NatToString(n)[0] == NatToString(n / 10)[0];
    }
  }

  /** `str(i)` for any Python int: a minus sign before the digits of a negative number. */
  function IntToString(i: int): (s: string)
    ensures IsCanonicalIntText(s)
    ensures i < 0 <==> s[0] == '-'
  {
    NatToStringLeading(if i < 0 then -i else i);
    var s := if i < 0 then "-" + NatToString(-i) else NatToString(i);
    assert DigitsOf(s) == NatToString(if i < 0 then -i else i);
    s
  }

  /** The digits of an integer text, after the sign if there is one. */
  function DigitsOf(s: string): string
    requires |s| > 0
  {
    if s[0] == '-' then s[1..] else s
  }

  /** The only spelling `str` gives an integer: digits without a leading zero (bar "0"), and no "-0". */
  predicate IsCanonicalIntText(s: string) {
    && IsIntText(s)
    && |DigitsOf(s)| > 0
    && (DigitsOf(s)[0] == '0' ==> DigitsOf(s) == "0")
    && (s[0] == '-' ==> DigitsOf(s) != "0")
  }

  /** Reads a string of decimal digits back as a number. */
  function ParseNat(s: string): nat
    requires forall j :: 0 <= j < |s| ==> IsDigit(s[j])
    decreases |s|
  {
    if |s| == 0 then 0 else ParseNat(s[..|s| - 1]) * 10 + DigitValue(s[|s| - 1])
  }

  /** Text that `str` can produce for an integer: an optional minus sign, then digits. */
  predicate IsIntText(s: string) {
    && |s| > 0
    && (s[0] == '-' ==> forall j :: 1 <= j < |s| ==> IsDigit(s[j]))
    && (s[0] != '-' ==> forall j :: 0 <= j < |s| ==> IsDigit(s[j]))
  }

  function ParseInt(s: string): int
    requires IsIntText(s)
  {
    if s[0] == '-' then -(ParseNat(s[1..]) as int) else ParseNat(s)
  }

  lemma {:induction false} NatRoundTrip(n: nat)
    ensures ParseNat(NatToString(n)) == n
    decreases n
  {
    var s := NatToString(n);
    if n < 10 {
      assert s[..|s| - 1] == [];
      DigitRoundTrip(n);
    } else {
      NatRoundTrip(n / 10);
      assert s[..|s| - 1] == NatToString(n / 10);
      DigitRoundTrip(n % 10);
    }
  }

  lemma ParseNegative(t: string)
    requires |t| > 0 && forall j :: 0 <= j < |t| ==> IsDigit(t[j])
    ensures IsIntText("-" + t) && ParseInt("-" + t) == -(ParseNat(t) as int)
  {
    assert ("-" + t)[1..] == t;
  }

  lemma NegativeRoundTrip(n: nat)
    ensures ParseInt("-" + NatToString(n)) == -(n as int)
  {
    NatRoundTrip(n);
    ParseNegative(NatToString(n));
  }

  lemma NonNegativeRoundTrip(n: nat)
    ensures ParseInt(NatToString(n)) == n
  {
    NatRoundTrip(n);
    assert IsDigit(NatToString(n)[0]);
  }

  /** `str` is injective on integers: the rendering can always be read back. */
  lemma IntRoundTrip(i: int)
    ensures ParseInt(IntToString(i)) == i
  {
    if i < 0 {
      NegativeRoundTrip(-i);
      assert IntToString(i) == "-" + NatToString(-i);
    } else {
      NonNegativeRoundTrip(i);
      assert IntToString(i) == NatToString(i);
    }
  }

  lemma CharRoundTrip(c: char)
    requires IsDigit(c)
    ensures DigitChar(DigitValue(c)) == c
  {
  }

  /** Canonical digits are exactly what `str` prints for the number they denote. */
  lemma {:induction false} CanonicalNatText(d: string)
    requires |d| > 0 && forall j :: 0 <= j < |d| ==> IsDigit(d[j])
    requires d[0] == '0' ==> d == "0"
    ensures NatToString(ParseNat(d)) == d
    decreases |d|
  {
    var m := |d| - 1;
    var v := DigitValue(d[m]);
    CharRoundTrip(d[m]);
    if m == 0 {
      assert d[..0] == [];
      assert ParseNat(d) == v;
    } else {
      var pre := d[..m];
      assert pre[0] == d[0];
      CanonicalNatText(pre);
      NatToStringLeading(ParseNat(pre));
      var a := ParseNat(pre);
      assert a != 0;
      var n := a * 10 + v;
      assert ParseNat(d) == n;
      assert n / 10 == a && n % 10 == v;
      assert d == pre + [d[m]];
    }
  }

  /**
    `str(int(s)) == s` for every canonical integer text: with `IntRoundTrip`,
    canonical texts and integers are in one-to-one correspondence.
   */
  lemma CanonicalRoundTrip(s: string)
    requires IsCanonicalIntText(s)
    ensures IntToString(ParseInt(s)) == s
  {
    var d := DigitsOf(s);
    CanonicalNatText(d);
    NatToStringLeading(ParseNat(d));
    if s[0] == '-' {
      assert ParseNat(d) != 0;
      assert s == "-" + d;
    }
  }

  lemma IntToStringInjective(i: int, j: int)
    requires IntToString(i) == IntToString(j)
    ensures i == j
  {
    IntRoundTrip(i);
    IntRoundTrip(j);
  }
}
