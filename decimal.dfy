/** Decimal text of a natural number, as Rust's `{}` formatting writes an unsigned integer. */
module Decimal {

  predicate IsDigit(c: char) {
    '0' <= c <= '9'
  }

  predicate AllDigits(s: string) {
    forall i :: 0 <= i < |s| ==> IsDigit(s[i])
  }

  function DigitValue(c: char): (d: nat)
    requires IsDigit(c)
    ensures d < 10
  {
    (c as int) - ('0' as int)
  }

  function DigitChar(d: nat): (c: char)
    requires d < 10
    ensures IsDigit(c) && DigitValue(c) == d
  {
    (('0' as int) + d) as char
  }

  /** The shortest decimal numeral for `n`: digits only, never a leading zero except for "0" itself. */
  function NatToDecimal(n: nat): (s: string)
    ensures |s| >= 1 && AllDigits(s)
    ensures s[0] == '0' ==> n == 0 && s == "0"
    decreases n
  {
    if n < 10 then [DigitChar(n)] else NatToDecimal(n / 10) + [DigitChar(n % 10)]
  }

  /** The value of a string of decimal digits (most significant first). */
  function DecimalToNat(s: string): nat
    requires AllDigits(s)
  {
    if s == [] then 0 else DecimalToNat(s[..|s| - 1]) * 10 + DigitValue(s[|s| - 1])
  }

  /** Reading back the numeral gives the number it was written from. */
  lemma {:induction false} DecimalRoundTrip(n: nat)
    ensures DecimalToNat(NatToDecimal(n)) == n
    decreases n
  {
    var s := NatToDecimal(n);
    if n < 10 {
      assert s[..|s| - 1] == [];
    } else {
      DecimalRoundTrip(n / 10);
      assert s[..|s| - 1] == NatToDecimal(n / 10);
    }
  }

  /** A numeral without leading zeros (or "0" itself), as `NatToDecimal` writes them. */
  predicate IsCanonical(d: string) {
    |d| >= 1 && AllDigits(d) && (d[0] == '0' ==> d == "0")
  }

  /** Every numeral without leading zeros is the one written for its value. */
  lemma {:induction false} CanonicalRoundTrip(d: string)
    requires IsCanonical(d)
    ensures NatToDecimal(DecimalToNat(d)) == d
    decreases |d|
  {
    var last := d[|d| - 1];
    var v := DigitValue(last);
    assert DigitChar(v) == last;
    if |d| == 1 {
      assert d[..0] == [];
      assert d == [last];
    } else {
      var p := d[..|d| - 1];
      assert p[0] == d[0] != '0';
      CanonicalRoundTrip(p);
      var m := DecimalToNat(p);
      var n := DecimalToNat(d);
      assert n == m * 10 + v;
      assert n / 10 == m && n % 10 == v;
      assert NatToDecimal(n) == p + [last];
      assert d == p + [last];
    }
  }

  /** Different numbers never share a numeral. */
  lemma NatToDecimalInjective(m: nat, n: nat)
    requires NatToDecimal(m) == NatToDecimal(n)
    ensures m == n
  {
    DecimalRoundTrip(m);
    DecimalRoundTrip(n);
  }

  /** A number below `10^k` is written with at most `k` digits (one, for `k == 0`). */
  lemma {:induction false} DecimalWidth(n: nat, k: nat)
    requires n < Pow10(k)
    ensures |NatToDecimal(n)| <= if k == 0 then 1 else k
    decreases k
  {
    if n >= 10 {
      DecimalWidth(n / 10, k - 1);
    }
  }

  function Pow10(k: nat): (p: nat)
    ensures p >= 1
  {
    if k == 0 then 1 else 10 * Pow10(k - 1)
  }
}
