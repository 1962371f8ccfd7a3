/**
 * Decimal rendering of natural numbers, the way Python's f-strings render an
 * `int` (used for channel group names and for exception messages that quote
 * an id).
 */
module Text {

  function DigitChar(d: nat): (c: char)
    requires d < 10
    ensures '0' <= c <= '9'
  {
    "0123456789"[d]
  }

  /** The decimal text of `n`, most significant digit first, no leading zeros. */
  function NatToString(n: nat): (s: string)
    ensures 1 <= |s|
    ensures forall i :: 0 <= i < |s| ==> '0' <= s[i] <= '9'
    ensures (|s| == 1) == (n < 10)
    decreases n
  {
    if n < 10 then [DigitChar(n)] else NatToString(n / 10) + [DigitChar(n % 10)]
  }

  lemma DigitCharInjective(a: nat, b: nat)
    requires a < 10 && b < 10
    requires DigitChar(a) == DigitChar(b)
    ensures a == b
  {
  }

  /** Two different numbers never render to the same text. */
  lemma {:induction false} NatToStringInjective(m: nat, n: nat)
    requires NatToString(m) == NatToString(n)
    ensures m == n
    decreases m
  {
    var s := NatToString(m);
    if m < 10 {
      assert n < 10;
      DigitCharInjective(m, n);
    } else {
      assert n >= 10;
      var sm := NatToString(m / 10) + [DigitChar(m % 10)];
      var sn := NatToString(n / 10) + [DigitChar(n % 10)];
      assert sm == sn;
      assert sm[..|sm| - 1] == NatToString(m / 10);
      assert sn[..|sn| - 1] == NatToString(n / 10);
      DigitCharInjective(m % 10, n % 10);
      NatToStringInjective(m / 10, n / 10);
    }
  }

  /** A fixed prefix followed by a number's text determines the number. */
  lemma PrefixedNatInjective(prefix: string, m: nat, n: nat)
    requires prefix + NatToString(m) == prefix + NatToString(n)
    ensures m == n
  {
    var a, b := prefix + NatToString(m), prefix + NatToString(n);
    assert a[|prefix|..] == NatToString(m);
    assert b[|prefix|..] == NatToString(n);
    NatToStringInjective(m, n);
  }
}
