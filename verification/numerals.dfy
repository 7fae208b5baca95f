/**
 * Positional numerals in base 10 and base 16, the two notations the rotator
 * relies on: `Number.prototype.toString(16)` for the time part of a key id and
 * the decimal text of the `MAX_KEYS` environment variable.  Digits above nine
 * are lower-case letters, as JavaScript prints them.
 */
module Numerals {

  /** A radix JavaScript can print with the digits `0-9a-f`. */
  type Base = b: int | 2 <= b <= 16 witness 10

  /** The character for a digit value below sixteen. */
  function DigitChar(d: int): (c: char)
    requires 0 <= d < 16
    ensures d < 10 ==> '0' <= c <= '9' && c as int - '0' as int == d
    ensures 10 <= d ==> 'a' <= c <= 'f' && c as int - 'a' as int + 10 == d
  {
    if d < 10 then ('0' as int + d) as char else ('a' as int + d - 10) as char
  }

  /** `c` is one of the `base` lower-case digit characters. */
  predicate IsDigit(c: char, base: Base) {
    || ('0' <= c <= '9' && c as int - '0' as int < base)
    || ('a' <= c <= 'f' && c as int - 'a' as int + 10 < base)
  }

  /** The value of a digit character; inverse of `DigitChar`. */
  function DigitValue(c: char, base: Base): (d: int)
    requires IsDigit(c, base)
    ensures 0 <= d < base
    ensures DigitChar(d) == c
  {
    if '0' <= c <= '9' then c as int - '0' as int else c as int - 'a' as int + 10
  }

  lemma DigitCharIsDigit(d: int, base: Base)
    requires 0 <= d < base
    ensures IsDigit(DigitChar(d), base)
    ensures DigitValue(DigitChar(d), base) == d
  {
  }

  /** Every character of `s` is a digit in `base`. */
  predicate IsNumeral(s: string, base: Base) {
    forall i | 0 <= i < |s| :: IsDigit(s[i], base)
  }

  /** A non-empty numeral without leading zeros: the only way a number is printed. */
  predicate IsCanonical(s: string, base: Base) {
    && |s| >= 1
    && IsNumeral(s, base)
    && (s[0] == '0' ==> |s| == 1)
  }

  function Pow(base: Base, k: nat): (p: nat)
    ensures p >= 1
  {
    if k == 0 then 1 else base * Pow(base, k - 1)
  }

  /** The unpadded numeral of `n`, most significant digit first. */
  function ToNumeral(n: nat, base: Base): (r: string)
    decreases n
    ensures IsCanonical(r, base)
    ensures r == "0" <==> n == 0
  {
    if n < base then
      DigitCharIsDigit(n, base);
      [DigitChar(n)]
    else
      QuotientFacts(n, base);
      DigitCharIsDigit(n % base, base);
      ToNumeral(n / base, base) + [DigitChar(n % base)]
  }

  /** The value a numeral denotes; the empty numeral denotes zero. */
  function FromNumeral(s: string, base: Base): (n: nat)
    requires IsNumeral(s, base)
  {
    if |s| == 0 then 0
    else FromNumeral(s[..|s| - 1], base) * base + DigitValue(s[|s| - 1], base)
  }

  /** Splitting off the last digit of a number of two or more digits. */
  lemma QuotientFacts(n: nat, base: Base)
    requires n >= base
    ensures 1 <= n / base < n
    ensures n == (n / base) * base + n % base
    ensures 0 <= n % base < base
  {
  }

  /** Appending digit `d` to the numeral of `m` and splitting it off again. */
  lemma DivModOfDigitAppend(m: nat, d: int, base: Base)
    requires 0 <= d < base
    ensures (m * base + d) / base == m
    ensures (m * base + d) % base == d
  {
  }

  lemma PowSucc(base: Base, k: nat)
    ensures Pow(base, k + 1) == Pow(base, k) * base
  {
  }

  lemma Distribute(q: int, base: Base)
    ensures (q + 1) * base == q * base + base
  {
  }

  lemma MulMonotonic(m: int, k: int, base: Base)
    requires m <= k
    ensures m * base <= k * base
  {
  }

  /** Reading back a printed number gives the number. */
  lemma {:induction false} FromToNumeral(n: nat, base: Base)
    ensures FromNumeral(ToNumeral(n, base), base) == n
    decreases n
  {
    var s := ToNumeral(n, base);
    if n < base {
      assert s[..|s| - 1] == [];
    } else {
      QuotientFacts(n, base);
      FromToNumeral(n / base, base);
      assert s[..|s| - 1] == ToNumeral(n / base, base);
      DigitCharIsDigit(n % base, base);
    }
  }

  /** Different numbers print differently. */
  lemma ToNumeralInjective(a: nat, b: nat, base: Base)
    ensures ToNumeral(a, base) == ToNumeral(b, base) ==> a == b
  {
    FromToNumeral(a, base);
    FromToNumeral(b, base);
  }

  /** A numeral with a non-zero leading digit denotes a non-zero number. */
  lemma {:induction false} NonZeroLeadingDigit(s: string, base: Base)
    requires IsNumeral(s, base)
    requires |s| >= 1 && s[0] != '0'
    ensures FromNumeral(s, base) >= 1
    decreases |s|
  {
    var p := s[..|s| - 1];
    if |s| == 1 {
      assert FromNumeral(s, base) == DigitValue(s[0], base);
    } else {
      assert p[0] == s[0];
      NonZeroLeadingDigit(p, base);
      MulMonotonic(1, FromNumeral(p, base), base);
    }
  }

  lemma NumeralConcat(a: string, b: string, base: Base)
    requires IsNumeral(a, base) && IsNumeral(b, base)
    ensures IsNumeral(a + b, base)
  {
    assert forall i | 0 <= i < |a + b| :: (a + b)[i] == if i < |a| then a[i] else b[i - |a|];
  }

  /** The value of a concatenation: the left part shifted by the width of the right. */
  lemma {:induction false} FromNumeralConcat(a: string, b: string, base: Base)
    requires IsNumeral(a, base) && IsNumeral(b, base)
    ensures IsNumeral(a + b, base)
    ensures FromNumeral(a + b, base) == FromNumeral(a, base) * Pow(base, |b|) + FromNumeral(b, base)
    decreases |b|
  {
    NumeralConcat(a, b, base);
    if |b| == 0 {
      assert a + b == a;
    } else {
      var b' := b[..|b| - 1];
      var d := DigitValue(b[|b| - 1], base);
      assert (a + b)[..|a + b| - 1] == a + b';
      FromNumeralConcat(a, b', base);
      var x, y, p := FromNumeral(a, base), FromNumeral(b', base), Pow(base, |b'|);
      PowSucc(base, |b'|);
      assert FromNumeral(a + b, base) == (x * p + y) * base + d;
      assert FromNumeral(b, base) == y * base + d;
      Associate(x, p, y, base);
    }
  }

  lemma Associate(x: int, p: int, y: int, base: Base)
    ensures (x * p + y) * base == x * (p * base) + y * base
  {
  }

  /** Printing the value of a canonical numeral gives the numeral back. */
  lemma {:induction false} ToFromNumeral(s: string, base: Base)
    requires IsCanonical(s, base)
    ensures ToNumeral(FromNumeral(s, base), base) == s
    decreases |s|
  {
    var last := s[|s| - 1];
    var d := DigitValue(last, base);
    var p := s[..|s| - 1];
    if |s| == 1 {
      assert FromNumeral(s, base) == d;
    } else {
      assert p[0] == s[0];
      var m := FromNumeral(p, base);
      NonZeroLeadingDigit(p, base);
      MulMonotonic(1, m, base);
      var n := m * base + d;
      assert FromNumeral(s, base) == n;
      DivModOfDigitAppend(m, d, base);
      ToFromNumeral(p, base);
      assert s == p + [last];
    }
  }

  /**
   * The length of the printed numeral is the number of digits of `n`:
   * `n` lies below `base^len`, and at or above `base^(len-1)` unless it is zero.
   */
  lemma {:induction false} NumeralLength(n: nat, base: Base)
    ensures n < Pow(base, |ToNumeral(n, base)|)
    ensures n != 0 ==> Pow(base, |ToNumeral(n, base)| - 1) <= n
    decreases n
  {
    if n < base {
      assert Pow(base, 1) == base;
    } else {
      QuotientFacts(n, base);
      var q, r := n / base, n % base;
      var k := |ToNumeral(q, base)|;
      NumeralLength(q, base);
      assert |ToNumeral(n, base)| == k + 1;
      PowSucc(base, k);
      PowSucc(base, k - 1);
      // n < (q + 1) * base <= base^k * base
      MulMonotonic(q + 1, Pow(base, k), base);
      Distribute(q, base);
      // base^(k-1) * base <= q * base <= n
      MulMonotonic(Pow(base, k - 1), q, base);
    }
  }
}
