/** Decimal strings of natural numbers, as JavaScript produces them with
    `n + ''` for a non-negative integer, and fixed-width digit suffixes,
    as `slice(-k)` takes them from such a string. */
module Digits {

  /** 10 to the power k. */
  function Pow10(k: nat): (p: nat)
    ensures p >= 1
  {
    if k == 0 then 1 else 10 * Pow10(k - 1)
  }

  predicate IsDigit(c: char) {
    '0' <= c <= '9'
  }

  predicate IsDigits(s: string) {
    forall i :: 0 <= i < |s| ==> IsDigit(s[i])
  }

  function DigitValue(c: char): (d: nat)
    requires IsDigit(c)
    ensures d < 10
  {
    c as int - '0' as int
  }

  function DigitChar(d: nat): (c: char)
    requires d < 10
    ensures IsDigit(c) && DigitValue(c) == d
  {
    ('0' as int + d) as char
  }

  /** The number a string of decimal digits denotes (most significant first). */
  function Value(s: string): nat
    requires IsDigits(s)
  {
    if s == [] then 0 else 10 * Value(s[..|s| - 1]) + DigitValue(s[|s| - 1])
  }

  /** The decimal representation of n, without leading zeros. */
  function NatToString(n: nat): (s: string)
    ensures |s| >= 1 && IsDigits(s)
  {
    if n < 10 then [DigitChar(n)] else NatToString(n / 10) + [DigitChar(n % 10)]
  }

  /** The last k decimal digits of n, padded with leading zeros to width k. */
  function PadDigits(n: nat, k: nat): (s: string)
    ensures |s| == k && IsDigits(s)
  {
    if k == 0 then [] else PadDigits(n / 10, k - 1) + [DigitChar(n % 10)]
  }

  /** For k >= 1, `s.slice(-k)`: the last min(k, |s|) characters of s.
      (JavaScript's `slice(-0)` is the whole string; here k = 0 gives the
      empty suffix, and the only use is k = 10.) */
  function Suffix(s: string, k: nat): (r: string)
    ensures |r| == if |s| <= k then |s| else k
    ensures s == s[..|s| - |r|] + r
  {
    if |s| <= k then s else s[|s| - k..]
  }

  /** Reading back the decimal representation gives the number. */
  lemma {:induction false} ValueOfNatToString(n: nat)
    ensures Value(NatToString(n)) == n
  {
    if n >= 10 {
      var s := NatToString(n);
      assert s[..|s| - 1] == NatToString(n / 10);
      ValueOfNatToString(n / 10);
    }
  }

  /** The decimal representation has no leading zero, except for 0 itself. */
  lemma {:induction false} NatToStringNoLeadingZero(n: nat)
    ensures NatToString(n)[0] == '0' <==> n == 0
  {
    if n >= 10 {
      NatToStringNoLeadingZero(n / 10);
    }
  }

  /** The length of the decimal representation: n has |s| digits exactly
      when 10^(|s|-1) <= n < 10^|s| (or n == 0 and |s| == 1). */
  lemma {:induction false} NatToStringLength(n: nat)
    ensures n < Pow10(|NatToString(n)|)
    ensures |NatToString(n)| > 1 ==> Pow10(|NatToString(n)| - 1) <= n
  {
    if n >= 10 {
      NatToStringLength(n / 10);
    }
  }

  /** A number has at least k digits exactly when it is at least 10^(k-1). */
  lemma AtLeastDigits(n: nat, k: nat)
    requires k >= 2
    ensures |NatToString(n)| >= k <==> n >= Pow10(k - 1)
  {
    var len := |NatToString(n)|;
    NatToStringLength(n);
    if len >= k {
      if k > 1 { Pow10Monotone(k - 1, len - 1); }
    } else {
      Pow10Monotone(len, k - 1);
    }
  }

  lemma {:induction false} Pow10Monotone(i: nat, j: nat)
    requires i <= j
    ensures Pow10(i) <= Pow10(j)
  {
    if i < j {
      Pow10Monotone(i, j - 1);
    }
  }

  /** Division and remainder are determined by any decomposition with a
      remainder in range. */
  lemma DivModUnique(n: int, d: int, q: int, r: int)
    requires d > 0 && 0 <= r < d && n == d * q + r
    ensures n / d == q && n % d == r
  {
    var x := n / d - q;
    assert d * (n / d) == d * q + d * x;
    MulSmall(d, x);
  }

  /** The only multiple of d strictly between -d and d is 0. */
  lemma MulSmall(d: int, x: int)
    requires d > 0 && -d < d * x < d
    ensures x == 0
  {
    if x > 0 {
      assert d * x == d * (x - 1) + d;
      MulNonNegative(d, x - 1);
    } else if x < 0 {
      assert d * x == -(d * (-x - 1)) - d;
      MulNonNegative(d, -x - 1);
    }
  }

  lemma MulNonNegative(a: int, b: int)
    requires a >= 0 && b >= 0
    ensures a * b >= 0
  {
  }

  /** The padded suffix denotes n modulo 10^k. */
  lemma {:induction false} ValueOfPadDigits(n: nat, k: nat)
    ensures Value(PadDigits(n, k)) == n % Pow10(k)
  {
    if k > 0 {
      var s := PadDigits(n, k);
      assert s[..k - 1] == PadDigits(n / 10, k - 1);
      ValueOfPadDigits(n / 10, k - 1);
      assert Value(s) == 10 * ((n / 10) % Pow10(k - 1)) + n % 10;
      ModOfShift(n, Pow10(k - 1));
    }
  }

  /** n modulo 10p, read off n / 10 modulo p and the last digit of n. */
  lemma ModOfShift(n: nat, p: nat)
    requires p >= 1
    ensures n % (10 * p) == 10 * ((n / 10) % p) + n % 10
  {
    var q, r := (n / 10) / p, (n / 10) % p;
    assert n / 10 == p * q + r;
    assert n == (10 * p) * q + (10 * r + n % 10);
    DivModUnique(n, 10 * p, q, 10 * r + n % 10);
  }

  /** A digit string of width k is the padded suffix of the number it denotes. */
  lemma {:induction false} PadDigitsOfValue(s: string)
    requires IsDigits(s)
    ensures PadDigits(Value(s), |s|) == s
  {
    if s != [] {
      var init := s[..|s| - 1];
      var v, d := Value(init), DigitValue(s[|s| - 1]);
      DivModUnique(Value(s), 10, v, d);
      PadDigitsOfValue(init);
      assert s == init + [s[|s| - 1]];
    }
  }

  /** Two padded suffixes of the same width agree exactly when the numbers
      agree modulo 10^k. */
  lemma PadDigitsEqual(a: nat, b: nat, k: nat)
    ensures PadDigits(a, k) == PadDigits(b, k) <==> a % Pow10(k) == b % Pow10(k)
  {
    ValueOfPadDigits(a, k);
    ValueOfPadDigits(b, k);
    if a % Pow10(k) == b % Pow10(k) {
      PadDigitsOfValue(PadDigits(a, k));
      PadDigitsOfValue(PadDigits(b, k));
    }
  }

  /** The last k characters of the decimal representation are the padded
      suffix of width k. */
  lemma {:induction false} SuffixOfNatToString(n: nat, k: nat)
    requires k <= |NatToString(n)|
    ensures Suffix(NatToString(n), k) == PadDigits(n, k)
  {
    var s := NatToString(n);
    if k == 0 {
      assert Suffix(s, k) == [] == PadDigits(n, k);
    } else if n < 10 {
      assert s == [DigitChar(n)] && k == 1;
      assert Suffix(s, k) == s;
      assert PadDigits(n, k) == PadDigits(n / 10, 0) + [DigitChar(n % 10)] == s;
    } else {
      var t, c := NatToString(n / 10), DigitChar(n % 10);
      assert s == t + [c];
      SuffixOfNatToString(n / 10, k - 1);
      SuffixAppend(t, c, k);
      assert Suffix(s, k) == Suffix(t, k - 1) + [c];
      assert PadDigits(n, k) == PadDigits(n / 10, k - 1) + [c];
      assert Suffix(s, k) == PadDigits(n, k);
    }
  }

  /** Taking k >= 1 trailing characters of t + [c]: k - 1 of t, then c. */
  lemma SuffixAppend(t: string, c: char, k: nat)
    requires 1 <= k <= |t| + 1
    ensures Suffix(t + [c], k) == Suffix(t, k - 1) + [c]
  {
    var s := t + [c];
    assert Suffix(s, k) == s[|s| - k..];
    assert Suffix(t, k - 1) == t[|t| - (k - 1)..];
    assert s[|s| - k..] == t[|t| - (k - 1)..] + [c];
  }
}
