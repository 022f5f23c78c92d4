/**
  Decimal text of non-negative integers, as JavaScript prints an integral
  Number (`n + ""`, or `${n}` in a template string), and the tail slice
  `s.slice(-k)` that the workout id is cut from.
*/
module Decimal {

  predicate IsDigit(c: char) {
    '0' <= c <= '9'
  }

  predicate IsDigits(s: string) {
    forall i :: 0 <= i < |s| ==> IsDigit(s[i])
  }

  function DigitChar(d: nat): (c: char)
    requires d < 10
    ensures IsDigit(c) && DigitValue(c) == d
  {
    (('0' as int) + d) as char
  }

  function DigitValue(c: char): (d: nat)
    requires IsDigit(c)
    ensures d < 10
  {
    (c as int) - ('0' as int)
  }

  function Pow10(k: nat): (p: nat)
    ensures p >= 1
  {
    if k == 0 then 1 else 10 * Pow10(k - 1)
  }

  /** The decimal text of `n`: digits only, never empty, no leading zero. */
  function NatToDecimal(n: nat): (s: string)
    ensures |s| >= 1 && IsDigits(s)
    ensures |s| > 1 ==> s[0] != '0'
    ensures n < Pow10(|s|)
    decreases n
  {
    if n < 10 then [DigitChar(n)]
    else NatToDecimal(n / 10) + [DigitChar(n % 10)]
  }

  /** The number a string of digits denotes (most significant digit first). */
  function DecimalValue(s: string): nat
    requires IsDigits(s)
    decreases |s|
  {
    if s == [] then 0
    else DecimalValue(s[..|s| - 1]) * 10 + DigitValue(s[|s| - 1])
  }

  /**
    `s.slice(-k)` for k >= 1: the last k characters, or all of `s` when it is
    shorter. (For k = 0 this gives the empty string, where `slice(-0)` keeps all
    of `s`; the id uses k = 10.)
  */
  function Suffix(s: string, k: nat): (r: string)
    ensures |r| == if k <= |s| then k else |s|
    ensures r == s[|s| - |r|..]
  {
    if k <= |s| then s[|s| - k..] else s
  }

  /** Reading back the decimal text of `n` gives `n`. */
  lemma {:induction false} DecimalRoundTrip(n: nat)
    ensures DecimalValue(NatToDecimal(n)) == n
    decreases n
  {
    var s := NatToDecimal(n);
    if n >= 10 {
      DecimalRoundTrip(n / 10);
      assert s[..|s| - 1] == NatToDecimal(n / 10);
    }
  }

  /** Division with remainder has one answer: `n == q*m + r` with `0 <= r < m` fixes `n % m`. */
  lemma ModOfDecomposition(n: nat, m: nat, q: nat, r: nat)
    requires m > 0 && r < m && n == q * m + r
    ensures n % m == r
  {
    var q', r' := n / m, n % m;
    assert n == q' * m + r';
    if q' > q {
      assert (q' - q) * m == q' * m - q * m;
      MulAtLeast(q' - q, m);
      assert false;
    } else if q' < q {
      assert (q - q') * m == q * m - q' * m;
      MulAtLeast(q - q', m);
      assert false;
    }
  }

  lemma MulAtLeast(d: nat, m: nat)
    requires d >= 1
    ensures d * m >= m
  {
    assert d * m == m + (d - 1) * m;
  }

  /** Two numbers less than m apart leave different remainders modulo m. */
  lemma ModDistinctWhenClose(a: nat, b: nat, m: nat)
    requires m > 0 && a < b < a + m
    ensures a % m != b % m
  {
    var qa, qb := a / m, b / m;
    if a % m == b % m {
      assert b - a == qb * m - qa * m;
      if qb <= qa {
        assert false;
      } else {
        assert qb * m - qa * m == (qb - qa) * m;
        MulAtLeast(qb - qa, m);
        assert false;
      }
    }
  }

  /** Cutting one decimal digit off: the low k digits of n come from the low k-1 digits of n/10. */
  lemma ModPow10Step(n: nat, k: nat)
    requires k >= 1
    ensures ((n / 10) % Pow10(k - 1)) * 10 + n % 10 == n % Pow10(k)
  {
    var p := Pow10(k - 1);
    assert Pow10(k) == 10 * p;
    var q, d := n / 10, n % 10;
    var a, b := q / p, q % p;
    assert n == 10 * q + d;
    assert q == a * p + b;
    ScaleProduct(a, p);
    assert n == a * (10 * p) + (10 * b + d);
    ModOfDecomposition(n, 10 * p, a, 10 * b + d);
  }

  lemma ScaleProduct(a: nat, p: nat)
    ensures 10 * (a * p) == a * (10 * p)
  {
  }

  lemma Pow10Monotone(i: nat, j: nat)
    requires i <= j
    ensures Pow10(i) <= Pow10(j)
    decreases j
  {
    if i < j { Pow10Monotone(i, j - 1); }
  }

  /** The last k characters of the decimal text of n spell `n % 10^k`. */
  lemma {:induction false} SuffixValue(n: nat, k: nat)
    ensures IsDigits(Suffix(NatToDecimal(n), k))
    ensures DecimalValue(Suffix(NatToDecimal(n), k)) == n % Pow10(k)
    decreases n
  {
    var s := NatToDecimal(n);
    if k >= |s| {
      WholeTextValue(n, k);
    } else if k == 0 {
      assert Suffix(s, 0) == [];
    } else {
      // here n >= 10, since a single digit has |s| == 1 <= k
      SuffixValue(n / 10, k - 1);
      SuffixValueStep(n, k);
    }
  }

  /** When k covers all of n's digits, the slice is the whole text and n is below 10^k. */
  lemma WholeTextValue(n: nat, k: nat)
    requires k >= |NatToDecimal(n)|
    ensures Suffix(NatToDecimal(n), k) == NatToDecimal(n)
    ensures DecimalValue(NatToDecimal(n)) == n % Pow10(k)
  {
    Pow10Monotone(|NatToDecimal(n)|, k);
    DecimalRoundTrip(n);
    ModOfDecomposition(n, Pow10(k), 0, n);
  }

  /** One induction step of SuffixValue: from the last k-1 digits of n/10 to the last k digits of n. */
  lemma SuffixValueStep(n: nat, k: nat)
    requires 1 <= k < |NatToDecimal(n)|
    requires IsDigits(Suffix(NatToDecimal(n / 10), k - 1))
    requires DecimalValue(Suffix(NatToDecimal(n / 10), k - 1)) == (n / 10) % Pow10(k - 1)
    ensures IsDigits(Suffix(NatToDecimal(n), k))
    ensures DecimalValue(Suffix(NatToDecimal(n), k)) == n % Pow10(k)
  {
    var s, t, c := NatToDecimal(n), NatToDecimal(n / 10), DigitChar(n % 10);
    assert n >= 10;
    assert s == t + [c];
    SuffixOfAppend(t, c, k);
    var u, v := Suffix(s, k), Suffix(t, k - 1);
    assert u[..|u| - 1] == v && u[|u| - 1] == c;
    assert DecimalValue(u) == DecimalValue(v) * 10 + n % 10;
    ModPow10Step(n, k);
  }

  /** The last k characters of `t + [c]` are the last k-1 characters of `t` followed by `c`. */
  lemma SuffixOfAppend(t: string, c: char, k: nat)
    requires 1 <= k <= |t| + 1
    ensures Suffix(t + [c], k) == Suffix(t, k - 1) + [c]
  {
    var s := t + [c];
    var lhs, rhs := s[|s| - k..], t[|t| - (k - 1)..] + [c];
    assert |lhs| == k == |rhs|;
    forall i | 0 <= i < k
      ensures lhs[i] == rhs[i]
    {
      if i < k - 1 {
        assert lhs[i] == t[|t| - (k - 1) + i];
      }
    }
  }
}
