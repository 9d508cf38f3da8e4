/** Positional digit strings, as Python's `format` writes them for the
    codes 'X', 'd', 'o' and 'b' on a non-negative integer: upper-case
    digits, no sign, no leading zero except for the value 0 itself. */
module Numerals {

  function Pow(b: nat, k: nat): (r: nat)
    ensures b >= 1 ==> r >= 1
  {
    if k == 0 then 1 else b * Pow(b, k - 1)
  }

  lemma {:induction false} PowAdd(b: nat, m: nat, n: nat)
    ensures Pow(b, m + n) == Pow(b, m) * Pow(b, n)
  {
    if n > 0 {
      PowAdd(b, m, n - 1);
      var x, y := Pow(b, m), Pow(b, n - 1);
      assert Pow(b, m + n) == b * (x * y);
      MulSwap(b, x, y);
    }
  }

  lemma ShiftDistrib(x: nat, p: nat, y: nat, base: nat)
    ensures (x * p + y) * base == x * (base * p) + y * base
  {
  }

  lemma MulSwap(a: nat, x: nat, y: nat)
    ensures a * (x * y) == x * (a * y)
  {
  }

  /** Pow(b, k * m) == Pow(Pow(b, k), m): a hex digit is four bits, a byte two hex digits. */
  lemma {:induction false} PowMul(b: nat, k: nat, m: nat)
    ensures Pow(b, k * m) == Pow(Pow(b, k), m)
  {
    if m > 0 {
      PowMul(b, k, m - 1);
      calc {
        Pow(b, k * m);
        { assert k * m == k + k * (m - 1); PowAdd(b, k, k * (m - 1)); }
        Pow(b, k) * Pow(b, k * (m - 1));
        Pow(b, k) * Pow(Pow(b, k), m - 1);
        Pow(Pow(b, k), m);
      }
    }
  }

  predicate IsDigit(c: char, base: nat) {
    ('0' <= c <= '9' && (c as int - '0' as int) < base) ||
    ('A' <= c <= 'F' && (c as int - 'A' as int) + 10 < base)
  }

  function DigitChar(d: nat): (c: char)
    requires d < 16
  {
    if d < 10 then (('0' as int) + d) as char else (('A' as int) + d - 10) as char
  }

  function DigitValue(c: char): nat {
    if '0' <= c <= '9' then c as int - '0' as int
    else if 'A' <= c <= 'F' then c as int - 'A' as int + 10
    else 0
  }

  lemma DigitCharValue(d: nat, base: nat)
    requires d < base <= 16
    ensures IsDigit(DigitChar(d), base) && DigitValue(DigitChar(d)) == d
  {
  }

  lemma DigitBelowBase(c: char, base: nat)
    requires IsDigit(c, base)
    ensures DigitValue(c) < base
  {
  }

  lemma MulMono(a: nat, b: nat, c: nat)
    requires a <= b
    ensures a * c <= b * c
  {
  }

  /** Quotient and remainder are determined by n == q * m + r with r < m. */
  lemma DivModUnique(n: nat, m: nat, q: nat, r: nat)
    requires m > 0 && r < m && n == q * m + r
    ensures n / m == q && n % m == r
  {
    var q' := n / m;
    assert n == q' * m + n % m;
    if q' > q {
      MulMono(q + 1, q', m);
    } else if q' < q {
      MulMono(q' + 1, q, m);
    }
  }

  lemma DivStep(n: nat, base: nat)
    requires 2 <= base <= n
    ensures 1 <= n / base < n && n % base < base && n == base * (n / base) + n % base
  {
  }

  /** The digits of `n` in `base`, most significant first. */
  function ToBase(n: nat, base: nat): (s: string)
    requires 2 <= base <= 16
    ensures |s| >= 1
    ensures forall i :: 0 <= i < |s| ==> IsDigit(s[i], base)
    decreases n
  {
    if n < base then
      DigitCharValue(n, base);
      [DigitChar(n)]
    else
      DivStep(n, base);
      DigitCharValue(n % base, base);
      ToBase(n / base, base) + [DigitChar(n % base)]
  }

  /** The value of a digit string read most significant first (Python's `int(s, base)`). */
  function FromBase(s: string, base: nat): nat {
    if s == [] then 0 else FromBase(s[..|s| - 1], base) * base + DigitValue(s[|s| - 1])
  }

  function Zeros(k: nat): (s: string)
    ensures |s| == k
  {
    seq(k, _ => '0')
  }

  /** Zero fill on the left up to `width` characters (the `0=` fill of a format spec). */
  function PadLeft(s: string, width: nat): (r: string)
    ensures |r| == if |s| >= width then |s| else width
  {
    if |s| >= width then s else Zeros(width - |s|) + s
  }

  /** Reading back what ToBase wrote gives the number, and there is no leading zero. */
  lemma {:induction false} ToBaseRoundTrip(n: nat, base: nat)
    requires 2 <= base <= 16
    ensures FromBase(ToBase(n, base), base) == n
    ensures ToBase(n, base)[0] == '0' <==> n == 0
  {
    var s := ToBase(n, base);
    if n < base {
      DigitCharValue(n, base);
      assert s[..|s| - 1] == [];
    } else {
      DivStep(n, base);
      DigitCharValue(n % base, base);
      var q := n / base;
      ToBaseRoundTrip(q, base);
      assert s == ToBase(q, base) + [DigitChar(n % base)];
      assert s[..|s| - 1] == ToBase(q, base);
      assert FromBase(s, base) == q * base + n % base;
      assert s[0] == ToBase(q, base)[0];
    }
  }

  /** Appending digits shifts the prefix up by one power of the base per digit. */
  lemma {:induction false} FromBaseAppend(a: string, b: string, base: nat)
    ensures FromBase(a + b, base) == FromBase(a, base) * Pow(base, |b|) + FromBase(b, base)
    decreases |b|
  {
    if b == [] {
      assert a + b == a;
    } else {
      var b' := b[..|b| - 1];
      assert (a + b)[..|a + b| - 1] == a + b';
      FromBaseAppend(a, b', base);
      var fa, fb' := FromBase(a, base), FromBase(b', base);
      var d, p := DigitValue(b[|b| - 1]), Pow(base, |b'|);
      assert b[..|b| - 1] == b';
      assert FromBase(a + b, base) == (fa * p + fb') * base + d;
      ShiftDistrib(fa, p, fb', base);
      assert Pow(base, |b|) == base * p;
    }
  }

  /** One more digit below the base keeps a value below the next power. */
  lemma DigitStepBound(f: nat, p: nat, d: nat, base: nat)
    requires f < p && d < base
    ensures f * base + d < base * p
  {
    MulMono(f, p - 1, base);
    assert (p - 1) * base == p * base - base;
  }

  /** A string of k digits is worth less than base^k. */
  lemma {:induction false} FromBaseBound(s: string, base: nat)
    requires base >= 2
    requires forall i :: 0 <= i < |s| ==> IsDigit(s[i], base)
    ensures FromBase(s, base) < Pow(base, |s|)
  {
    if s != [] {
      var s' := s[..|s| - 1];
      FromBaseBound(s', base);
      var f, p := FromBase(s', base), Pow(base, |s'|);
      var d := DigitValue(s[|s| - 1]);
      DigitBelowBase(s[|s| - 1], base);
      assert s[..|s| - 1] == s';
      assert FromBase(s, base) == f * base + d;
      DigitStepBound(f, p, d, base);
      assert Pow(base, |s|) == base * p;
    }
  }

  lemma {:induction false} ZerosValue(k: nat, base: nat)
    ensures FromBase(Zeros(k), base) == 0
  {
    if k > 0 {
      assert Zeros(k)[..k - 1] == Zeros(k - 1);
      ZerosValue(k - 1, base);
    }
  }

  /** Zero fill does not change the value. */
  lemma PadLeftValue(s: string, width: nat, base: nat)
    ensures FromBase(PadLeft(s, width), base) == FromBase(s, base)
  {
    if |s| < width {
      var z := Zeros(width - |s|);
      FromBaseAppend(z, s, base);
      ZerosValue(width - |s|, base);
      var p := Pow(base, |s|);
      assert FromBase(z + s, base) == 0 * p + FromBase(s, base);
    }
  }

  /** Integer division by d stays below p exactly when n stays below d * p. */
  lemma DivBelow(n: nat, d: nat, p: nat)
    requires d >= 1
    ensures n / d < p <==> n < d * p
  {
    var q, r := n / d, n % d;
    assert n == d * q + r && r < d;
    if q < p {
      MulMono(q, p - 1, d);
      assert d * q <= d * (p - 1) == d * p - d;
    } else {
      MulMono(p, q, d);
    }
  }

  /** n fits in k digits exactly when n < base^k. */
  lemma {:induction false} ToBaseLength(n: nat, base: nat, k: nat)
    requires 2 <= base <= 16 && k >= 1
    ensures |ToBase(n, base)| <= k <==> n < Pow(base, k)
    decreases n
  {
    var p := Pow(base, k - 1);
    assert Pow(base, k) == base * p;
    if n < base {
      MulMono(1, p, base);
    } else {
      DivStep(n, base);
      var q := n / base;
      assert |ToBase(n, base)| == |ToBase(q, base)| + 1;
      if k == 1 {
        assert p == 1;
      } else {
        ToBaseLength(q, base, k - 1);
        DivBelow(n, base, p);
      }
    }
  }
}
