/** Double-precision numbers as quantities, and the decimals that stand for them: IEEE 754 rounding and the
    notation `Number::toString` of ECMA-262 chooses. */
module Doubles {
  import opened CanonicalText

  // ---------------------------------------------------------------- powers

  function Pow10(k: nat): nat {
    if k == 0 then 1 else 10 * Pow10(k - 1)
  }

  function Ten(p: int): real
    decreases if p < 0 then -p else p
  {
    if p == 0 then 1.0 else if p > 0 then 10.0 * Ten(p - 1) else Ten(p + 1) / 10.0
  }

  function Two(e: int): real
    decreases if e < 0 then -e else e
  {
    if e == 0 then 1.0 else if e > 0 then 2.0 * Two(e - 1) else Two(e + 1) / 2.0
  }

  function Abs(x: real): real {
    if x < 0.0 then -x else x
  }

  // ---------------------------------------------------------------- doubles

  /** 53 bits of significand, and no exponent below that of the subnormal numbers. */
  ghost predicate IsBinary(x: real, m: int, e: int) {
    -0x20_0000_0000_0000 < m < 0x20_0000_0000_0000 && e >= -1074 && x == m as real * Two(e)
  }

  /** A double, but for the bound on large exponents. */
  ghost predicate IsWide(x: real) {
    exists m, e :: IsBinary(x, m, e)
  }

  ghost predicate IsDouble(x: real) {
    exists m, e :: IsBinary(x, m, e) && e <= 971
  }

  ghost predicate HasEvenSignificand(x: real) {
    exists h, e :: IsBinary(x, 2 * h, e) && (e == -1074 || Abs((2 * h) as real) >= 4503599627370496.0)
  }

  ghost predicate IsNearer(v: real, x: real, y: real) {
    Abs(v - x) < Abs(v - y) || (Abs(v - x) == Abs(v - y) && HasEvenSignificand(x) && !HasEvenSignificand(y))
  }

  /** Round to nearest, ties to even: rounded as if exponents had no upper bound, `v` becomes the finite `x`. */
  ghost predicate RoundsTo(v: real, x: real) {
    IsDouble(x) && forall y :: IsWide(y) && y != x ==> IsNearer(v, x, y)
  }

  // ---------------------------------------------------------------- notations

  function Scaled(s: nat, p: int): real {
    s as real * Ten(p)
  }

  function SizeOf(d: Decimal): real {
    Scaled(ValueOf(d.digits), d.point - |d.digits|)
  }

  /** The quantity a decimal stands for. */
  function QuantityOf(d: Decimal): real {
    if d.negative then -SizeOf(d) else SizeOf(d)
  }

  /** `d` reads back as the double `x`. */
  ghost predicate Denotes(d: Decimal, x: real) {
    IsNormal(d) && RoundsTo(QuantityOf(d), x)
  }

  /** Section 6.1.6.1.20 of ECMA-262 with its note on accuracy: as few digits as denote the number and, of
      those, the closest. Minus zero is written like zero. */
  ghost predicate IsNotationOf(d: Decimal, x: real) {
    && Denotes(d, x)
    && (d.digits == [] ==> !d.negative)
    && (forall o :: Denotes(o, x) ==> |d.digits| <= |o.digits|)
    && (forall o :: Denotes(o, x) && |o.digits| == |d.digits| ==> Abs(QuantityOf(d) - x) <= Abs(QuantityOf(o) - x))
  }

  // ---------------------------------------------------------------- rounding

  lemma RoundingIsUnique(v: real, x: real, y: real)
    requires RoundsTo(v, x) && RoundsTo(v, y)
    ensures x == y
  {
    assert IsWide(y) && (y != x ==> IsNearer(v, x, y));
    assert IsWide(x) && (x != y ==> IsNearer(v, y, x));
  }

  lemma DoublesAreExact(x: real)
    requires IsDouble(x)
    ensures RoundsTo(x, x)
  {
    forall y | IsWide(y) && y != x ensures IsNearer(x, x, y) {}
  }

  /** What lies between a quantity and the double it rounds to rounds to it as well. */
  lemma RoundingIsConvex(v: real, w: real, x: real)
    requires RoundsTo(v, x) && (x <= w <= v || v <= w <= x)
    ensures RoundsTo(w, x)
  {
    forall y | IsWide(y) && y != x ensures IsNearer(w, x, y) {
      assert IsNearer(v, x, y);
    }
  }

  /** No double is strictly closer than the one rounded to. */
  lemma NothingIsCloser(v: real, x: real, y: real)
    requires RoundsTo(v, x) && IsWide(y)
    ensures Abs(v - x) <= Abs(v - y)
  {
    assert y != x ==> IsNearer(v, x, y);
  }

  lemma SmallIntegersAreDoubles(i: int)
    requires -0x20_0000_0000_0000 <= i <= 0x20_0000_0000_0000
    ensures IsDouble(i as real)
  {
    if -0x20_0000_0000_0000 < i < 0x20_0000_0000_0000 {
      assert Two(0) == 1.0;
      assert IsBinary(i as real, i, 0);
    } else {
      assert Two(1) == 2.0;
      assert IsBinary(i as real, i / 2, 1);
    }
  }

  lemma {:induction false} TwoIsPositive(e: int)
    ensures Two(e) > 0.0
    decreases if e < 0 then -e else e
  {
    if e > 0 { TwoIsPositive(e - 1); } else if e < 0 { TwoIsPositive(e + 1); }
  }

  // ---------------------------------------------------------------- digits as quantities

  lemma {:induction false} TenIsPower(p: nat)
    ensures Ten(p) == Pow10(p) as real && Pow10(p) >= 1
  {
    if p > 0 { TenIsPower(p - 1); }
  }

  lemma TenSteps(p: int)
    ensures Ten(p + 1) == 10.0 * Ten(p)
  {
  }

  lemma {:induction false} TenIsPositive(p: int)
    ensures Ten(p) > 0.0
    decreases if p < 0 then -p else p
  {
    if p > 0 { TenIsPositive(p - 1); } else if p < 0 { TenIsPositive(p + 1); }
  }

  lemma {:induction false} TenAdds(p: int, n: nat)
    ensures Ten(p + n) == Pow10(n) as real * Ten(p)
    decreases n
  {
    if n > 0 {
      TenAdds(p, n - 1);
      TenSteps(p + n - 1);
      Regroup10(Pow10(n - 1) as real, Ten(p));
    }
  }

  lemma Regroup10(a: real, b: real)
    ensures 10.0 * (a * b) == (10.0 * a) * b
  {
  }

  lemma {:induction false} PowAdds(m: nat, n: nat)
    ensures Pow10(m + n) == Pow10(m) * Pow10(n)
  {
    if m > 0 { PowAdds(m - 1, n); }
  }

  lemma {:induction false} PowGrows(m: nat, n: nat)
    requires m <= n
    ensures Pow10(m) <= Pow10(n)
    decreases n
  {
    if m < n { PowGrows(m, n - 1); }
  }

  lemma {:induction false} ValueBound(ds: seq<Digit>)
    ensures ValueOf(ds) < Pow10(|ds|)
    ensures ds != [] && ds[0] != 0 ==> ValueOf(ds) >= Pow10(|ds| - 1)
  {
    if ds != [] { ValueBound(ds[..|ds| - 1]); }
  }

  lemma {:induction false} ValueOfZeros(ds: seq<Digit>, n: nat)
    ensures ValueOf(ds + Zeros(n)) == ValueOf(ds) * Pow10(n)
  {
    if n > 0 {
      ValueOfZeros(ds, n - 1);
      assert (ds + Zeros(n))[..|ds| + n - 1] == ds + Zeros(n - 1);
    } else {
      assert ds + Zeros(0) == ds;
    }
  }

  lemma {:induction false} TenGrows(p: int, n: nat)
    ensures Ten(p) <= Ten(p + n)
    decreases n
  {
    if n > 0 {
      TenGrows(p, n - 1);
      TenSteps(p + n - 1);
      TenIsPositive(p + n - 1);
    }
  }

  lemma ScaledBound(s: nat, k: nat, p: int, n: nat)
    requires s < Pow10(k) && p + k <= n
    ensures Scaled(s, p) <= Pow10(n) as real
  {
    var rest: nat := n - (p + k);
    TenGrows(p + k, rest);
    TenIsPower(n);
    ScalingGrows(s, Pow10(k), p);
    PowerScaled(k, p);
  }

  lemma PowerScaled(k: nat, p: int)
    ensures Scaled(Pow10(k), p) == Ten(p + k)
  {
    TenAdds(p, k);
  }

  lemma ScalingGrows(s: nat, t: nat, p: int)
    requires s <= t
    ensures Scaled(s, p) <= Scaled(t, p)
  {
    TenIsPositive(p);
    RealTimesGrows(s as real, t as real, Ten(p));
  }

  lemma RealTimesGrows(a: real, b: real, c: real)
    requires a <= b && c >= 0.0
    ensures a * c <= b * c
  {
  }

  lemma IntegralScale(s: nat, p: nat)
    ensures Scaled(s, p) == (s * Pow10(p)) as real
  {
    Shifted(s, p, 0);
  }

  /** Digits without a zero in front are those of their value. */
  lemma {:induction false} DecOfValue(ds: seq<Digit>)
    requires ds != [] && ds[0] != 0
    ensures Dec(ValueOf(ds)) == ds
  {
    var init := ds[..|ds| - 1];
    assert ds == init + [ds[|ds| - 1]];
    if init != [] {
      DecOfValue(init);
      ValueBound(init);
      PowGrows(0, |init| - 1);
    }
  }

  lemma {:induction false} DecLength(n: nat, k: nat)
    requires k > 0
    ensures |Dec(n)| <= k <==> n < Pow10(k)
    decreases k
  {
    if k > 1 && n >= 10 {
      DecLength(n / 10, k - 1);
      assert n < 10 * Pow10(k - 1) <==> n / 10 < Pow10(k - 1);
    } else if n >= 10 {
      assert Pow10(1) == 10 * Pow10(0);
    } else {
      PowGrows(1, k);
      assert Pow10(1) == 10 * Pow10(0);
    }
  }

  lemma {:induction false} DecOfPow(k: nat)
    ensures Dec(Pow10(k)) == [1] + Zeros(k)
  {
    if k > 0 {
      PowGrows(1, k);
      assert Pow10(1) == 10 * Pow10(0);
      DecOfPow(k - 1);
      assert Pow10(k) / 10 == Pow10(k - 1);
    }
  }

  // ---------------------------------------------------------------- one decimal per quantity

  lemma ScalingKeepsApart(s: nat, t: nat, p: int)
    requires Scaled(s, p) == Scaled(t, p)
    ensures s == t
  {
    TenIsPositive(p);
    Cancel(s as real, t as real, Ten(p));
  }

  lemma Cancel(a: real, b: real, c: real)
    requires c != 0.0 && a * c == b * c
    ensures a == b
  {
    assert (a * c) / c == a && (b * c) / c == b;
  }

  lemma Shifted(s: nat, n: nat, q: int)
    ensures Scaled(s, q + n) == Scaled(s * Pow10(n), q)
  {
    TenAdds(q, n);
    Associate(s, Pow10(n), Ten(q));
  }

  lemma Associate(a: int, b: int, c: real)
    ensures a as real * (b as real * c) == (a * b) as real * c
  {
    assert (a * b) as real == a as real * b as real;
  }

  lemma EndsInZero(s: nat, n: nat)
    requires n > 0
    ensures (s * Pow10(n)) % 10 == 0
  {
    assert s * Pow10(n) == 10 * (s * Pow10(n - 1));
  }

  /** The last digit of a normal decimal is not zero, so quantities tell scales apart. */
  lemma NoSecondScale(s: nat, t: nat, n: nat, q: int)
    requires n > 0 && t % 10 != 0
    ensures Scaled(s, q + n) != Scaled(t, q)
  {
    Shifted(s, n, q);
    EndsInZero(s, n);
    var shifted := s * Pow10(n);
    if Scaled(shifted, q) == Scaled(t, q) { ScalingKeepsApart(shifted, t, q); }
  }

  lemma SameScale(s: nat, p: int, t: nat, q: int)
    requires s % 10 != 0 && t % 10 != 0 && Scaled(s, p) == Scaled(t, q)
    ensures p == q && s == t
  {
    if p > q { NoSecondScale(s, t, p - q, q); }
    if p < q { NoSecondScale(t, s, q - p, p); }
    ScalingKeepsApart(s, t, p);
  }

  lemma SizeIsPositive(d: Decimal)
    requires IsNormal(d)
    ensures d.digits == [] ==> SizeOf(d) == 0.0
    ensures d.digits != [] ==> SizeOf(d) > 0.0 && ValueOf(d.digits) % 10 != 0
  {
    if d.digits != [] {
      TenIsPositive(d.point - |d.digits|);
      ValueBound(d.digits);
      PowGrows(0, |d.digits| - 1);
      Positive(ValueOf(d.digits) as real, Ten(d.point - |d.digits|));
    }
  }

  lemma Positive(a: real, b: real)
    requires a > 0.0 && b > 0.0
    ensures a * b > 0.0
  {
  }

  lemma SameValueSameDigits(a: seq<Digit>, b: seq<Digit>)
    requires a != [] && b != [] && a[0] != 0 && b[0] != 0 && ValueOf(a) == ValueOf(b)
    ensures a == b
  {
    DecOfValue(a);
    DecOfValue(b);
  }

  lemma SizesTellDigitsApart(d: Decimal, e: Decimal)
    requires IsNormal(d) && IsNormal(e) && SizeOf(d) == SizeOf(e)
    ensures d.digits == e.digits && d.point == e.point
  {
    SizeIsPositive(d);
    SizeIsPositive(e);
    if d.digits != [] {
      var s, t := ValueOf(d.digits), ValueOf(e.digits);
      SameScale(s, d.point - |d.digits|, t, e.point - |e.digits|);
      SameValueSameDigits(d.digits, e.digits);
    }
  }

  /** A quantity has one normal decimal, zero and its minus apart. */
  lemma QuantitiesTellDecimalsApart(d: Decimal, e: Decimal)
    requires IsNormal(d) && IsNormal(e) && QuantityOf(d) == QuantityOf(e)
    ensures d.digits == e.digits && d.point == e.point
    ensures d.digits != [] ==> d == e
  {
    SizeIsPositive(d);
    SizeIsPositive(e);
    SizesTellDigitsApart(d, e);
  }
}
