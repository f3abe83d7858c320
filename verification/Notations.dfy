/** Every double has a notation: decimals that denote it, fewest digits first, then the closest. */
module Notations {
  import opened CanonicalText
  import opened Canonical
  import opened Doubles
  import opened CanonicalNumbers

  // ---------------------------------------------------------------- some decimal denotes every double

  function IntFive(k: nat): nat {
    if k == 0 then 1 else 5 * IntFive(k - 1)
  }

  lemma {:induction false} TwoBelowZero(k: nat)
    ensures Two(0 - k) == Scaled(IntFive(k), 0 - k)
    decreases k
  {
    if k > 0 {
      TwoBelowZero(k - 1);
      TenSteps(0 - k);
      Halved(IntFive(k - 1) as real, Ten(0 - k));
    }
  }

  lemma Halved(a: real, b: real)
    ensures (a * (10.0 * b)) / 2.0 == (5.0 * a) * b
  {
  }

  function Signed(i: int, q: int): real {
    if i < 0 then -Scaled(Size(i), q) else Scaled(Size(i), q)
  }

  /** An integer's decimal with the point moved. */
  function Moved(i: int, q: int): Decimal {
    var d := DecimalOf(i);
    if i == 0 then ZERO_VALUE else d.(point := d.point + q)
  }

  lemma MovedQuantity(i: int, q: int)
    ensures IsNormal(Moved(i, q))
    ensures QuantityOf(Moved(i, q)) == Signed(i, q)
  {
    DecimalOfShape(i);
    if i != 0 {
      var ds, r := Dec(Size(i)), Significant(i);
      ValueOfZeros(r, |ds| - |r|);
      DecReads(Size(i));
      Shifted(ValueOf(r), |ds| - |r|, q);
    }
  }

  /** A positive double below one, or an integer, in powers of ten. */
  lemma InPowersOfTen(n: nat, e: int) returns (s: nat, q: int)
    ensures n as real * Two(e) == Scaled(s, q)
  {
    if e >= 0 {
      TwoAdds(0, e);
      Associate(n, IntTwo(e), 1.0);
      s, q := n * IntTwo(e), 0;
    } else {
      TwoBelowZero(0 - e);
      Associate(n, IntFive(0 - e), Ten(e));
      s, q := n * IntFive(0 - e), e;
    }
  }

  lemma Negated(a: real, b: real)
    ensures (-a) * b == -(a * b)
  {
  }

  lemma SignedInPowersOfTen(m: int, e: int) returns (i: int, q: int)
    ensures m as real * Two(e) == Signed(i, q)
  {
    var s: nat;
    s, q := InPowersOfTen(Size(m), e);
    i := s;
    if m < 0 {
      Negated(Size(m) as real, Two(e));
      ZeroScaled(q);
      i := -1 * i;
    }
  }

  lemma ZeroScaled(q: int)
    ensures Scaled(0, q) == 0.0
  {
  }

  lemma SignedQuantity(x: real) returns (i: int, q: int)
    requires IsDouble(x)
    ensures x == Signed(i, q)
  {
    var m: int, e: int :| IsBinary(x, m, e);
    i, q := SignedInPowersOfTen(m, e);
  }

  lemma SomeDecimalDenotes(x: real) returns (d: Decimal)
    requires IsDouble(x)
    ensures Denotes(d, x)
  {
    var i, q := SignedQuantity(x);
    MovedQuantity(i, q);
    DoublesAreExact(x);
    d := Moved(i, q);
  }

  // ---------------------------------------------------------------- with fewest digits

  lemma {:induction false} FewestDigits(x: real, d: Decimal) returns (r: Decimal)
    requires Denotes(d, x)
    ensures Denotes(r, x) && forall o :: Denotes(o, x) ==> |r.digits| <= |o.digits|
    decreases |d.digits|
  {
    if o: Decimal :| Denotes(o, x) && |o.digits| < |d.digits| {
      r := FewestDigits(x, o);
    } else {
      r := d;
    }
  }

  // ---------------------------------------------------------------- and the closest of those

  ghost predicate IsCloser(x: real, o: Decimal, d: Decimal) {
    Denotes(o, x) && |o.digits| == |d.digits| && Abs(QuantityOf(o) - x) < Abs(QuantityOf(d) - x)
  }

  ghost predicate IsLeft(x: real, d: Decimal, s: nat, p: int, negative: bool) {
    exists o :: IsCloser(x, o, d) && ValueOf(o.digits) == s && o.point == p && o.negative == negative
  }

  /** The decimals that are closer than `d`, by value, point and sign: finitely many. */
  ghost function Left(x: real, d: Decimal, lo: int, hi: int): set<(nat, int, bool)> {
    set s: nat, p: int, b: bool | s < Pow10(|d.digits|) && lo <= p <= hi && IsLeft(x, d, s, p, b) :: (s, p, b)
  }

  ghost predicate PointsBetween(x: real, k: nat, lo: int, hi: int) {
    forall o :: Denotes(o, x) && |o.digits| == k ==> lo <= o.point <= hi
  }

  lemma FewerLeft(x: real, o: Decimal, d: Decimal, lo: int, hi: int)
    requires IsCloser(x, o, d) && PointsBetween(x, |d.digits|, lo, hi)
    ensures Left(x, o, lo, hi) < Left(x, d, lo, hi)
  {
    var here := (ValueOf(o.digits), o.point, o.negative);
    ValueBound(o.digits);
    assert IsLeft(x, d, here.0, here.1, here.2);
    assert here in Left(x, d, lo, hi);
    forall s: nat, p: int, b: bool | (s, p, b) in Left(x, o, lo, hi)
      ensures (s, p, b) in Left(x, d, lo, hi) && (s, p, b) != here
    {
      LeftBefore(x, o, d, s, p, b);
    }
  }

  lemma LeftBefore(x: real, o: Decimal, d: Decimal, s: nat, p: int, negative: bool)
    requires IsCloser(x, o, d) && IsLeft(x, o, s, p, negative)
    ensures IsLeft(x, d, s, p, negative)
    ensures (s, p, negative) != (ValueOf(o.digits), o.point, o.negative)
  {
    var i: Decimal :| IsCloser(x, i, o) && ValueOf(i.digits) == s && i.point == p && i.negative == negative;
    assert IsCloser(x, i, d);
  }

  lemma {:induction false} Closest(x: real, d: Decimal, lo: int, hi: int) returns (r: Decimal)
    requires Denotes(d, x) && PointsBetween(x, |d.digits|, lo, hi)
    ensures Denotes(r, x) && |r.digits| == |d.digits| && forall o :: !IsCloser(x, o, r)
    decreases |Left(x, d, lo, hi)|
  {
    if o: Decimal :| IsCloser(x, o, d) {
      FewerLeft(x, o, d, lo, hi);
      SmallerSet(Left(x, o, lo, hi), Left(x, d, lo, hi));
      r := Closest(x, o, lo, hi);
    } else {
      r := d;
    }
  }

  lemma SmallerSet<T>(a: set<T>, b: set<T>)
    requires a < b
    ensures |a| < |b|
  {
    assert b == a + (b - a);
    assert b - a != {};
  }

  // ---------------------------------------------------------------- which points are possible

  lemma {:induction false} TenReaches(n: nat)
    ensures Ten(n) >= n as real + 1.0
  {
    if n > 0 { TenReaches(n - 1); }
  }

  lemma {:induction false} TenInverse(n: nat)
    ensures Ten(0 - n) * Ten(n) == 1.0
    decreases n
  {
    if n > 0 {
      TenInverse(n - 1);
      TenSteps(0 - n);
      TenSteps(n - 1);
      Inverses(Ten(0 - n), Ten(n - 1));
    }
  }

  lemma Inverses(a: real, b: real)
    requires (10.0 * a) * b == 1.0
    ensures a * (10.0 * b) == 1.0
  {
  }

  lemma TenAbove(x: real) returns (n: nat)
    requires x >= 0.0
    ensures Ten(n) > x
  {
    n := x.Floor;
    TenReaches(n);
  }

  lemma TenBelow(x: real) returns (n: nat)
    requires x > 0.0
    ensures Ten(0 - n) < x
  {
    n := TenAbove(1.0 / x);
    TenInverse(n);
    TenIsPositive(0 - n);
    SwapsInverse(x, Ten(0 - n), Ten(n));
  }

  lemma SwapsInverse(x: real, a: real, b: real)
    requires x > 0.0 && a > 0.0 && b > 1.0 / x && a * b == 1.0
    ensures a < x
  {
    assert x * (1.0 / x) == 1.0;
    StrictlyGrows(1.0 / x, b, x);
    if a >= x { RealTimesGrows(x, a, b); }
  }

  lemma StrictlyGrows(a: real, b: real, c: real)
    requires a < b && c > 0.0
    ensures c * a < c * b
  {
  }

  lemma TwiceIsWide(x: real)
    requires IsDouble(x)
    ensures IsWide(2.0 * x)
  {
    var m: int, e: int :| IsBinary(x, m, e);
    assert Two(e + 1) == 2.0 * Two(e);
    Swaps(m as real, Two(e));
    assert IsBinary(2.0 * x, m, e + 1);
  }

  lemma Swaps(a: real, b: real)
    ensures a * (2.0 * b) == 2.0 * (a * b)
  {
  }

  /** What denotes a double is at least half and at most twice as large. */
  lemma SizesAreNear(x: real, o: Decimal)
    requires Denotes(o, x) && x != 0.0
    ensures Abs(x) / 2.0 <= SizeOf(o) <= 2.0 * Abs(x)
  {
    SmallIntegersAreDoubles(0);
    NothingIsCloser(QuantityOf(o), x, 0.0);
    TwiceIsWide(x);
    NothingIsCloser(QuantityOf(o), x, 2.0 * x);
    SizeIsPositive(o);
  }

  lemma SizeAgainstPoint(o: Decimal)
    requires IsNormal(o) && o.digits != []
    ensures Ten(o.point - |o.digits|) <= SizeOf(o) <= Ten(o.point)
  {
    var s, k, p := ValueOf(o.digits), |o.digits|, o.point - |o.digits|;
    ValueBound(o.digits);
    TenIsPower(k - 1);
    ScalingGrows(1, s, p);
    ScalingGrows(s, Pow10(k), p);
    PowerScaled(k, p);
  }

  lemma TenOrder(p: int, q: int)
    requires Ten(p) < Ten(q)
    ensures p < q
  {
    if p >= q { TenGrows(q, p - q); }
  }

  lemma PointsAreBounded(x: real, k: nat) returns (lo: int, hi: int)
    requires x != 0.0 && k > 0
    ensures PointsBetween(x, k, lo, hi)
  {
    var above := TenAbove(2.0 * Abs(x));
    var below := TenBelow(Abs(x) / 2.0);
    lo, hi := below, above + k;
    lo := 0 - lo;
    PointsAreBetween(x, k, lo, above);
  }

  lemma PointsAreBetween(x: real, k: nat, low: int, high: int)
    requires x != 0.0 && k > 0 && Ten(low) < Abs(x) / 2.0 && 2.0 * Abs(x) < Ten(high)
    ensures PointsBetween(x, k, low, high + k)
  {
    forall o | Denotes(o, x) && |o.digits| == k ensures low <= o.point <= high + k {
      PointIsBetween(x, o, low, high);
    }
  }

  lemma PointIsBetween(x: real, o: Decimal, low: int, high: int)
    requires Denotes(o, x) && x != 0.0 && o.digits != []
    requires Ten(low) < Abs(x) / 2.0 && 2.0 * Abs(x) < Ten(high)
    ensures low <= o.point <= high + |o.digits|
  {
    SizesAreNear(x, o);
    SizeAgainstPoint(o);
    TenOrder(o.point - |o.digits|, high);
    TenOrder(low, o.point);
  }

  // ---------------------------------------------------------------- the printer

  lemma ZeroIsWritten(x: real, d: Decimal)
    requires Denotes(d, x) && forall o :: Denotes(o, x) ==> |d.digits| <= |o.digits|
    ensures x == 0.0 <==> d.digits == []
  {
    SizeIsPositive(d);
    SmallIntegersAreDoubles(0);
    DoublesAreExact(0.0);
    if d.digits == [] { RoundingIsUnique(0.0, x, 0.0); }
    if x == 0.0 { assert QuantityOf(ZERO_VALUE) == 0.0 && Denotes(ZERO_VALUE, x); }
  }

  /** Every double has a notation. */
  lemma NotationExists(x: real)
    requires IsDouble(x)
    ensures exists d :: IsNotationOf(d, x)
  {
    var some := SomeDecimalDenotes(x);
    var few := FewestDigits(x, some);
    ZeroIsWritten(x, few);
    if x == 0.0 {
      DoublesAreExact(x);
      forall o | Denotes(o, x) && |o.digits| == 0 ensures QuantityOf(o) == 0.0 { SizeIsPositive(o); }
      assert IsNotationOf(ZERO_VALUE, x);
    } else {
      var lo, hi := PointsAreBounded(x, |few.digits|);
      var d := Closest(x, few, lo, hi);
      assert forall o :: Denotes(o, x) && |o.digits| == |d.digits| ==> !IsCloser(x, o, d);
      assert IsNotationOf(d, x);
    }
  }

  ghost function Notation(x: real): (d: Number)
    ensures IsDouble(x) ==> IsNotationOf(d, x)
  {
    if IsDouble(x) then
      NotationExists(x);
      var d: Decimal :| IsNotationOf(d, x);
      d
    else ZERO_VALUE
  }

  /** So JavaScript's printer of numbers can be had. */
  lemma PrinterExists()
    ensures PrintsNumbers(Notation)
  {
  }
}
