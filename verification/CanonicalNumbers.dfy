/** Bigints against numbers: which quantities the canonical text of a number and of a bigint stand for. */
module CanonicalNumbers {
  import opened CanonicalText
  import opened Canonical
  import opened CanonicalForm
  import opened Doubles

  /** JavaScript writes a number of this size or more with an exponent. */
  const HUGE: int := Pow10(21)

  // ---------------------------------------------------------------- an integer's own decimal

  function Significant(i: int): seq<Digit> {
    StripTrailing(Dec(Size(i)))
  }

  lemma DecimalOfShape(i: int)
    ensures DecimalOf(i) == if i == 0 then ZERO_VALUE else Decimal(i < 0, Significant(i), |Dec(Size(i))|)
    ensures DecimalOf(i).digits == Significant(i)
    ensures i != 0 ==> Significant(i) != [] && Significant(i)[0] != 0
  {
    if i == 0 {
      assert Normalise(false, [0], 1) == ZERO_VALUE;
    } else {
      StripsToSignificand(Dec(Size(i)), i < 0);
    }
  }

  lemma DecimalOfIsExact(i: int)
    ensures IsNormal(DecimalOf(i)) && QuantityOf(DecimalOf(i)) == i as real
  {
    DecimalOfShape(i);
    if i != 0 {
      var ds, r := Dec(Size(i)), Significant(i);
      ValueOfZeros(r, |ds| - |r|);
      DecReads(Size(i));
      Shifted(ValueOf(r), |ds| - |r|, 0);
    }
  }

  // ---------------------------------------------------------------- one bigint and one number

  lemma OneReading(x: Numeral, y: Numeral)
    requires IsNumeral(x) && IsNumeral(y)
    ensures RenderNumeral(x) == RenderNumeral(y) <==> x == y
  {
    ReadRendered(x, []);
    ReadRendered(y, []);
  }

  /** A number prints like a bigint exactly when the bigint lies below 1e21 and the decimal JavaScript writes
      for the number, taken literally, is the bigint. */
  lemma NumberPrintsAsBigInt(d: Number, i: int)
    ensures NumberText(d) == BigText(i) <==> -HUGE < i < HUGE && QuantityOf(d) == i as real
  {
    NumberPrints(d);
    BigPrints(i);
    OneReading(NumberForm(d), BigForm(i));
    DecLength(Size(i), 21);
    DecimalOfIsExact(i);
    if QuantityOf(d) == i as real { QuantitiesTellDecimalsApart(d, DecimalOf(i)); }
    DecimalOfShape(i);
  }

  // ---------------------------------------------------------------- a bigint and the number it equals

  /** The power of ten above the last digit of `i` that is not zero: ten, if that is the units digit. */
  function Unit(i: int): (u: nat)
    ensures u >= 1
  {
    TenIsPower(1 + |Dec(Size(i))| - |Significant(i)|);
    Pow10(1 + |Dec(Size(i))| - |Significant(i)|)
  }

  function Below(i: int): int {
    i - i % Unit(i)
  }

  /** With its last digit rounded away, down or up, the integer still reads as the same double:
      `Number(...) === Number(i)`. */
  ghost predicate ReadsRounded(i: int) {
    |Significant(i)| > 1 && (RoundsTo(Below(i) as real, i as real) || RoundsTo((Below(i) + Unit(i)) as real, i as real))
  }

  ghost predicate HasShorter(i: int) {
    exists d :: Denotes(d, i as real) && |d.digits| < |Significant(i)|
  }

  /** JavaScript writes an integral double in its own digits exactly when no shorter decimal reads back as it. */
  lemma OwnDigitsUnlessShorter(i: int, d: Decimal)
    requires IsNotationOf(d, i as real)
    ensures QuantityOf(d) == i as real <==> !HasShorter(i)
  {
    DecimalOfShape(i);
    DecimalOfIsExact(i);
    DoublesAreExact(i as real);
    assert Denotes(DecimalOf(i), i as real);
    if QuantityOf(d) == i as real { QuantitiesTellDecimalsApart(d, DecimalOf(i)); }
    if HasShorter(i) {
      var o :| Denotes(o, i as real) && |o.digits| < |Significant(i)|;
      assert |d.digits| <= |o.digits|;
    } else {
      assert |d.digits| == |Significant(i)|;
    }
  }

  // A shorter decimal gives a rounded neighbour.

  lemma DoublesAreNotZero(i: int)
    requires RoundsTo(0.0, i as real)
    ensures i == 0
  {
    SmallIntegersAreDoubles(0);
    DoublesAreExact(0.0);
    RoundingIsUnique(0.0, 0.0, i as real);
  }

  lemma TimesGrows(a: int, b: int, u: nat)
    requires a <= b
    ensures a * u <= b * u
  {
  }

  lemma NextMultiple(i: int, m: int, u: nat)
    requires u > 0 && m % u == 0
    ensures i - i % u <= i < i - i % u + u
    ensures if m <= i then m <= i - i % u else i - i % u + u <= m
  {
    var q, r := m / u, i / u;
    assert m == q * u && i == r * u + i % u && (r + 1) * u == r * u + u;
    if q <= r { TimesGrows(q, r, u); } else { TimesGrows(r + 1, q, u); }
  }

  lemma ClosestMultiple(i: int, m: int, low: int, high: int)
    requires RoundsTo(m as real, i as real) && low <= i <= high && (m <= low || high <= m)
    ensures RoundsTo(low as real, i as real) || RoundsTo(high as real, i as real)
  {
    if m <= low {
      RoundingIsConvex(m as real, low as real, i as real);
    } else {
      RoundingIsConvex(m as real, high as real, i as real);
    }
  }

  lemma MultipleGivesNeighbour(i: int, m: int)
    requires RoundsTo(m as real, i as real) && m % Unit(i) == 0
    ensures RoundsTo(Below(i) as real, i as real) || RoundsTo((Below(i) + Unit(i)) as real, i as real)
  {
    NextMultiple(i, m, Unit(i));
    ClosestMultiple(i, m, Below(i), Below(i) + Unit(i));
  }

  lemma MultipleOfPower(s: int, p: nat, k: nat)
    requires k <= p
    ensures Pow10(k) > 0 && (s * Pow10(p)) % Pow10(k) == 0
  {
    TenIsPower(k);
    PowAdds(p - k, k);
    TimesAssociates(s, Pow10(p - k), Pow10(k));
    TimesModulo(s * Pow10(p - k), Pow10(k));
  }

  lemma TimesAssociates(a: int, b: int, c: int)
    ensures a * (b * c) == (a * b) * c
  {
  }

  lemma TimesModulo(a: int, u: nat)
    requires u > 0
    ensures (a * u) % u == 0
  {
    var r := (a * u) % u;
    var q := (a * u) / u;
    assert (a - q) * u == r;
    if a > q { TimesGrows(1, a - q, u); }
    if a < q { TimesGrows(a - q, -1, u); }
  }

  lemma SizeBounds(i: int)
    requires i != 0
    ensures Pow10(|Dec(Size(i))| - 1) <= Size(i) < Pow10(|Dec(Size(i))|)
  {
    ValueBound(Dec(Size(i)));
    DecReads(Size(i));
  }

  /** A decimal with fewer digits ends in front of the last digit of `i`, or is smaller than the power of ten
      at its first. */
  lemma ShorterGivesMultiple(i: int, o: Decimal) returns (m: int)
    requires Denotes(o, i as real) && |o.digits| < |Significant(i)| && |Significant(i)| > 1
    ensures m % Unit(i) == 0 && RoundsTo(m as real, i as real)
  {
    var n, k := |Dec(Size(i))|, 1 + |Dec(Size(i))| - |Significant(i)|;
    if o.point - |o.digits| >= k {
      m := IntegralQuantity(o, k);
    } else {
      SmallerThanFirstDigit(i, o);
      m := (if i < 0 then -1 else 1) * Pow10(n - 1);
      MultipleOfPower(if i < 0 then -1 else 1, n - 1, k);
      RoundingIsConvex(QuantityOf(o), m as real, i as real);
    }
  }

  lemma IntegralQuantity(o: Decimal, k: nat) returns (m: int)
    requires o.point - |o.digits| >= k
    ensures Pow10(k) > 0 && m % Pow10(k) == 0 && QuantityOf(o) == m as real
  {
    var s, p := ValueOf(o.digits), o.point - |o.digits|;
    IntegralScale(s, p);
    var size := s * Pow10(p);
    if o.negative {
      m := -s * Pow10(p);
      assert m == -size;
      MultipleOfPower(-s, p, k);
    } else {
      m := size;
      MultipleOfPower(s, p, k);
    }
  }

  lemma SmallerThanFirstDigit(i: int, o: Decimal)
    requires IsNormal(o) && |o.digits| < |Significant(i)|
    requires o.point - |o.digits| <= |Dec(Size(i))| - |Significant(i)|
    ensures var first := Pow10(|Dec(Size(i))| - 1) as real;
            -first <= QuantityOf(o) <= first && (if i < 0 then i as real <= -first else first <= i as real)
  {
    var n := |Dec(Size(i))|;
    ValueBound(o.digits);
    ScaledBound(ValueOf(o.digits), |o.digits|, o.point - |o.digits|, n - 1);
    SizesAreNotNegative(o);
    DecimalOfShape(i);
    SizeBounds(i);
  }

  lemma SizesAreNotNegative(o: Decimal)
    requires IsNormal(o)
    ensures SizeOf(o) >= 0.0
  {
    SizeIsPositive(o);
  }

  // A rounded neighbour gives a shorter decimal.

  lemma FewDigits(a: nat, k: nat)
    requires k > 0 && a <= Pow10(k)
    ensures |StripTrailing(Dec(a))| <= k
  {
    if a < Pow10(k) {
      DecLength(a, k);
    } else {
      DecOfPow(k);
      StripTrailingZeros([1], k);
    }
  }

  lemma {:induction false} ZerosAreStripped(a: nat, j: nat)
    requires a > 0
    ensures StripTrailing(Dec(a * Pow10(j))) == StripTrailing(Dec(a))
    decreases j
  {
    CarryTen(a, j);
    if j > 0 {
      ZeroIsStripped(a);
      ZerosAreStripped(10 * a, j - 1);
    }
  }

  lemma CarryTen(a: nat, j: nat)
    ensures a * Pow10(j) == if j == 0 then a else (10 * a) * Pow10(j - 1)
  {
    if j > 0 { TimesAssociates(a, 10, Pow10(j - 1)); }
  }

  lemma ZeroIsStripped(b: nat)
    requires b > 0
    ensures StripTrailing(Dec(10 * b)) == StripTrailing(Dec(b))
  {
    assert Dec(10 * b) == Dec(b) + [0];
  }

  lemma NeighbourIsShorter(i: int, m: int)
    requires |Significant(i)| > 1 && m % Unit(i) == 0 && Size(m) <= Pow10(|Dec(Size(i))|)
    requires RoundsTo(m as real, i as real)
    ensures HasShorter(i)
  {
    var n, c := |Dec(Size(i))|, |Significant(i)|;
    MultipleHasFewDigits(m, 1 + n - c, c - 1);
    DecimalOfShape(m);
    DecimalOfIsExact(m);
    assert Denotes(DecimalOf(m), i as real);
  }

  lemma MultipleHasFewDigits(m: int, j: nat, k: nat)
    requires Pow10(j) > 0 && m % Pow10(j) == 0 && Size(m) <= Pow10(k + j) && k > 0
    ensures |Significant(m)| <= k
  {
    var a := Size(m) / Pow10(j);
    PowAdds(k, j);
    SizeOfMultiple(m, Pow10(j), Pow10(k));
    FewDigits(a, k);
    if a > 0 { ZerosAreStripped(a, j); }
  }

  lemma SizeOfMultiple(m: int, u: nat, bound: nat)
    requires u > 0 && m % u == 0 && Size(m) <= bound * u
    ensures Size(m) == (Size(m) / u) * u && Size(m) / u <= bound
  {
    var q := m / u;
    assert m == q * u;
    TimesModulo(-q, u);
    assert Size(m) % u == 0;
    if Size(m) / u > bound { TimesGrows(bound + 1, Size(m) / u, u); }
  }

  lemma NeighboursAreInReach(i: int)
    requires |Significant(i)| > 1
    ensures Size(Below(i)) <= Pow10(|Dec(Size(i))|) && Size(Below(i) + Unit(i)) <= Pow10(|Dec(Size(i))|)
  {
    var n, c := |Dec(Size(i))|, |Significant(i)|;
    DecimalOfShape(i);
    SizeBounds(i);
    MultipleOfPower(1, n, 1 + n - c);
    MultipleOfPower(-1, n, 1 + n - c);
    NextMultiple(i, 1 * Pow10(n), Unit(i));
    NextMultiple(i, -1 * Pow10(n), Unit(i));
  }

  lemma NeighboursAreMultiples(i: int)
    ensures Below(i) % Unit(i) == 0 && (Below(i) + Unit(i)) % Unit(i) == 0
  {
    MultipleBelow(i, Unit(i));
  }

  lemma MultipleBelow(i: int, u: nat)
    requires u > 0
    ensures (i - i % u) % u == 0 && (i - i % u + u) % u == 0
  {
    var q := i / u;
    TimesModulo(q, u);
    TimesModulo(q + 1, u);
    assert i - i % u == q * u && (q + 1) * u == q * u + u;
  }

  lemma ShorterExactlyWhenRounded(i: int)
    ensures HasShorter(i) <==> ReadsRounded(i)
  {
    if HasShorter(i) {
      var o :| Denotes(o, i as real) && |o.digits| < |Significant(i)|;
      if o.digits == [] {
        DoublesAreNotZero(i);
        DecimalOfShape(0);
      } else {
        var m := ShorterGivesMultiple(i, o);
        MultipleGivesNeighbour(i, m);
      }
    }
    if ReadsRounded(i) {
      NeighboursAreInReach(i);
      NeighboursAreMultiples(i);
      NeighbourIsShorter(i, if RoundsTo(Below(i) as real, i as real) then Below(i) else Below(i) + Unit(i));
    }
  }

  /** A bigint prints like the number it equals exactly below 1e21 and unless the number is read from fewer
      digits. */
  lemma BigIntPrintsAsNumber(i: int, d: Number)
    requires IsNotationOf(d, i as real)
    ensures BigText(i) == NumberText(d) <==> -HUGE < i < HUGE && !ReadsRounded(i)
  {
    NumberPrintsAsBigInt(d, i);
    OwnDigitsUnlessShorter(i, d);
    ShorterExactlyWhenRounded(i);
  }

  // ---------------------------------------------------------------- safe integers and the first that are not

  lemma TensDivide(m: int, k: nat)
    requires k > 0 && Pow10(k) > 0 && m % Pow10(k) == 0
    ensures m % 10 == 0
  {
    var u, q := Pow10(k - 1), m / Pow10(k);
    assert m == q * Pow10(k);
    TimesAssociates(q, u, 10);
    TimesModulo(q * u, 10);
  }

  lemma UnitDoesNotDivide(i: int)
    requires |Significant(i)| > 1
    ensures i % Unit(i) != 0
  {
    var n, c := |Dec(Size(i))|, |Significant(i)|;
    DecimalOfShape(i);
    SizeBounds(i);
    if i % Unit(i) == 0 { MultipleHasFewDigits(i, 1 + n - c, c - 1); }
  }

  /** Up to two to the 53rd nothing that ends in a zero reads as an integer that does not. */
  lemma NoRoundingBelow53(i: int, m: int)
    requires -0x20_0000_0000_0000 <= i <= 0x20_0000_0000_0000 && m % 10 == 0 && RoundsTo(m as real, i as real)
    ensures m == i
  {
    if -0x20_0000_0000_0000 <= m <= 0x20_0000_0000_0000 {
      SmallIntegersAreDoubles(m);
      DoublesAreExact(m as real);
      RoundingIsUnique(m as real, m as real, i as real);
    } else {
      var h := if m < 0 then -0x10_0000_0000_0001 else 0x10_0000_0000_0001;
      assert Two(1) == 2.0;
      assert IsBinary((2 * h) as real, h, 1);
      NothingIsCloser(m as real, i as real, (2 * h) as real);
    }
  }

  lemma MultiplesReadApart(i: int, m: int)
    requires -0x20_0000_0000_0000 <= i <= 0x20_0000_0000_0000 && |Significant(i)| > 1
    requires m % Unit(i) == 0
    ensures !RoundsTo(m as real, i as real)
  {
    if RoundsTo(m as real, i as real) {
      TensDivide(m, 1 + |Dec(Size(i))| - |Significant(i)|);
      NoRoundingBelow53(i, m);
      UnitDoesNotDivide(i);
    }
  }

  lemma SafeIntegersAreSmall(i: int)
    requires -0x20_0000_0000_0000 <= i <= 0x20_0000_0000_0000
    ensures -HUGE < i < HUGE
  {
    assert Pow10(4) == 10_000;
    PowAdds(4, 4);
    PowAdds(8, 8);
    PowGrows(16, 21);
  }

  /** Up to two to the 53rd bigints and numbers print alike. */
  lemma SafeIntegersPrintExactly(i: int)
    requires -0x20_0000_0000_0000 <= i <= 0x20_0000_0000_0000
    ensures IsDouble(i as real) && !ReadsRounded(i) && -HUGE < i < HUGE
  {
    SmallIntegersAreDoubles(i);
    SafeIntegersAreSmall(i);
    if |Significant(i)| > 1 {
      NeighboursAreMultiples(i);
      MultiplesReadApart(i, Below(i));
      MultiplesReadApart(i, Below(i) + Unit(i));
    }
  }

  const SIXTIETH: int := 0x1000_0000_0000_0000

  function IntTwo(k: nat): nat {
    if k == 0 then 1 else 2 * IntTwo(k - 1)
  }

  lemma {:induction false} TwoAdds(e: int, n: nat)
    ensures Two(e + n) == IntTwo(n) as real * Two(e)
    decreases n
  {
    if n > 0 {
      TwoAdds(e, n - 1);
      assert Two(e + n) == 2.0 * Two(e + n - 1);
      DoubleTimes(IntTwo(n - 1) as real, Two(e));
    }
  }

  lemma DoubleTimes(a: real, b: real)
    ensures 2.0 * (a * b) == (2.0 * a) * b
  {
  }

  /** The doubles around two to the sixtieth are 128 away or more. */
  lemma GapsAroundSixtieth(y: real)
    requires IsWide(y) && y != SIXTIETH as real
    ensures Abs(y - SIXTIETH as real) >= 128.0
  {
    var m: int, e: int :| IsBinary(y, m, e);
    if e >= 7 {
      var z := LargeScale(m, e);
      MultiplesOf128(z);
    } else {
      SmallScale(m, e);
    }
  }

  lemma LargeScale(m: int, e: int) returns (z: int)
    requires e >= 7
    ensures m as real * Two(e) == (128 * z) as real
  {
    TwoAdds(7, e - 7);
    assert Two(7) == 128.0;
    z := m * IntTwo(e - 7);
    TimesThree(m, IntTwo(e - 7), 128);
  }

  lemma TimesThree(m: int, k: int, c: int)
    ensures m as real * (k as real * c as real) == (c * (m * k)) as real
  {
    assert (c * (m * k)) as real == c as real * (m * k) as real;
    assert (m * k) as real == m as real * k as real;
  }

  lemma MultiplesOf128(z: int)
    requires 128 * z != SIXTIETH
    ensures Abs((128 * z) as real - SIXTIETH as real) >= 128.0
  {
    assert SIXTIETH == 128 * 0x20_0000_0000_0000;
    assert z <= 0x20_0000_0000_0000 - 1 || z >= 0x20_0000_0000_0000 + 1;
  }

  lemma {:induction false} SmallTwo(e: int)
    requires e <= 6
    ensures 0.0 < Two(e) <= 64.0
    decreases 6 - e
  {
    TwoIsPositive(e);
    if e < 6 {
      SmallTwo(e + 1);
      assert Two(e + 1) == 2.0 * Two(e);
    } else {
      assert Two(6) == 64.0;
    }
  }

  lemma SmallScale(m: int, e: int)
    requires -0x20_0000_0000_0000 < m < 0x20_0000_0000_0000 && e <= 6
    ensures m as real * Two(e) <= SIXTIETH as real - 128.0
  {
    SmallTwo(e);
    ProductBound(m as real, Two(e), 9007199254740992.0, 64.0);
  }

  lemma ProductBound(a: real, b: real, c: real, d: real)
    requires a <= c && 0.0 <= b <= d && 0.0 <= c
    ensures a * b <= c * d
  {
    RealTimesGrows(a, c, b);
    RealTimesGrows(b, d, c);
  }

  lemma SixtiethIsDouble()
    ensures IsDouble(SIXTIETH as real)
  {
    TwoAdds(8, 0);
    assert Two(8) == 256.0;
    assert SIXTIETH as real == 0x10_0000_0000_0000 as real * Two(8);
    assert IsBinary(SIXTIETH as real, 0x10_0000_0000_0000, 8);
  }

  lemma RoundsToSixtieth(v: real)
    ensures Abs(v - SIXTIETH as real) < 64.0 ==> RoundsTo(v, SIXTIETH as real)
    ensures RoundsTo(v, SIXTIETH as real) ==> Abs(v - SIXTIETH as real) <= 128.0
  {
    var x := SIXTIETH as real;
    SixtiethIsDouble();
    if Abs(v - x) < 64.0 {
      forall y | IsWide(y) && y != x ensures IsNearer(v, x, y) { GapsAroundSixtieth(y); }
    }
    if RoundsTo(v, x) {
      assert Two(8) == 256.0 && Two(7) == 128.0;
      assert IsBinary(x + 256.0, 0x10_0000_0000_0001, 8);
      assert IsBinary(x - 128.0, 0x1F_FFFF_FFFF_FFFF, 7);
      NothingIsCloser(v, x, x + 256.0);
      NothingIsCloser(v, x, x - 128.0);
    }
  }

  /** What JavaScript writes for two to the sixtieth. */
  const WRITTEN: int := 1_152_921_504_606_847_000

  lemma PowersUpTo19()
    ensures Pow10(3) == 1000 && Pow10(18) == 1_000_000_000_000_000_000 && Pow10(19) == 10_000_000_000_000_000_000
  {
    assert Pow10(3) == 1000;
    PowAdds(3, 3);
    PowAdds(6, 6);
    PowAdds(12, 6);
    PowAdds(1, 18);
  }

  lemma SixteenDigitsSuffice()
    ensures |Significant(WRITTEN)| <= 16 && Denotes(DecimalOf(WRITTEN), SIXTIETH as real)
  {
    PowersUpTo19();
    MultipleHasFewDigits(WRITTEN, 3, 16);
    DecimalOfIsExact(WRITTEN);
    RoundsToSixtieth(WRITTEN as real);
  }

  lemma NoOtherSixteenDigits(o: Decimal)
    requires Denotes(o, SIXTIETH as real) && |o.digits| <= 16
    ensures QuantityOf(o) == WRITTEN as real
  {
    RoundsToSixtieth(QuantityOf(o));
    PowersUpTo19();
    var p := o.point - |o.digits|;
    if p < 3 {
      ValueBound(o.digits);
      PowGrows(|o.digits|, 16);
      ScaledBound(ValueOf(o.digits), 16, p, 18);
      SizesAreNotNegative(o);
    } else {
      var m := IntegralQuantity(o, 3);
      assert SIXTIETH - 128 <= m <= SIXTIETH + 128;
    }
  }

  lemma SixtiethIsWritten()
    ensures IsNotationOf(DecimalOf(WRITTEN), SIXTIETH as real)
  {
    var d := DecimalOf(WRITTEN);
    SixteenDigitsSuffice();
    DecimalOfShape(WRITTEN);
    DecimalOfIsExact(WRITTEN);
    forall o | Denotes(o, SIXTIETH as real) && |o.digits| <= |d.digits|
      ensures |o.digits| == |d.digits| && QuantityOf(o) == QuantityOf(d)
    {
      NoOtherSixteenDigits(o);
      QuantitiesTellDecimalsApart(o, d);
    }
  }

  /** Far below 1e21: two to the sixtieth prints differently as a bigint and as a number, and as a number like
      another bigint. */
  lemma SixtiethPrintsDifferently(d: Number)
    requires IsNotationOf(d, SIXTIETH as real)
    ensures BigText(SIXTIETH) != NumberText(d) && NumberText(d) == BigText(WRITTEN) && SIXTIETH != WRITTEN
    ensures ReadsRounded(SIXTIETH)
  {
    SixteenDigitsSuffice();
    DecimalOfShape(WRITTEN);
    NoOtherSixteenDigits(d);
    PowersUpTo19();
    PowGrows(19, 21);
    NumberPrintsAsBigInt(d, SIXTIETH);
    NumberPrintsAsBigInt(d, WRITTEN);
    BigIntPrintsAsNumber(SIXTIETH, d);
  }

  /** An integral double that no shorter decimal denotes is written in its own digits. */
  lemma OwnDigitsAreNotation(i: int)
    requires IsDouble(i as real) && !ReadsRounded(i)
    ensures IsNotationOf(DecimalOf(i), i as real)
  {
    ShorterExactlyWhenRounded(i);
    DecimalOfShape(i);
    DecimalOfIsExact(i);
    DoublesAreExact(i as real);
  }

  lemma TwentyFirst()
    ensures IntTwo(21) == 0x20_0000
  {
    assert IntTwo(7) == 128;
    assert IntTwo(14) == 16_384;
  }

  lemma HugeIsDouble()
    ensures IsDouble(HUGE as real) && Significant(HUGE) == [1]
  {
    DecOfPow(21);
    StripTrailingZeros([1], 21);
    PowersUpTo19();
    PowAdds(3, 18);
    TwoAdds(0, 21);
    TwentyFirst();
    assert HUGE as real == 476_837_158_203_125 as real * Two(21);
    assert IsBinary(HUGE as real, 476_837_158_203_125, 21);
  }

  /** From 1e21 on they never agree; this one JavaScript writes as 1e+21. */
  lemma HugeBigIntPrintsDifferently(i: int, d: Number)
    requires IsNotationOf(d, i as real) && !(-HUGE < i < HUGE)
    ensures BigText(i) != NumberText(d)
    ensures IsNotationOf(DecimalOf(HUGE), HUGE as real) && DecimalOf(HUGE) == Decimal(false, [1], 22)
  {
    BigIntPrintsAsNumber(i, d);
    HugeIsDouble();
    DecOfPow(21);
    DecimalOfShape(HUGE);
    OwnDigitsAreNotation(HUGE);
  }

  // ---------------------------------------------------------------- the same quantities

  /** What JavaScript's printer of numbers may be. */
  ghost predicate PrintsNumbers(notation: real -> Number) {
    forall x :: IsDouble(x) ==> IsNotationOf(notation(x), x)
  }

  /** The bigint prints like the number it equals, if there is one, and like no other. */
  ghost predicate StandsForItself(notation: real -> Number, i: int) {
    forall x :: IsDouble(x) ==> (NumberText(notation(x)) == BigText(i) <==> x == i as real)
  }

  /** Exactly when a bigint's text is not ambiguous. */
  lemma StandsForItselfExactly(notation: real -> Number, i: int)
    requires PrintsNumbers(notation)
    ensures StandsForItself(notation, i) <==>
            if IsDouble(i as real) then -HUGE < i < HUGE && !ReadsRounded(i)
            else -HUGE < i < HUGE ==> forall x :: IsDouble(x) ==> QuantityOf(notation(x)) != i as real
  {
    forall x | IsDouble(x)
      ensures NumberText(notation(x)) == BigText(i) <==> -HUGE < i < HUGE && QuantityOf(notation(x)) == i as real
    {
      NumberPrintsAsBigInt(notation(x), i);
    }
    if IsDouble(i as real) {
      BigIntPrintsAsNumber(i, notation(i as real));
      DoublesAreExact(i as real);
      forall x | IsDouble(x) && QuantityOf(notation(x)) == i as real ensures x == i as real {
        RoundingIsUnique(i as real, x, i as real);
      }
    }
  }

  lemma SafeIntegersStandForThemselves(notation: real -> Number, i: int)
    requires PrintsNumbers(notation) && -0x20_0000_0000_0000 <= i <= 0x20_0000_0000_0000
    ensures StandsForItself(notation, i)
  {
    SafeIntegersPrintExactly(i);
    StandsForItselfExactly(notation, i);
  }
}
