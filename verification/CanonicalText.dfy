/** The tokens of JSON text: UTF-16 strings and decimal numbers, how `JSON.stringify` writes them and
    how the grammar of RFC 8259 reads them back. */
module CanonicalText {
  import opened Wrappers

  type CodeUnit = u: int | 0 <= u < 0x1_0000

  type Text = seq<CodeUnit>

  type Digit = d: int | 0 <= d < 10

  const TAB: CodeUnit := 0x09
  const LF: CodeUnit := 0x0A
  const CR: CodeUnit := 0x0D
  const SPACE: CodeUnit := 0x20
  const QUOTE: CodeUnit := 0x22
  const PLUS: CodeUnit := 0x2B
  const COMMA: CodeUnit := 0x2C
  const MINUS: CodeUnit := 0x2D
  const DOT: CodeUnit := 0x2E
  const ZERO: CodeUnit := 0x30
  const COLON: CodeUnit := 0x3A
  const UPPER_E: CodeUnit := 0x45
  const OPEN_BRACKET: CodeUnit := 0x5B
  const BACKSLASH: CodeUnit := 0x5C
  const CLOSE_BRACKET: CodeUnit := 0x5D
  const LOWER_E: CodeUnit := 0x65
  const LOWER_U: CodeUnit := 0x75
  const OPEN_BRACE: CodeUnit := 0x7B
  const CLOSE_BRACE: CodeUnit := 0x7D

  // ---------------------------------------------------------------- strings

  predicate IsLead(u: CodeUnit) { 0xD800 <= u < 0xDC00 }

  predicate IsTrail(u: CodeUnit) { 0xDC00 <= u < 0xE000 }

  /** The letter of a two-character escape. */
  function ShortEscape(u: CodeUnit): Option<CodeUnit> {
    match u
    case 0x08 => Some(0x62)
    case 0x09 => Some(0x74)
    case 0x0A => Some(0x6E)
    case 0x0C => Some(0x66)
    case 0x0D => Some(0x72)
    case 0x22 => Some(0x22)
    case 0x5C => Some(0x5C)
    case _ => None
  }

  function HexDigit(d: int): CodeUnit
    requires 0 <= d < 16
  {
    if d < 10 then 0x30 + d else 0x61 + (d - 10)
  }

  /** `JSON.stringify` escapes controls, quotes, backslashes and surrogates without a partner. */
  function EscapeUnit(u: CodeUnit): Text {
    if ShortEscape(u).Some? then [BACKSLASH, ShortEscape(u).value]
    else if u < 0x20 || IsLead(u) || IsTrail(u) then
      [BACKSLASH, LOWER_U, HexDigit(u / 4096), HexDigit(u / 256 % 16), HexDigit(u / 16 % 16), HexDigit(u % 16)]
    else [u]
  }

  function Escape(s: Text): Text {
    if s == [] then []
    else if IsLead(s[0]) && |s| > 1 && IsTrail(s[1]) then [s[0], s[1]] + Escape(s[2..])
    else EscapeUnit(s[0]) + Escape(s[1..])
  }

  function Quoted(s: Text): Text {
    [QUOTE] + Escape(s) + [QUOTE]
  }

  function Unescape(letter: CodeUnit): Option<CodeUnit> {
    match letter
    case 0x62 => Some(0x08)
    case 0x74 => Some(0x09)
    case 0x6E => Some(0x0A)
    case 0x66 => Some(0x0C)
    case 0x72 => Some(0x0D)
    case 0x22 => Some(0x22)
    case 0x5C => Some(0x5C)
    case 0x2F => Some(0x2F)
    case _ => None
  }

  function HexValue(u: CodeUnit): Option<int>
    ensures HexValue(u).Some? ==> 0 <= HexValue(u).value < 16
  {
    if 0x30 <= u <= 0x39 then Some(u - 0x30)
    else if 0x61 <= u <= 0x66 then Some(u - 0x61 + 10)
    else if 0x41 <= u <= 0x46 then Some(u - 0x41 + 10)
    else None
  }

  /** Section 7 of RFC 8259, from behind the opening quotation mark. */
  function ReadChars(t: Text): (r: Option<(Text, Text)>)
    ensures r.Some? ==> |r.value.1| < |t|
  {
    if t == [] then None
    else if t[0] == QUOTE then Some(([], t[1..]))
    else if t[0] < 0x20 then None
    else if t[0] != BACKSLASH then Prefix(t[0], ReadChars(t[1..]))
    else if |t| < 2 then None
    else if t[1] != LOWER_U then
      if Unescape(t[1]).None? then None else Prefix(Unescape(t[1]).value, ReadChars(t[2..]))
    else if |t| < 6 then None
    else
      var a, b, c, d := HexValue(t[2]), HexValue(t[3]), HexValue(t[4]), HexValue(t[5]);
      if a.None? || b.None? || c.None? || d.None? then None
      else Prefix(a.value * 4096 + b.value * 256 + c.value * 16 + d.value, ReadChars(t[6..]))
  }

  function Prefix(u: CodeUnit, r: Option<(Text, Text)>): Option<(Text, Text)> {
    if r.None? then None else Some(([u] + r.value.0, r.value.1))
  }

  lemma Nibbles(u: CodeUnit)
    ensures u / 4096 < 16
    ensures u == u / 4096 * 4096 + u / 256 % 16 * 256 + u / 16 % 16 * 16 + u % 16
  {
    assert u / 256 == u / 4096 * 16 + u / 256 % 16;
    assert u / 16 == u / 256 * 16 + u / 16 % 16;
  }

  lemma ReadFourDigits(t: Text, a: int, b: int, c: int, d: int)
    requires |t| >= 6 && t[0] == BACKSLASH && t[1] == LOWER_U
    requires HexValue(t[2]) == Some(a) && HexValue(t[3]) == Some(b) && HexValue(t[4]) == Some(c) &&
             HexValue(t[5]) == Some(d)
    ensures ReadChars(t) == Prefix(a * 4096 + b * 256 + c * 16 + d, ReadChars(t[6..]))
  {
  }

  lemma {:induction false} ReadHexEscape(u: CodeUnit, t: Text)
    ensures ReadChars([BACKSLASH, LOWER_U, HexDigit(u / 4096), HexDigit(u / 256 % 16), HexDigit(u / 16 % 16),
            HexDigit(u % 16)] + t)
            == Prefix(u, ReadChars(t))
  {
    var a, b, c, d := u / 4096, u / 256 % 16, u / 16 % 16, u % 16;
    var all := [BACKSLASH, LOWER_U, HexDigit(a), HexDigit(b), HexDigit(c), HexDigit(d)] + t;
    Nibbles(u);
    HexReads(a);
    HexReads(b);
    HexReads(c);
    HexReads(d);
    ReadFourDigits(all, a, b, c, d);
    assert all[6..] == t;
  }

  lemma HexReads(d: int)
    requires 0 <= d < 16
    ensures HexValue(HexDigit(d)) == Some(d)
  {
  }

  lemma ReadEscapedUnit(u: CodeUnit, t: Text)
    ensures ReadChars(EscapeUnit(u) + t) == Prefix(u, ReadChars(t))
  {
    if ShortEscape(u).Some? {
      var all := [BACKSLASH, ShortEscape(u).value] + t;
      assert all[2..] == t && all[1] == ShortEscape(u).value;
      assert Unescape(ShortEscape(u).value) == Some(u);
    } else if u < 0x20 || IsLead(u) || IsTrail(u) {
      ReadHexEscape(u, t);
    } else {
      ReadPlainUnit(u, t);
    }
  }

  lemma ReadPlainUnit(u: CodeUnit, t: Text)
    requires u >= 0x20 && u != QUOTE && u != BACKSLASH
    ensures ReadChars([u] + t) == Prefix(u, ReadChars(t))
  {
  }

  lemma ReadPair(lead: CodeUnit, trail: CodeUnit, t: Text)
    requires IsLead(lead) && IsTrail(trail)
    ensures ReadChars([lead, trail] + t) == Prefix(lead, Prefix(trail, ReadChars(t)))
  {
  }

  predicate StartsWithPair(s: Text) {
    |s| > 1 && IsLead(s[0]) && IsTrail(s[1])
  }

  lemma EscapePair(s: Text, end: Text)
    requires StartsWithPair(s)
    ensures Escape(s) + end == [s[0], s[1]] + (Escape(s[2..]) + end)
    ensures s == [s[0]] + ([s[1]] + s[2..])
  {
  }

  lemma {:induction false} EscapeSingle(s: Text, end: Text)
    requires s != [] && !StartsWithPair(s)
    ensures Escape(s) + end == EscapeUnit(s[0]) + (Escape(s[1..]) + end)
    ensures s == [s[0]] + s[1..]
  {
    var unit, tail := EscapeUnit(s[0]), Escape(s[1..]);
    assert Escape(s) == unit + tail;
    Regroup(unit, tail, end);
  }

  /** Every string reads back, lone surrogates and control characters included. */
  lemma {:induction false} ReadEscaped(s: Text, rest: Text)
    ensures ReadChars(Escape(s) + ([QUOTE] + rest)) == Some((s, rest))
    decreases |s|
  {
    var end := [QUOTE] + rest;
    if s == [] {
      assert end[1..] == rest;
      assert Escape(s) + end == end;
    } else if StartsWithPair(s) {
      EscapePair(s, end);
      ReadEscaped(s[2..], rest);
      ReadPair(s[0], s[1], Escape(s[2..]) + end);
    } else {
      EscapeSingle(s, end);
      ReadEscaped(s[1..], rest);
      ReadEscapedUnit(s[0], Escape(s[1..]) + end);
    }
  }

  // ---------------------------------------------------------------- digits

  function Spell(ds: seq<Digit>): Text {
    seq(|ds|, i requires 0 <= i < |ds| => ZERO + ds[i])
  }

  function Zeros(n: nat): seq<Digit> {
    seq(n, i => 0)
  }

  function Dec(n: nat): seq<Digit>
    ensures Dec(n) != [] && (n > 0 ==> Dec(n)[0] != 0) && (n == 0 ==> Dec(n) == [0])
  {
    if n < 10 then [n] else Dec(n / 10) + [n % 10]
  }

  function ValueOf(ds: seq<Digit>): nat {
    if ds == [] then 0 else ValueOf(ds[..|ds| - 1]) * 10 + ds[|ds| - 1]
  }

  predicate IsDigit(u: CodeUnit) { ZERO <= u < ZERO + 10 }

  function ReadDigits(t: Text): (r: (seq<Digit>, Text))
    ensures |r.0| + |r.1| == |t|
  {
    if t == [] || !IsDigit(t[0]) then ([], t)
    else
      var r := ReadDigits(t[1..]);
      ([t[0] - ZERO] + r.0, r.1)
  }

  lemma {:induction false} DecReads(n: nat)
    ensures ValueOf(Dec(n)) == n
  {
    if n >= 10 {
      DecReads(n / 10);
      assert Dec(n)[..|Dec(n)| - 1] == Dec(n / 10);
    } else {
      assert Dec(n)[..0] == [];
    }
  }

  lemma {:induction false} ReadSpelled(ds: seq<Digit>, rest: Text)
    requires rest == [] || !IsDigit(rest[0])
    ensures ReadDigits(Spell(ds) + rest) == (ds, rest)
  {
    if ds == [] {
      assert Spell(ds) + rest == rest;
    } else {
      ReadSpelled(ds[1..], rest);
      assert (Spell(ds) + rest)[1..] == Spell(ds[1..]) + rest;
      assert ds == [ds[0]] + ds[1..];
    }
  }

  lemma SpellConcat(a: seq<Digit>, b: seq<Digit>)
    ensures Spell(a + b) == Spell(a) + Spell(b)
  {
  }

  // ---------------------------------------------------------------- numbers

  /** 0.d1 d2 ... dk times ten to the power `point`; no digits at all is zero. */
  datatype Decimal = Decimal(negative: bool, digits: seq<Digit>, point: int)

  /** The one representation of a number: no zeros at either end. */
  predicate IsNormal(d: Decimal) {
    if d.digits == [] then d.point == 0 else d.digits[0] != 0 && d.digits[|d.digits| - 1] != 0
  }

  const ZERO_VALUE := Decimal(false, [], 0)

  function StripTrailing(ds: seq<Digit>): (r: seq<Digit>)
    ensures |r| <= |ds| && ds == r + Zeros(|ds| - |r|)
    ensures r == [] || r[|r| - 1] != 0
  {
    if ds != [] && ds[|ds| - 1] == 0 then
      var r := StripTrailing(ds[..|ds| - 1]);
      assert ds == ds[..|ds| - 1] + [0];
      r
    else ds
  }

  /** The number a digit sequence with its point stands for, in normal form. */
  function Normalise(negative: bool, ds: seq<Digit>, point: int): Decimal {
    if ds == [] then ZERO_VALUE
    else if ds[0] == 0 then Normalise(negative, ds[1..], point - 1)
    else Decimal(negative, StripTrailing(ds), point)
  }

  function Size(i: int): nat {
    if i < 0 then -i else i
  }

  /** An integer's own decimal. */
  function DecimalOf(i: int): Decimal {
    Normalise(i < 0, Dec(Size(i)), |Dec(Size(i))|)
  }

  lemma {:induction false} StripTrailingZeros(ds: seq<Digit>, n: nat)
    requires ds != [] && ds[|ds| - 1] != 0
    ensures StripTrailing(ds + Zeros(n)) == ds
  {
    if n > 0 {
      StripTrailingZeros(ds, n - 1);
      assert (ds + Zeros(n))[..|ds| + n - 1] == ds + Zeros(n - 1);
    } else {
      assert ds + Zeros(0) == ds;
    }
  }

  predicate IsSignificand(ds: seq<Digit>) {
    ds != [] && ds[0] != 0 && ds[|ds| - 1] != 0
  }

  lemma {:induction false} NormalisePadded(negative: bool, before: nat, ds: seq<Digit>, after: nat, point: int)
    requires IsSignificand(ds)
    ensures Normalise(negative, Zeros(before) + ds + Zeros(after), point) == Decimal(negative, ds, point - before)
  {
    var all := Zeros(before) + ds + Zeros(after);
    if before > 0 {
      NormalisePadded(negative, before - 1, ds, after, point - 1);
      assert all[1..] == Zeros(before - 1) + ds + Zeros(after);
    } else {
      assert all == ds + Zeros(after);
      StripTrailingZeros(ds, after);
    }
  }

  function Sign(negative: bool): Text {
    if negative then [MINUS] else []
  }

  function Exponent(e: int): Text {
    [LOWER_E, if e < 0 then MINUS else PLUS] + Spell(Dec(if e < 0 then -e else e))
  }

  lemma NormaliseExact(negative: bool, ds: seq<Digit>, point: int)
    requires IsSignificand(ds)
    ensures Normalise(negative, ds, point) == Decimal(negative, ds, point)
  {
  }

  /** How JavaScript lays out the digits of a positive number (`Number::toString`). */
  function Layout(ds: seq<Digit>, n: int): Text
    requires ds != []
  {
    if |ds| <= n <= 21 then Spell(ds) + Spell(Zeros(n - |ds|))
    else if 0 < n <= 21 then Spell(ds[..n]) + ([DOT] + Spell(ds[n..]))
    else if -6 < n <= 0 then Spell([0]) + ([DOT] + Spell(Zeros(-n) + ds))
    else if |ds| == 1 then Spell(ds) + Exponent(n - 1)
    else Spell(ds[..1]) + ([DOT] + Spell(ds[1..]) + Exponent(n - 1))
  }

  /** A number as read: its value, and whether it was written out in full although JavaScript would
      use an exponent (only a bigint is). */
  datatype Numeral = Numeral(value: Decimal, spelledOut: bool)

  predicate IsNumeral(x: Numeral) {
    && IsNormal(x.value)
    && (x.value.digits == [] ==> x == Numeral(ZERO_VALUE, false))
    && (x.spelledOut ==> x.value.point >= 22 && x.value.point >= |x.value.digits|)
  }

  function Body(x: Numeral): Text
    requires x.value.digits != []
  {
    if x.spelledOut && x.value.point >= |x.value.digits| then
      Spell(x.value.digits) + Spell(Zeros(x.value.point - |x.value.digits|))
    else Layout(x.value.digits, x.value.point)
  }

  function RenderNumeral(x: Numeral): Text {
    if x.value.digits == [] then [ZERO] else Sign(x.value.negative) + Body(x)
  }

  /** `int` of section 6 of RFC 8259: a zero stands alone. */
  function ReadInt(t: Text): (r: (seq<Digit>, Text))
    ensures |r.0| + |r.1| == |t|
  {
    if t != [] && t[0] == ZERO then ([0], t[1..]) else ReadDigits(t)
  }

  /** `[ frac ]`: None when a point has no digit behind it. */
  function ReadFrac(t: Text): (r: Option<(seq<Digit>, Text)>)
    ensures r.Some? ==> |r.value.1| <= |t|
  {
    if t == [] || t[0] != DOT then Some(([], t))
    else
      var f := ReadDigits(t[1..]);
      if f.0 == [] then None else Some(f)
  }

  /** `[ exp ]`, as the exponent and whether there was one. */
  function ReadExp(t: Text): (r: Option<(int, bool, Text)>)
    ensures r.Some? ==> |r.value.2| <= |t|
  {
    if t == [] || (t[0] != LOWER_E && t[0] != UPPER_E) then Some((0, false, t))
    else
      var signed := |t| > 1 && (t[1] == PLUS || t[1] == MINUS);
      var e := ReadDigits(if signed then t[2..] else t[1..]);
      if e.0 == [] then None
      else
        var size: int := ValueOf(e.0);
        Some((if signed && t[1] == MINUS then -size else size, true, e.1))
  }

  /** `int [ frac ] [ exp ]` */
  function ReadUnsigned(negative: bool, t: Text): (r: Option<(Numeral, Text)>)
    ensures r.Some? ==> |r.value.1| < |t|
  {
    var i := ReadInt(t);
    if i.0 == [] then None
    else
      var f := ReadFrac(i.1);
      if f.None? then None
      else
        var e := ReadExp(f.value.1);
        if e.None? then None
        else
          var value := Normalise(negative, i.0 + f.value.0, |i.0| + e.value.0);
          Some((Numeral(value, f.value.0 == [] && !e.value.1 && |i.0| > 21), e.value.2))
  }

  /** Section 6 of RFC 8259. */
  function ReadNumber(t: Text): (r: Option<(Numeral, Text)>)
    ensures r.Some? ==> |r.value.1| < |t|
  {
    if t != [] && t[0] == MINUS then ReadUnsigned(true, t[1..]) else ReadUnsigned(false, t)
  }

  /** What may follow a value: nothing, or something no number continues with. */
  predicate Delimits(t: Text) {
    t == [] || !(IsDigit(t[0]) || t[0] == DOT || t[0] == LOWER_E || t[0] == UPPER_E)
  }

  lemma ReadSigned(negative: bool, t: Text)
    requires t != [] && t[0] != MINUS
    ensures ReadNumber(Sign(negative) + t) == ReadUnsigned(negative, t)
  {
    if negative { assert (Sign(negative) + t)[1..] == t; } else { assert Sign(negative) + t == t; }
  }

  lemma ReadWhole(whole: seq<Digit>, after: Text)
    requires whole != [] && (whole[0] != 0 || |whole| == 1)
    requires after == [] || !IsDigit(after[0])
    ensures ReadInt(Spell(whole) + after) == (whole, after)
    ensures Spell(whole) + after != [] && (Spell(whole) + after)[0] != MINUS
  {
    var t := Spell(whole) + after;
    assert t[0] == ZERO + whole[0];
    if whole[0] == 0 {
      assert t[1..] == after;
      assert whole == [0];
    } else {
      ReadSpelled(whole, after);
    }
  }

  /** Digits written out in full, with as many zeros as the point asks for. */
  lemma ReadInFull(negative: bool, ds: seq<Digit>, zeros: nat, rest: Text)
    requires IsSignificand(ds) && Delimits(rest)
    ensures ReadUnsigned(negative, Spell(ds) + Spell(Zeros(zeros)) + rest)
            == Some((Numeral(Decimal(negative, ds, |ds| + zeros), |ds| + zeros > 21), rest))
  {
    var whole := ds + Zeros(zeros);
    SpellConcat(ds, Zeros(zeros));
    ReadWhole(whole, rest);
    NormalisePadded(negative, 0, ds, zeros, |whole|);
    assert Zeros(0) + ds + Zeros(zeros) == whole && whole + [] == whole;
    assert ReadFrac(rest) == Some(([], rest)) && ReadExp(rest) == Some((0, false, rest));
  }

  lemma ReadFraction(frac: seq<Digit>, rest: Text)
    requires frac != [] && (rest == [] || !IsDigit(rest[0]))
    ensures ReadFrac([DOT] + Spell(frac) + rest) == Some((frac, rest))
  {
    assert ([DOT] + Spell(frac) + rest)[1..] == Spell(frac) + rest;
    ReadSpelled(frac, rest);
  }

  lemma ReadPointed(negative: bool, ds: seq<Digit>, n: nat, rest: Text)
    requires IsSignificand(ds) && 0 < n < |ds| && n <= 21 && Delimits(rest)
    ensures ReadUnsigned(negative, Spell(ds[..n]) + ([DOT] + Spell(ds[n..]) + rest))
            == Some((Numeral(Decimal(negative, ds, n), false), rest))
  {
    ReadFraction(ds[n..], rest);
    ReadWhole(ds[..n], [DOT] + Spell(ds[n..]) + rest);
    NormaliseExact(negative, ds, n);
    assert ds[..n] + ds[n..] == ds;
    ReadParts(negative, Spell(ds[..n]) + ([DOT] + Spell(ds[n..]) + rest), ds[..n], ds[n..], rest);
  }

  lemma ReadSmall(negative: bool, ds: seq<Digit>, zeros: nat, rest: Text)
    requires IsSignificand(ds) && Delimits(rest)
    ensures ReadUnsigned(negative, Spell([0]) + ([DOT] + Spell(Zeros(zeros) + ds) + rest))
            == Some((Numeral(Decimal(negative, ds, 0 - zeros), false), rest))
  {
    var frac := Zeros(zeros) + ds;
    ReadFraction(frac, rest);
    ReadWhole([0], [DOT] + Spell(frac) + rest);
    NormalisePadded(negative, zeros + 1, ds, 0, 1);
    assert Zeros(zeros + 1) + ds + Zeros(0) == [0] + frac;
    ReadParts(negative, Spell([0]) + ([DOT] + Spell(frac) + rest), [0], frac, rest);
  }

  /** A number with a fraction and no exponent, read part by part. */
  lemma ReadParts(negative: bool, t: Text, whole: seq<Digit>, frac: seq<Digit>, rest: Text)
    requires whole != [] && frac != [] && ReadInt(t).0 == whole && Delimits(rest)
    requires ReadFrac(ReadInt(t).1) == Some((frac, rest))
    ensures ReadUnsigned(negative, t) == Some((Numeral(Normalise(negative, whole + frac, |whole|), false), rest))
  {
    assert ReadExp(rest) == Some((0, false, rest));
  }

  lemma ReadExponent(e: int, rest: Text)
    requires rest == [] || !IsDigit(rest[0])
    ensures ReadExp(Exponent(e) + rest) == Some((e, true, rest))
  {
    var m: nat := if e < 0 then -e else e;
    assert (Exponent(e) + rest)[2..] == Spell(Dec(m)) + rest;
    ReadSpelled(Dec(m), rest);
    DecReads(m);
  }

  lemma ReadScientific(negative: bool, ds: seq<Digit>, e: int, rest: Text)
    requires IsSignificand(ds) && |ds| > 1 && Delimits(rest)
    ensures ReadUnsigned(negative, Spell(ds[..1]) + ([DOT] + Spell(ds[1..]) + (Exponent(e) + rest)))
            == Some((Numeral(Decimal(negative, ds, e + 1), false), rest))
  {
    ReadExponent(e, rest);
    ReadFraction(ds[1..], Exponent(e) + rest);
    ReadWhole(ds[..1], [DOT] + Spell(ds[1..]) + (Exponent(e) + rest));
    NormaliseExact(negative, ds, e + 1);
    assert ds[..1] + ds[1..] == ds;
  }

  lemma ReadOneDigitScientific(negative: bool, ds: seq<Digit>, e: int, rest: Text)
    requires IsSignificand(ds) && |ds| == 1 && Delimits(rest)
    ensures ReadUnsigned(negative, Spell(ds) + (Exponent(e) + rest)) ==
            Some((Numeral(Decimal(negative, ds, e + 1), false), rest))
  {
    ReadExponent(e, rest);
    ReadWhole(ds, Exponent(e) + rest);
    NormaliseExact(negative, ds, e + 1);
    assert ds + [] == ds;
  }

  lemma Regroup(a: Text, b: Text, c: Text)
    ensures a + b + c == a + (b + c)
  {
  }

  lemma RegroupFour(a: Text, b: Text, c: Text, d: Text)
    ensures a + (b + c) + d == a + (b + (c + d))
  {
  }

  lemma ReadFullLayout(negative: bool, ds: seq<Digit>, n: int, rest: Text)
    requires IsSignificand(ds) && Delimits(rest) && |ds| <= n <= 21
    ensures ReadUnsigned(negative, Layout(ds, n) + rest) == Some((Numeral(Decimal(negative, ds, n), false), rest))
  {
    var zeros: nat := n - |ds|;
    ReadInFull(negative, ds, zeros, rest);
    assert Layout(ds, n) == Spell(ds) + Spell(Zeros(zeros));
  }

  lemma ReadPointedLayout(negative: bool, ds: seq<Digit>, n: int, rest: Text)
    requires IsSignificand(ds) && Delimits(rest) && 0 < n < |ds| && n <= 21
    ensures ReadUnsigned(negative, Layout(ds, n) + rest) == Some((Numeral(Decimal(negative, ds, n), false), rest))
  {
    var head, tail := Spell(ds[..n]), [DOT] + Spell(ds[n..]);
    ReadPointed(negative, ds, n, rest);
    Regroup(head, tail, rest);
    assert Layout(ds, n) == head + tail;
  }

  lemma ReadSmallLayout(negative: bool, ds: seq<Digit>, n: int, rest: Text)
    requires IsSignificand(ds) && Delimits(rest) && -6 < n <= 0
    ensures ReadUnsigned(negative, Layout(ds, n) + rest) == Some((Numeral(Decimal(negative, ds, n), false), rest))
  {
    var head, tail := Spell([0]), [DOT] + Spell(Zeros(-n) + ds);
    ReadSmall(negative, ds, 0 - n, rest);
    Regroup(head, tail, rest);
    assert Layout(ds, n) == head + tail;
  }

  lemma ReadPositional(negative: bool, ds: seq<Digit>, n: int, rest: Text)
    requires IsSignificand(ds) && Delimits(rest) && -6 < n <= 21
    ensures ReadUnsigned(negative, Layout(ds, n) + rest) == Some((Numeral(Decimal(negative, ds, n), false), rest))
  {
    if |ds| <= n {
      ReadFullLayout(negative, ds, n, rest);
    } else if 0 < n {
      ReadPointedLayout(negative, ds, n, rest);
    } else {
      ReadSmallLayout(negative, ds, n, rest);
    }
  }

  lemma ReadShort(negative: bool, ds: seq<Digit>, n: int, rest: Text)
    requires IsSignificand(ds) && |ds| == 1 && Delimits(rest) && !(-6 < n <= 21)
    ensures ReadUnsigned(negative, Layout(ds, n) + rest) == Some((Numeral(Decimal(negative, ds, n), false), rest))
  {
    Regroup(Spell(ds), Exponent(n - 1), rest);
    ReadOneDigitScientific(negative, ds, n - 1, rest);
  }

  lemma ReadLong(negative: bool, ds: seq<Digit>, n: int, rest: Text)
    requires IsSignificand(ds) && |ds| > 1 && Delimits(rest) && !(-6 < n <= 21)
    ensures ReadUnsigned(negative, Layout(ds, n) + rest) == Some((Numeral(Decimal(negative, ds, n), false), rest))
  {
    RegroupFour(Spell(ds[..1]), [DOT] + Spell(ds[1..]), Exponent(n - 1), rest);
    ReadScientific(negative, ds, n - 1, rest);
  }

  lemma ReadLayout(negative: bool, ds: seq<Digit>, n: int, rest: Text)
    requires IsSignificand(ds) && Delimits(rest)
    ensures ReadUnsigned(negative, Layout(ds, n) + rest) == Some((Numeral(Decimal(negative, ds, n), false), rest))
  {
    if -6 < n <= 21 {
      ReadPositional(negative, ds, n, rest);
    } else if |ds| == 1 {
      ReadShort(negative, ds, n, rest);
    } else {
      ReadLong(negative, ds, n, rest);
    }
  }

  lemma LayoutStartsWithDigit(ds: seq<Digit>, n: int)
    requires ds != []
    ensures Layout(ds, n) != [] && IsDigit(Layout(ds, n)[0])
  {
  }

  lemma ReadZero(rest: Text)
    requires Delimits(rest)
    ensures ReadNumber([ZERO] + rest) == Some((Numeral(ZERO_VALUE, false), rest))
  {
    assert [ZERO] == Spell([0]);
    ReadWhole([0], rest);
    ReadSigned(false, [ZERO] + rest);
    assert Sign(false) + ([ZERO] + rest) == [ZERO] + rest;
    assert Normalise(false, [0] + [], 1) == ZERO_VALUE;
  }

  lemma ReadBody(x: Numeral, rest: Text)
    requires IsNumeral(x) && x.value.digits != [] && Delimits(rest)
    ensures ReadUnsigned(x.value.negative, Body(x) + rest) == Some((x, rest))
    ensures Body(x) != [] && IsDigit(Body(x)[0])
  {
    if x.spelledOut {
      ReadInFull(x.value.negative, x.value.digits, x.value.point - |x.value.digits|, rest);
    } else {
      ReadLayout(x.value.negative, x.value.digits, x.value.point, rest);
      LayoutStartsWithDigit(x.value.digits, x.value.point);
    }
  }

  /** Every number reads back as the number it was, however it was laid out. */
  lemma ReadRendered(x: Numeral, rest: Text)
    requires IsNumeral(x) && Delimits(rest)
    ensures ReadNumber(RenderNumeral(x) + rest) == Some((x, rest))
    ensures RenderNumeral(x) != [] && (RenderNumeral(x)[0] == MINUS || IsDigit(RenderNumeral(x)[0]))
  {
    if x.value.digits == [] {
      ReadZero(rest);
    } else {
      ReadBody(x, rest);
      ReadSigned(x.value.negative, Body(x) + rest);
      Regroup(Sign(x.value.negative), Body(x), rest);
    }
  }
}
