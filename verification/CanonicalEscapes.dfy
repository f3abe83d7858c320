/** Which escapes a string is signed with: of all the texts that read back as it, the shortest. */
module CanonicalEscapes {
  import opened Wrappers
  import opened CanonicalText

  predicate IsSurrogate(u: CodeUnit) {
    0xD800 <= u <= 0xDFFF
  }

  /** Every raw surrogate has its partner: the text is well-formed UTF-16. */
  predicate IsWellFormed(t: Text) {
    if t == [] then true
    else if 0xD800 <= t[0] <= 0xDBFF then |t| > 1 && 0xDC00 <= t[1] <= 0xDFFF && IsWellFormed(t[2..])
    else !IsSurrogate(t[0]) && IsWellFormed(t[1..])
  }

  predicate IsUpperHex(u: CodeUnit) {
    0x41 <= u <= 0x46
  }

  /** No numeric escape has an upper-case digit. */
  predicate IsLowerCase(t: Text) {
    if t == [] then true
    else if t[0] != 0x5C || |t| < 2 then IsLowerCase(t[1..])
    else if t[1] != 0x75 || |t| < 6 then IsLowerCase(t[2..])
    else !IsUpperHex(t[2]) && !IsUpperHex(t[3]) && !IsUpperHex(t[4]) && !IsUpperHex(t[5]) && IsLowerCase(t[6..])
  }

  /** The text stands for the string, up to a closing quotation mark. */
  predicate StandsFor(t: Text, s: Text) {
    ReadChars(t + [QUOTE]) == Some((s, []))
  }

  // ---------------------------------------------------------------- the written text qualifies

  lemma {:induction false} EscapedIsWellFormed(s: Text)
    ensures IsWellFormed(Escape(s)) && IsLowerCase(Escape(s)) && StandsFor(Escape(s), s)
  {
    ReadEscaped(s, []);
    assert [QUOTE] + [] == [QUOTE];
    if s != [] {
      if StartsWithPair(s) {
        EscapedIsWellFormed(s[2..]);
        PairInFront(s[0], s[1], Escape(s[2..]));
      } else {
        EscapedIsWellFormed(s[1..]);
        UnitInFront(s[0], Escape(s[1..]));
      }
    }
  }

  lemma PairInFront(lead: CodeUnit, trail: CodeUnit, t: Text)
    requires IsLead(lead) && IsTrail(trail) && IsWellFormed(t) && IsLowerCase(t)
    ensures IsWellFormed([lead, trail] + t) && IsLowerCase([lead, trail] + t)
  {
    var all := [lead, trail] + t;
    assert all[2..] == t && all[1..] == [trail] + t && all[1..][1..] == t;
  }

  lemma UnitInFront(u: CodeUnit, t: Text)
    requires IsWellFormed(t) && IsLowerCase(t)
    ensures IsWellFormed(EscapeUnit(u) + t) && IsLowerCase(EscapeUnit(u) + t)
  {
    var e := EscapeUnit(u);
    var all := e + t;
    if |e| == 6 {
      PlainInFront(e, t);
      assert all[6..] == t;
    } else if |e| == 2 {
      PlainInFront(e, t);
      assert all[2..] == t;
    } else {
      assert all[1..] == t;
    }
  }

  lemma {:induction false} PlainInFront(e: Text, t: Text)
    requires IsWellFormed(t) && forall i :: 0 <= i < |e| ==> !IsSurrogate(e[i])
    ensures IsWellFormed(e + t)
  {
    if e == [] {
      assert e + t == t;
    } else {
      PlainInFront(e[1..], t);
      assert (e + t)[1..] == e[1..] + t;
    }
  }

  // ---------------------------------------------------------------- and no other is as short

  /** One unit more makes the written text longer by at most six, and by exactly six only if it is escaped
      numerically by itself. */
  lemma EscapeGrows(u: CodeUnit, s: Text)
    ensures |Escape([u] + s)| <= |EscapeUnit(u)| + |Escape(s)|
    ensures |Escape([u] + s)| == |EscapeUnit(u)| + |Escape(s)| ==> Escape([u] + s) == EscapeUnit(u) + Escape(s)
  {
    var all := [u] + s;
    assert all[1..] == s;
    if StartsWithPair(all) {
      assert all[2..] == s[1..];
      assert !StartsWithPair(s);
    }
  }

  predicate IsShort(s: Text, t: Text) {
    |Escape(s)| <= |t| && (|Escape(s)| == |t| && IsLowerCase(t) ==> t == Escape(s))
  }

  lemma HexDigitsAreUnique(x: CodeUnit)
    requires HexValue(x).Some? && !IsUpperHex(x)
    ensures HexDigit(HexValue(x).value) == x
  {
  }

  lemma DigitsOf(a: int, b: int, c: int, d: int, u: int)
    requires 0 <= a < 16 && 0 <= b < 16 && 0 <= c < 16 && 0 <= d < 16 && u == a * 4096 + b * 256 + c * 16 + d
    ensures u / 4096 == a && u / 256 % 16 == b && u / 16 % 16 == c && u % 16 == d
  {
    assert u / 16 == a * 256 + b * 16 + c && u / 256 == a * 16 + b;
  }

  lemma NumericEscape(u: CodeUnit, a: int, b: int, c: int, d: int)
    requires 0 <= a < 16 && 0 <= b < 16 && 0 <= c < 16 && 0 <= d < 16 && u == a * 4096 + b * 256 + c * 16 + d
    requires |EscapeUnit(u)| == 6
    ensures EscapeUnit(u) == [BACKSLASH, LOWER_U, HexDigit(a), HexDigit(b), HexDigit(c), HexDigit(d)]
  {
    DigitsOf(a, b, c, d, u);
  }

  /** A numeric escape in lower case is the one its unit has, unless there is a shorter one. */
  lemma NumericIsLongest(t: Text, u: CodeUnit)
    requires |t| >= 6 && t[0] == BACKSLASH && t[1] == LOWER_U
    requires HexValue(t[2]).Some? && HexValue(t[3]).Some? && HexValue(t[4]).Some? && HexValue(t[5]).Some?
    requires u == HexValue(t[2]).value * 4096 + HexValue(t[3]).value * 256 + HexValue(t[4]).value * 16
                  + HexValue(t[5]).value
    ensures |EscapeUnit(u)| <= 6
    ensures |EscapeUnit(u)| == 6 && IsLowerCase(t) ==> EscapeUnit(u) == t[..6]
  {
    if |EscapeUnit(u)| == 6 && IsLowerCase(t) {
      HexDigitsAreUnique(t[2]);
      HexDigitsAreUnique(t[3]);
      HexDigitsAreUnique(t[4]);
      HexDigitsAreUnique(t[5]);
      NumericEscape(u, HexValue(t[2]).value, HexValue(t[3]).value, HexValue(t[4]).value, HexValue(t[5]).value);
    }
  }

  /** A short escape is the unit's own, or of a unit that needs none. */
  lemma LetterIsShortest(letter: CodeUnit)
    requires Unescape(letter).Some?
    ensures var e := EscapeUnit(Unescape(letter).value); e == [BACKSLASH, letter] || |e| == 1
    ensures !IsSurrogate(Unescape(letter).value) && !IsSurrogate(letter)
  {
  }

  lemma ReadRest(t: Text, k: nat, u: CodeUnit, s: Text) returns (rest: Text)
    requires k <= |t| && StandsFor(t, s) && ReadChars(t + [QUOTE]) == Prefix(u, ReadChars((t + [QUOTE])[k..]))
    ensures s == [u] + rest && StandsFor(t[k..], rest)
  {
    assert (t + [QUOTE])[k..] == t[k..] + [QUOTE];
    rest := ReadChars(t[k..] + [QUOTE]).value.0;
  }

  lemma {:induction false} NumericCase(s: Text, t: Text)
    requires IsWellFormed(t) && StandsFor(t, s) && |t| >= 2 && t[0] == BACKSLASH && t[1] == LOWER_U
    ensures IsShort(s, t)
    decreases |t|, 0
  {
    var all := t + [QUOTE];
    assert |all| >= 6 && all[1] == t[1] && HexValue(QUOTE).None?;
    assert |t| >= 6;
    assert all[2] == t[2] && all[3] == t[3] && all[4] == t[4] && all[5] == t[5];
    var u: CodeUnit := HexValue(t[2]).value * 4096 + HexValue(t[3]).value * 256 + HexValue(t[4]).value * 16
         + HexValue(t[5]).value;
    var rest := ReadRest(t, 6, u, s);
    PlainBehind(t, 6);
    WrittenIsShortest(rest, t[6..]);
    NumericIsLongest(t, u);
    EscapeGrows(u, rest);
    assert t == t[..6] + t[6..];
  }

  lemma {:induction false} PlainBehind(t: Text, k: nat)
    requires IsWellFormed(t) && k <= |t| && forall i :: 0 <= i < k ==> !IsSurrogate(t[i])
    ensures IsWellFormed(t[k..])
  {
    if k > 0 {
      PlainBehind(t[1..], k - 1);
      assert t[1..][k - 1..] == t[k..];
    }
  }

  lemma {:induction false} LetterCase(s: Text, t: Text)
    requires IsWellFormed(t) && StandsFor(t, s) && |t| >= 2 && t[0] == BACKSLASH && t[1] != LOWER_U
    ensures IsShort(s, t)
    decreases |t|, 0
  {
    assert (t + [QUOTE])[1] == t[1];
    var u := Unescape(t[1]).value;
    var rest := ReadRest(t, 2, u, s);
    LetterIsShortest(t[1]);
    PlainBehind(t, 2);
    WrittenIsShortest(rest, t[2..]);
    EscapeGrows(u, rest);
    assert t == [t[0], t[1]] + t[2..];
  }

  lemma {:induction false} RawCase(s: Text, t: Text)
    requires IsWellFormed(t) && StandsFor(t, s) && t != [] && t[0] != BACKSLASH
    ensures IsShort(s, t)
    decreases |t|, 0
  {
    assert (t + [QUOTE])[1..] == t[1..] + [QUOTE];
    var rest := ReadRest(t, 1, t[0], s);
    if IsSurrogate(t[0]) {
      var after := ReadRest(t[1..], 1, t[1], rest);
      assert t[1..][1..] == t[2..];
      WrittenIsShortest(after, t[2..]);
      PairIsShort(t[0], t[1], after, t[2..]);
      assert t == [t[0], t[1]] + t[2..] && s == [t[0], t[1]] + after;
    } else {
      WrittenIsShortest(rest, t[1..]);
      UnitIsShort(t[0], rest, t[1..]);
      assert t == [t[0]] + t[1..];
    }
  }

  lemma PairIsShort(lead: CodeUnit, trail: CodeUnit, s: Text, t: Text)
    requires IsLead(lead) && IsTrail(trail) && IsShort(s, t)
    ensures IsShort([lead, trail] + s, [lead, trail] + t)
  {
    var longer, text := [lead, trail] + s, [lead, trail] + t;
    assert longer[2..] == s && StartsWithPair(longer);
    LowerCaseBehind(trail, t);
    LowerCaseBehind(lead, [trail] + t);
    assert text == [lead] + ([trail] + t);
  }

  lemma LowerCaseBehind(u: CodeUnit, t: Text)
    requires u != BACKSLASH
    ensures IsLowerCase([u] + t) == IsLowerCase(t)
  {
    assert ([u] + t)[1..] == t;
  }

  lemma UnitIsShort(u: CodeUnit, s: Text, t: Text)
    requires u >= 0x20 && u != QUOTE && u != BACKSLASH && !IsSurrogate(u) && IsShort(s, t)
    ensures IsShort([u] + s, [u] + t)
  {
    EscapeGrows(u, s);
    assert EscapeUnit(u) == [u] && ([u] + t)[1..] == t;
  }

  /** The text that is signed is well-formed, in lower case and stands for the string; no other well-formed text
      that stands for it is shorter, and none as short, in lower case, differs. */
  lemma {:induction false} WrittenIsShortest(s: Text, t: Text)
    requires IsWellFormed(t) && StandsFor(t, s)
    ensures IsWellFormed(Escape(s)) && IsLowerCase(Escape(s)) && StandsFor(Escape(s), s)
    ensures |Escape(s)| <= |t|
    ensures |Escape(s)| == |t| && IsLowerCase(t) ==> t == Escape(s)
    decreases |t|, 1
  {
    EscapedIsWellFormed(s);
    if t == [] {
      assert t + [QUOTE] == [QUOTE];
    } else if t[0] != BACKSLASH {
      RawCase(s, t);
    } else if |t| > 1 && t[1] == LOWER_U {
      NumericCase(s, t);
    } else if |t| > 1 {
      LetterCase(s, t);
    }
  }
}
