/** Keys glued together from parts: when the parts can be told apart again. */
module Separators {

  /** `c` has more in front of its separator than `a`, and `b` begins with just that. */
  predicate IsShifted(separator: char, a: string, b: string, c: string, d: string) {
    |a| < |c| && c == a + [separator] + c[|a| + 1..] && b == c[|a| + 1..] + [separator] + d
  }

  /** Two glued strings are equal exactly when their parts are, or when one is the other with its separator
      taken for another. */
  lemma GluedAlike(separator: char, a: string, b: string, c: string, d: string)
    ensures a + [separator] + b == c + [separator] + d
            <==> (a == c && b == d) || IsShifted(separator, a, b, c, d) || IsShifted(separator, c, d, a, b)
  {
    if a + [separator] + b == c + [separator] + d {
      if |a| < |c| {
        LongerPartShifts(separator, a, b, c, d);
      } else if |c| < |a| {
        LongerPartShifts(separator, c, d, a, b);
      } else {
        assert (a + [separator] + b)[..|a|] == a && (c + [separator] + d)[..|c|] == c;
        assert (a + [separator] + b)[|a| + 1..] == b && (c + [separator] + d)[|c| + 1..] == d;
      }
    } else {
      if IsShifted(separator, a, b, c, d) { ShiftedIsAlike(separator, a, b, c, d); }
      if IsShifted(separator, c, d, a, b) { ShiftedIsAlike(separator, c, d, a, b); }
    }
  }

  lemma LongerPartShifts(separator: char, a: string, b: string, c: string, d: string)
    requires a + [separator] + b == c + [separator] + d && |a| < |c|
    ensures IsShifted(separator, a, b, c, d)
  {
    var s := a + [separator] + b;
    assert s[..|c|] == c && s[..|a|] == a && s[|a|] == separator;
    assert c == s[..|c|] == a + [separator] + c[|a| + 1..];
    assert b == s[|a| + 1..] == c[|a| + 1..] + [separator] + d;
  }

  lemma ShiftedIsAlike(separator: char, a: string, b: string, c: string, d: string)
    requires IsShifted(separator, a, b, c, d)
    ensures a + [separator] + b == c + [separator] + d
  {
    var x := c[|a| + 1..];
    assert a + [separator] + (x + [separator] + d) == (a + [separator] + x) + [separator] + d;
  }

  lemma ShiftsNeedSeparator(separator: char, a: string, b: string, c: string, d: string)
    ensures IsShifted(separator, a, b, c, d) ==> separator in c
  {
    if IsShifted(separator, a, b, c, d) { assert (a + [separator] + c[|a| + 1..])[|a|] == separator; }
  }

  /** A part without the separator in front of one determines both sides. */
  lemma {:induction false} FirstPartIsUnique(separator: char, a: string, b: string, c: string, d: string)
    requires a + [separator] + b == c + [separator] + d && separator !in a && separator !in c
    ensures a == c && b == d
  {
    var s, t := a + [separator] + b, c + [separator] + d;
    if a == [] || c == [] {
      assert s[0] == t[0];
      assert a == [] && c == [];
      assert s[1..] == b && t[1..] == d;
    } else {
      assert s[0] == a[0] && t[0] == c[0];
      assert s[1..] == a[1..] + [separator] + b && t[1..] == c[1..] + [separator] + d;
      FirstPartIsUnique(separator, a[1..], b, c[1..], d);
      assert a == [a[0]] + a[1..] && c == [c[0]] + c[1..];
    }
  }
}
