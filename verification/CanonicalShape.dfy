/** The signed bytes themselves: separators, the order of keys, and how numbers are written. */
module CanonicalShape {
  import opened Wrappers
  import opened StableSort
  import opened CanonicalText
  import opened Canonical
  import opened CanonicalForm
  import opened Doubles

  // ---------------------------------------------------------------- scalars, arrays, objects

  /** `null`, `true`, `false`, and strings in quotation marks. */
  lemma ScalarTexts(b: bool, s: Text)
    ensures Canonicalize(Null) == Some([0x6E, 0x75, 0x6C, 0x6C])
    ensures Canonicalize(Bool(true)) == Some([0x74, 0x72, 0x75, 0x65])
    ensures Canonicalize(Bool(false)) == Some([0x66, 0x61, 0x6C, 0x73, 0x65])
    ensures Canonicalize(Str(s)) == Some([0x22] + Escape(s) + [0x22])
    ensures Canonicalize(Undefined) == None && Canonicalize(NonFinite) == None && Canonicalize(Other) == None
  {
  }

  /** An array's items between brackets, with a comma and nothing else between two. */
  lemma {:induction false} ArrayTexts(first: Value, rest: seq<Value>)
    ensures Canonicalize(Arr([])) == Some([0x5B, 0x5D])
    ensures Canonicalize(Arr([first] + rest)) ==
            if Canonicalize(first) == None || Canonicalize(Arr(rest)) == None then None
            else if rest == [] then Some([0x5B] + Canonicalize(first).value + [0x5D])
            else Some([0x5B] + Canonicalize(first).value + [0x2C] + Canonicalize(Arr(rest)).value[1..])
  {
    assert CanonicalizeItems([]) == Some([]) && [0x5B] + Join([]) + [0x5D] == [0x5B, 0x5D];
    assert ([first] + rest)[1..] == rest;
    var parts := CanonicalizeItems(rest);
    if Canonicalize(first).Some? && parts.Some? {
      PartsOf(rest);
      if rest != [] { JoinedInBrackets(Canonicalize(first).value, parts.value); }
    }
  }

  lemma JoinedInBrackets(first: Text, parts: seq<Text>)
    requires parts != []
    ensures [0x5B] + Join([first] + parts) + [0x5D]
            == [0x5B] + first + [0x2C] + ([0x5B] + Join(parts) + [0x5D])[1..]
  {
    assert ([first] + parts)[1..] == parts;
    assert Join([first] + parts) == first + [0x2C] + Join(parts);
    assert ([0x5B] + Join(parts) + [0x5D])[1..] == Join(parts) + [0x5D];
  }

  lemma {:induction false} PartsOf(items: seq<Value>)
    requires CanonicalizeItems(items).Some?
    ensures |CanonicalizeItems(items).value| == |items|
  {
    if items != [] { PartsOf(items[1..]); }
  }

  /** One member: its key in quotation marks, a colon, its value. */
  lemma OneMemberText(key: Text, value: Value)
    requires !value.Undefined?
    ensures Canonicalize(Obj([])) == Some([0x7B, 0x7D])
    ensures Canonicalize(Obj([Member(key, value)])) ==
            if Canonicalize(value) == None then None
            else Some([0x7B] + ([0x22] + Escape(key) + [0x22] + [0x3A] + Canonicalize(value).value) + [0x7D])
  {
    assert CanonicalizeMembers([]) == Some([]) && Sort(PrintedLe, []) == [] && MemberTexts([]) == [];
    assert [0x7B] + Join([]) + [0x7D] == [0x7B, 0x7D];
    var members := [Member(key, value)];
    assert members[1..] == [];
    if Canonicalize(value).Some? {
      var p := Printed(key, Canonicalize(value).value);
      assert CanonicalizeMembers(members).value == [p];
      assert [p][..0] == [];
      assert Sort(PrintedLe, [p]) == [p];
    }
  }

  /** Several members, given in the order of their keys, with a comma and nothing else between two. */
  lemma ObjectTexts(key: Text, value: Value, rest: seq<Member>)
    requires !value.Undefined? && rest != [] && Canonicalize(value).Some? && CanonicalizeMembers(rest).Some?
    requires forall i :: 0 <= i < |rest| ==> !rest[i].value.Undefined? && TextLe(key, rest[i].key)
    requires forall i, j :: 0 <= i < j < |rest| ==> TextLe(rest[i].key, rest[j].key)
    ensures Canonicalize(Obj(rest)).Some?
    ensures Canonicalize(Obj([Member(key, value)] + rest)) ==
            Some([0x7B] + ([0x22] + Escape(key) + [0x22] + [0x3A] + Canonicalize(value).value) + [0x2C]
                 + Canonicalize(Obj(rest)).value[1..])
  {
    var all, p := [Member(key, value)] + rest, Printed(key, Canonicalize(value).value);
    var parts := CanonicalizeMembers(rest).value;
    PrintedInOrder(rest);
    assert all[1..] == rest && CanonicalizeMembers(all) == Some([p] + parts);
    SortedAlready(p, parts);
    JoinedInBraces(p, parts);
    PrintedObject(rest, parts);
    PrintedObject(all, [p] + parts);
  }

  lemma PrintedObject(members: seq<Member>, parts: seq<Printed>)
    requires CanonicalizeMembers(members) == Some(parts) && Sort(PrintedLe, parts) == parts
    ensures Canonicalize(Obj(members)) == Some([0x7B] + Join(MemberTexts(parts)) + [0x7D])
  {
  }

  lemma SortedAlready(p: Printed, parts: seq<Printed>)
    requires forall i :: 0 <= i < |parts| ==> TextLe(p.key, parts[i].key)
    requires forall i, j :: 0 <= i < j < |parts| ==> TextLe(parts[i].key, parts[j].key)
    ensures Sort(PrintedLe, parts) == parts && Sort(PrintedLe, [p] + parts) == [p] + parts
  {
    PrintedOrder();
    SortOfSorted(PrintedLe, parts);
    SortOfSorted(PrintedLe, [p] + parts);
  }

  lemma JoinedInBraces(p: Printed, parts: seq<Printed>)
    requires parts != []
    ensures [0x7B] + Join(MemberTexts([p] + parts)) + [0x7D]
            == [0x7B] + ([0x22] + Escape(p.key) + [0x22] + [0x3A] + p.text) + [0x2C]
               + ([0x7B] + Join(MemberTexts(parts)) + [0x7D])[1..]
  {
    var texts, all := MemberTexts(parts), Join(MemberTexts(parts));
    assert MemberTexts([p] + parts) == [MemberText(p)] + texts && ([MemberText(p)] + texts)[1..] == texts;
    assert Join([MemberText(p)] + texts) == MemberText(p) + [0x2C] + all;
    InBraces(MemberText(p), all);
  }

  lemma InBraces(first: Text, rest: Text)
    ensures [0x7B] + (first + [0x2C] + rest) + [0x7D] == [0x7B] + first + [0x2C] + ([0x7B] + rest + [0x7D])[1..]
  {
    assert ([0x7B] + rest + [0x7D])[1..] == rest + [0x7D];
  }

  lemma PrintedOrder()
    ensures TotalPreorder(PrintedLe)
  {
    forall x, y ensures PrintedLe(x, y) || PrintedLe(y, x) { TextLeTotal(x.key, y.key); }
    forall x, y, z | PrintedLe(x, y) && PrintedLe(y, z) ensures PrintedLe(x, z) {
      TextLeTransitive(x.key, y.key, z.key);
    }
  }

  lemma {:induction false} PrintedInOrder(members: seq<Member>)
    requires CanonicalizeMembers(members).Some?
    requires forall i :: 0 <= i < |members| ==> !members[i].value.Undefined?
    ensures |CanonicalizeMembers(members).value| == |members|
    ensures forall i :: 0 <= i < |members| ==> CanonicalizeMembers(members).value[i].key == members[i].key
  {
    if members != [] {
      PrintedInOrder(members[1..]);
      assert forall i :: 1 <= i < |members| ==> members[i] == members[1..][i - 1];
    }
  }

  /** The smaller key: shorter and a prefix, or with a smaller unit where they first differ. */
  ghost predicate IsBefore(a: Text, b: Text) {
    exists k :: 0 <= k <= |a| && k <= |b| && a[..k] == b[..k] && k < |b| && (k == |a| || a[k] < b[k])
  }

  lemma {:induction false} SmallerTexts(a: Text, b: Text)
    requires TextLe(a, b) && a != b
    ensures IsBefore(a, b)
  {
    if a != [] && a[0] == b[0] {
      assert a == [a[0]] + a[1..] && b == [b[0]] + b[1..];
      SmallerTexts(a[1..], b[1..]);
      var k :| 0 <= k <= |a[1..]| && k <= |b[1..]| && a[1..][..k] == b[1..][..k] && k < |b[1..]|
               && (k == |a[1..]| || a[1..][k] < b[1..][k]);
      assert a[..k + 1] == [a[0]] + a[1..][..k] && b[..k + 1] == [b[0]] + b[1..][..k];
      assert a[..k + 1] == b[..k + 1];
    } else {
      assert a[..0] == b[..0];
    }
  }

  /** The members of a signed object come in ascending order of their keys, by UTF-16 code units, and are those
      that are defined. */
  lemma KeysAscend(members: seq<Member>, i: nat, j: nat)
    requires DistinctMembers(members) && NormalForm(Obj(members)).Some?
    requires i < j < |NormalForm(Obj(members)).value.members|
    ensures var forms := NormalForm(Obj(members)).value.members; IsBefore(forms[i].key, forms[j].key)
  {
    var unsorted := NormalMembers(members).value;
    FormsOfMembers(members, JsonMember([], JNull));
    SortedKeysAscend(unsorted, i, j);
  }

  lemma SortedKeysAscend(unsorted: seq<JsonMember>, i: nat, j: nat)
    requires forall k, l :: 0 <= k < l < |unsorted| ==> unsorted[k].key != unsorted[l].key
    requires i < j < |Sort(JsonLe, unsorted)|
    ensures IsBefore(Sort(JsonLe, unsorted)[i].key, Sort(JsonLe, unsorted)[j].key)
  {
    var forms := Sort(JsonLe, unsorted);
    JsonOrder();
    SortIsStable(JsonLe, unsorted);
    KeysStayDistinct(unsorted, forms, i, j);
    assert JsonLe(forms[i], forms[j]);
    SmallerTexts(forms[i].key, forms[j].key);
  }

  lemma KeysStayDistinct(a: seq<JsonMember>, b: seq<JsonMember>, i: nat, j: nat)
    requires multiset(a) == multiset(b) && i < j < |b|
    requires forall k, l :: 0 <= k < l < |a| ==> a[k].key != a[l].key
    ensures b[i].key != b[j].key
  {
    assert b[i] in multiset(a) && b[j] in multiset(a);
    var k :| 0 <= k < |a| && a[k] == b[i];
    var l :| 0 <= l < |a| && a[l] == b[j];
    OnceIn(a, k);
    if k == l { TwiceIn(b, i, j); }
  }

  lemma OnceIn(a: seq<JsonMember>, k: nat)
    requires k < |a| && forall i, j :: 0 <= i < j < |a| ==> a[i].key != a[j].key
    ensures multiset(a)[a[k]] == 1
  {
    assert a == a[..k] + [a[k]] + a[k + 1..];
    assert a[k] !in a[..k] && a[k] !in a[k + 1..];
  }

  lemma TwiceIn(b: seq<JsonMember>, i: nat, j: nat)
    requires i < j < |b| && b[i] == b[j]
    ensures multiset(b)[b[i]] >= 2
  {
    assert b == b[..j] + [b[j]] + b[j + 1..];
    assert b[i] in b[..j];
  }

  // ---------------------------------------------------------------- numbers

  function Chars(ds: seq<Digit>): Text {
    var nought: CodeUnit := 0x30;
    seq(|ds|, i requires 0 <= i < |ds| => nought + ds[i])
  }

  function NoughtChars(n: nat): Text {
    seq(n, i => 0x30)
  }

  lemma SpelledChars(ds: seq<Digit>, n: nat)
    ensures Spell(ds) == Chars(ds) && Spell(Zeros(n)) == NoughtChars(n)
    ensures Spell(Zeros(n) + ds) == NoughtChars(n) + Chars(ds)
    ensures forall u :: u in Spell(ds) ==> 0x30 <= u <= 0x39
    ensures forall u :: u in Spell(Zeros(n) + ds) ==> 0x30 <= u <= 0x39
    ensures forall u :: u in Spell(Zeros(n)) ==> 0x30 <= u <= 0x39
  {
  }

  /** Without an exponent: an integer with its zeros, or digits on both sides of the point. */
  lemma PositionalTexts(ds: seq<Digit>, n: int)
    requires ds != [] && -6 < n <= 21
    ensures |ds| <= n ==> Layout(ds, n) == Chars(ds) + NoughtChars(n - |ds|)
    ensures 0 < n < |ds| ==> Layout(ds, n) == Chars(ds[..n]) + ([0x2E] + Chars(ds[n..]))
    ensures n <= 0 ==> Layout(ds, n) == [0x30] + ([0x2E] + (NoughtChars(-n) + Chars(ds)))
    ensures 0x65 !in Layout(ds, n)
  {
    if |ds| <= n {
      WholeText(ds, n);
    } else if 0 < n {
      PointedText(ds, n);
    } else {
      SmallText(ds, n);
    }
  }

  lemma WholeText(ds: seq<Digit>, n: int)
    requires ds != [] && |ds| <= n <= 21
    ensures Layout(ds, n) == Chars(ds) + NoughtChars(n - |ds|) && 0x65 !in Layout(ds, n)
  {
    SpelledChars(ds, n - |ds|);
  }

  lemma PointedText(ds: seq<Digit>, n: int)
    requires ds != [] && 0 < n < |ds| && n <= 21
    ensures Layout(ds, n) == Chars(ds[..n]) + ([0x2E] + Chars(ds[n..])) && 0x65 !in Layout(ds, n)
  {
    SpelledChars(ds[..n], 0);
    SpelledChars(ds[n..], 0);
  }

  lemma SmallText(ds: seq<Digit>, n: int)
    requires ds != [] && -6 < n <= 0
    ensures Layout(ds, n) == [0x30] + ([0x2E] + (NoughtChars(-n) + Chars(ds))) && 0x65 !in Layout(ds, n)
  {
    SpelledChars(ds, -n);
    assert Spell([0]) == [0x30];
  }

  /** With one: a digit, the others behind a point if there are any, `e`, a sign, and the power in full. */
  lemma ScientificTexts(ds: seq<Digit>, n: int)
    requires ds != [] && !(-6 < n <= 21)
    ensures var power: nat := if n > 0 then n - 1 else 1 - n;
            var tail := [0x65, if n > 0 then 0x2B else 0x2D] + Chars(Dec(power));
            && (|ds| == 1 ==> Layout(ds, n) == Chars(ds) + tail)
            && (|ds| > 1 ==> Layout(ds, n) == Chars(ds[..1]) + ([0x2E] + Chars(ds[1..]) + tail))
    ensures 0x65 in Layout(ds, n)
  {
    var power: nat := if n > 0 then n - 1 else 1 - n;
    SpelledChars(Dec(power), 0);
    SpelledChars(ds, 0);
    SpelledChars(ds[..1], 0);
    SpelledChars(ds[1..], 0);
    var tail := [0x65, if n > 0 then 0x2B else 0x2D] + Chars(Dec(power));
    assert Exponent(n - 1) == tail && 0x65 in tail;
  }

  /** Zero is written without a sign, a negative number with one in front of its positive. */
  lemma SignedTexts(d: Number)
    ensures d.digits == [] ==> NumberText(d) == [0x30]
    ensures d.digits != [] && !d.negative ==> NumberText(d) == Layout(d.digits, d.point)
    ensures d.digits != [] && d.negative ==> NumberText(d) == [0x2D] + Layout(d.digits, d.point)
  {
    if d.digits != [] { assert [] + Layout(d.digits, d.point) == Layout(d.digits, d.point); }
  }

  /** An exponent is written exactly from 1e21 on and below 1e-6. */
  lemma ExponentsExactly(d: Number)
    ensures 0x65 in NumberText(d)
            <==> QuantityOf(d) != 0.0 && (Abs(QuantityOf(d)) >= Ten(21) || Abs(QuantityOf(d)) < Ten(-6))
  {
    SizeIsPositive(d);
    SignedTexts(d);
    if d.digits != [] {
      if -6 < d.point <= 21 { PositionalTexts(d.digits, d.point); } else { ScientificTexts(d.digits, d.point); }
      PointBounds(d);
      PointAgainstPowers(d.point, SizeOf(d));
    }
  }

  lemma PointAgainstPowers(n: int, size: real)
    requires Ten(n - 1) <= size < Ten(n)
    ensures n > 21 <==> size >= Ten(21)
    ensures n <= -6 <==> size < Ten(-6)
  {
    var low, high := -6, 21;
    if n > high { TenGrows(high, n - 1 - high); } else { TenGrows(n, high - n); }
    if n <= low { TenGrows(n, low - n); } else { TenGrows(low, n - 1 - low); }
  }

  /** The point of a number tells between which powers of ten it lies. */
  lemma PointBounds(d: Number)
    requires d.digits != []
    ensures Ten(d.point - 1) <= SizeOf(d) < Ten(d.point)
  {
    var s, k, p := ValueOf(d.digits), |d.digits|, d.point - |d.digits|;
    ValueBound(d.digits);
    TenIsPositive(p);
    ScalingGrows(Pow10(k - 1), s, p);
    PowerScaled(k - 1, p);
    PowerScaled(k, p);
    ScalingGrows(s, Pow10(k), p);
    if Scaled(s, p) == Scaled(Pow10(k), p) { ScalingKeepsApart(s, Pow10(k), p); }
  }

  /** Bigints are written in all their digits. */
  lemma BigIntTexts(i: int)
    ensures i >= 0 ==> BigText(i) == Chars(Dec(i)) && ValueOf(Dec(i)) == i && (i > 0 ==> Dec(i)[0] != 0)
    ensures i < 0 ==> BigText(i) == [0x2D] + BigText(-i)
  {
    if i >= 0 {
      DecReads(i);
      assert Sign(false) + Spell(Dec(i)) == Spell(Dec(i));
    }
  }
}
