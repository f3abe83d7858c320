/** What the canonical text says of a whole value: the same quantities in the same places. */
module CanonicalValues {
  import opened Wrappers
  import opened StableSort
  import opened CanonicalText
  import opened Canonical
  import opened CanonicalForm
  import opened Doubles
  import opened CanonicalNumbers

  /** The quantity of a number or a bigint. Minus zero and zero are one. */
  ghost predicate Means(notation: real -> Number, v: Value, q: real) {
    match v
    case Num(n) => IsDouble(q) && NumberForm(n).value == notation(q)
    case BigInt(i) => q == i as real
    case _ => false
  }

  ghost predicate SameNumber(notation: real -> Number, v: Value, w: Value) {
    exists q :: Means(notation, v, q) && Means(notation, w, q)
  }

  /** Numbers are written as JavaScript writes some double, keys of an object differ, and no bigint's text is
      ambiguous, at any depth. */
  ghost predicate IsUnambiguous(notation: real -> Number, v: Value) {
    match v
    case Num(n) => exists q :: Means(notation, v, q)
    case BigInt(i) => StandsForItself(notation, i)
    case Arr(items) => forall i :: 0 <= i < |items| ==> IsUnambiguous(notation, items[i])
    case Obj(members) =>
      DistinctMembers(members) && forall i :: 0 <= i < |members| ==> IsUnambiguous(notation, members[i].value)
    case _ => true
  }

  function DefinedKeys(members: seq<Member>): set<Text> {
    set m | m in members && !m.value.Undefined? :: m.key
  }

  /** Equal as data: numbers and bigints by quantity, arrays item by item, objects key by key with undefined
      members left out. */
  ghost predicate SameValue(notation: real -> Number, v: Value, w: Value)
    decreases v
  {
    match v
    case Num(_) => SameNumber(notation, v, w)
    case BigInt(_) => SameNumber(notation, v, w)
    case Arr(items) =>
      && w.Arr? && |items| == |w.items|
      && forall i :: 0 <= i < |items| ==> SameValue(notation, items[i], w.items[i])
    case Obj(members) =>
      && w.Obj? && DefinedKeys(members) == DefinedKeys(w.members)
      && forall i, j :: 0 <= i < |members| && 0 <= j < |w.members| && Correspond(members[i], w.members[j]) ==>
           SameValue(notation, members[i].value, w.members[j].value)
    case _ => v == w
  }

  predicate Correspond(m: Member, n: Member) {
    m.key == n.key && !m.value.Undefined? && !n.value.Undefined?
  }

  // ---------------------------------------------------------------- numbers

  lemma NumbersMeanOneQuantity(notation: real -> Number, v: Value, q: real, r: real)
    requires PrintsNumbers(notation) && Means(notation, v, q) && Means(notation, v, r)
    ensures q == r
  {
    if v.Num? { RoundingIsUnique(QuantityOf(notation(q)), q, r); }
  }

  lemma BigIntAgainstNumber(notation: real -> Number, i: int, n: Number, q: real)
    requires PrintsNumbers(notation) && StandsForItself(notation, i) && Means(notation, Num(n), q)
    ensures BigForm(i) == NumberForm(n) <==> q == i as real
  {
    NumberPrints(n);
    NumberPrints(notation(q));
    BigPrints(i);
    OneReading(BigForm(i), NumberForm(n));
    OneReading(BigForm(i), NumberForm(notation(q)));
    assert NumberForm(n) == NumberForm(notation(q));
  }

  lemma BigIntsDiffer(i: int, j: int)
    requires BigForm(i) == BigForm(j)
    ensures i == j
  {
    DecimalOfIsExact(i);
    DecimalOfIsExact(j);
  }

  lemma SomeQuantity(notation: real -> Number, v: Value) returns (q: real)
    requires IsUnambiguous(notation, v) && (v.Num? || v.BigInt?)
    ensures Means(notation, v, q)
  {
    if v.BigInt? {
      q := v.i as real;
    } else {
      q :| Means(notation, v, q);
    }
  }

  /** Unambiguous numbers and bigints have one form exactly when they are one quantity. */
  lemma SameFormSameNumber(notation: real -> Number, v: Value, w: Value)
    requires PrintsNumbers(notation) && IsUnambiguous(notation, v) && IsUnambiguous(notation, w)
    requires (v.Num? || v.BigInt?) && (w.Num? || w.BigInt?)
    ensures NormalForm(v) == NormalForm(w) <==> SameNumber(notation, v, w)
  {
    var q := SomeQuantity(notation, v);
    var r := SomeQuantity(notation, w);
    if SameNumber(notation, v, w) {
      var both: real :| Means(notation, v, both) && Means(notation, w, both);
      NumbersMeanOneQuantity(notation, v, both, q);
      NumbersMeanOneQuantity(notation, w, both, r);
    }
    assert q == r ==> SameNumber(notation, v, w);
    if v.BigInt? && w.BigInt? {
      if BigForm(v.i) == BigForm(w.i) { BigIntsDiffer(v.i, w.i); }
    } else if v.BigInt? {
      BigIntAgainstNumber(notation, v.i, w.n, r);
    } else if w.BigInt? {
      BigIntAgainstNumber(notation, w.i, v.n, q);
    } else {
      if NumberForm(v.n) == NumberForm(w.n) { NumbersMeanOneQuantity(notation, v, q, r); }
    }
  }

  // ---------------------------------------------------------------- arrays and objects

  lemma {:induction false} ItemForms(items: seq<Value>)
    requires NormalItems(items).Some?
    ensures |NormalItems(items).value| == |items|
    ensures forall i :: 0 <= i < |items| ==> NormalForm(items[i]) == Some(NormalItems(items).value[i])
  {
    if items != [] {
      ItemForms(items[1..]);
      assert forall i :: 1 <= i < |items| ==> items[i] == items[1..][i - 1];
    }
  }

  lemma FormOfMember(members: seq<Member>, i: nat) returns (m: JsonMember)
    requires NormalMembers(members).Some? && i < |members| && !members[i].value.Undefined?
    ensures m.key == members[i].key && NormalForm(members[i].value) == Some(m.value) && HasForm(members, m)
  {
    FormsExist(members);
    m := JsonMember(members[i].key, NormalForm(members[i].value).value);
  }

  lemma SortedAlikeSameForms(a: seq<Member>, b: seq<Member>, m: JsonMember)
    requires NormalMembers(a).Some? && NormalMembers(b).Some?
    requires Sort(JsonLe, NormalMembers(a).value) == Sort(JsonLe, NormalMembers(b).value)
    ensures HasForm(a, m) <==> HasForm(b, m)
  {
    var f, g := NormalMembers(a).value, NormalMembers(b).value;
    JsonOrder();
    SortIsStable(JsonLe, f);
    SortIsStable(JsonLe, g);
    assert multiset(f) == multiset(g);
    assert m in f <==> m in multiset(f);
    assert m in g <==> m in multiset(g);
    FormsOfMembers(a, m);
    FormsOfMembers(b, m);
  }

  /** Of two objects with one form, corresponding members have one form. */
  lemma MembersOfOneForm(a: seq<Member>, b: seq<Member>, i: nat, j: nat)
    requires NormalMembers(a).Some? && NormalMembers(b).Some? && DistinctMembers(b)
    requires Sort(JsonLe, NormalMembers(a).value) == Sort(JsonLe, NormalMembers(b).value)
    requires i < |a| && j < |b| && Correspond(a[i], b[j])
    ensures NormalForm(a[i].value) == NormalForm(b[j].value)
  {
    var m := FormOfMember(a, i);
    SortedAlikeSameForms(a, b, m);
    var k :| 0 <= k < |b| && !b[k].value.Undefined? && b[k].key == m.key && NormalForm(b[k].value) == Some(m.value);
    assert k == j;
  }

  lemma KeysOfOneForm(a: seq<Member>, b: seq<Member>)
    requires NormalMembers(a).Some? && NormalMembers(b).Some?
    requires Sort(JsonLe, NormalMembers(a).value) == Sort(JsonLe, NormalMembers(b).value)
    ensures DefinedKeys(a) <= DefinedKeys(b)
  {
    forall key | key in DefinedKeys(a) ensures key in DefinedKeys(b) {
      var x :| x in a && !x.value.Undefined? && x.key == key;
      var i :| 0 <= i < |a| && a[i] == x;
      var m := FormOfMember(a, i);
      SortedAlikeSameForms(a, b, m);
      var k :| 0 <= k < |b| && !b[k].value.Undefined? && b[k].key == m.key && NormalForm(b[k].value) == Some(m.value);
      assert b[k] in b;
    }
  }

  /** Objects whose defined keys agree and whose corresponding members have one form have one form. */
  lemma OneFormOfMembers(a: seq<Member>, b: seq<Member>, m: JsonMember)
    requires DefinedKeys(a) <= DefinedKeys(b)
    requires forall i, j :: 0 <= i < |a| && 0 <= j < |b| && Correspond(a[i], b[j]) ==>
               NormalForm(a[i].value) == NormalForm(b[j].value)
    requires HasForm(a, m)
    ensures HasForm(b, m)
  {
    var i :| 0 <= i < |a| && !a[i].value.Undefined? && a[i].key == m.key && NormalForm(a[i].value) == Some(m.value);
    assert a[i] in a && a[i].key in DefinedKeys(a);
    var y :| y in b && !y.value.Undefined? && y.key == m.key;
    var j :| 0 <= j < |b| && b[j] == y;
    assert Correspond(a[i], b[j]);
  }

  // ---------------------------------------------------------------- values

  lemma {:induction false} SameFormSameValue(notation: real -> Number, v: Value, w: Value)
    requires PrintsNumbers(notation) && IsUnambiguous(notation, v) && IsUnambiguous(notation, w)
    requires NormalForm(v).Some? && NormalForm(w).Some?
    ensures NormalForm(v) == NormalForm(w) <==> SameValue(notation, v, w)
    decreases v
  {
    match v
    case Num(_) => if w.Num? || w.BigInt? { SameFormSameNumber(notation, v, w); }
    case BigInt(_) => if w.Num? || w.BigInt? { SameFormSameNumber(notation, v, w); }
    case Arr(items) => if w.Arr? { SameFormSameItems(notation, items, w.items); }
    case Obj(members) => if w.Obj? { SameFormSameMembers(notation, members, w.members); }
    case _ =>
  }

  lemma {:induction false} SameFormSameItems(notation: real -> Number, a: seq<Value>, b: seq<Value>)
    requires PrintsNumbers(notation) && IsUnambiguous(notation, Arr(a)) && IsUnambiguous(notation, Arr(b))
    requires NormalItems(a).Some? && NormalItems(b).Some?
    ensures NormalItems(a) == NormalItems(b)
            <==> |a| == |b| && forall i :: 0 <= i < |a| ==> SameValue(notation, a[i], b[i])
    decreases a
  {
    ItemForms(a);
    ItemForms(b);
    if |a| == |b| {
      forall i | 0 <= i < |a|
        ensures NormalItems(a).value[i] == NormalItems(b).value[i] <==> SameValue(notation, a[i], b[i])
      {
        SameFormSameValue(notation, a[i], b[i]);
      }
      assert NormalItems(a).value == NormalItems(b).value
             <==> forall i :: 0 <= i < |a| ==> NormalItems(a).value[i] == NormalItems(b).value[i];
    }
  }

  lemma {:induction false} SameFormSameMembers(notation: real -> Number, a: seq<Member>, b: seq<Member>)
    requires PrintsNumbers(notation) && IsUnambiguous(notation, Obj(a)) && IsUnambiguous(notation, Obj(b))
    requires NormalMembers(a).Some? && NormalMembers(b).Some?
    ensures Sort(JsonLe, NormalMembers(a).value) == Sort(JsonLe, NormalMembers(b).value)
            <==> SameValue(notation, Obj(a), Obj(b))
    decreases a
  {
    FormsExist(a);
    FormsExist(b);
    forall i, j | 0 <= i < |a| && 0 <= j < |b| && Correspond(a[i], b[j])
      ensures NormalForm(a[i].value) == NormalForm(b[j].value) <==> SameValue(notation, a[i].value, b[j].value)
    {
      SameFormSameValue(notation, a[i].value, b[j].value);
    }
    if Sort(JsonLe, NormalMembers(a).value) == Sort(JsonLe, NormalMembers(b).value) {
      KeysOfOneForm(a, b);
      KeysOfOneForm(b, a);
      forall i, j | 0 <= i < |a| && 0 <= j < |b| && Correspond(a[i], b[j])
        ensures SameValue(notation, a[i].value, b[j].value)
      {
        MembersOfOneForm(a, b, i, j);
      }
    }
    if SameValue(notation, Obj(a), Obj(b)) {
      forall m ensures HasForm(a, m) <==> HasForm(b, m) {
        if HasForm(a, m) { OneFormOfMembers(a, b, m); }
        if HasForm(b, m) { OneFormOfMembers(b, a, m); }
      }
      SameFormsSortAlike(a, b);
    }
  }

  /** Two values without ambiguous bigints are signed with the same text exactly when they are equal as data. */
  lemma SameTextSameValue(notation: real -> Number, v: Value, w: Value)
    requires PrintsNumbers(notation) && IsUnambiguous(notation, v) && IsUnambiguous(notation, w)
    requires Canonicalize(v).Some? && Canonicalize(w).Some?
    ensures Canonicalize(v) == Canonicalize(w) <==> SameValue(notation, v, w)
  {
    SameTextSameForm(v, w);
    PrintsNormalForm(v);
    PrintsNormalForm(w);
    SameFormSameValue(notation, v, w);
  }

  // ---------------------------------------------------------------- how far it goes

  /** No bigint beyond two to the 53rd, and numbers as JavaScript writes them, at any depth. */
  ghost predicate IsSafe(notation: real -> Number, v: Value) {
    match v
    case Num(n) => exists q :: Means(notation, v, q)
    case BigInt(i) => -0x20_0000_0000_0000 <= i <= 0x20_0000_0000_0000
    case Arr(items) => forall i :: 0 <= i < |items| ==> IsSafe(notation, items[i])
    case Obj(members) =>
      DistinctMembers(members) && forall i :: 0 <= i < |members| ==> IsSafe(notation, members[i].value)
    case _ => true
  }

  lemma {:induction false} SafeValuesAreUnambiguous(notation: real -> Number, v: Value)
    requires PrintsNumbers(notation) && IsSafe(notation, v)
    ensures IsUnambiguous(notation, v)
    decreases v
  {
    match v
    case BigInt(i) => SafeIntegersStandForThemselves(notation, i);
    case Arr(items) =>
      forall i | 0 <= i < |items| ensures IsUnambiguous(notation, items[i]) {
        SafeValuesAreUnambiguous(notation, items[i]);
      }
    case Obj(members) =>
      forall i | 0 <= i < |members| ensures IsUnambiguous(notation, members[i].value) {
        SafeValuesAreUnambiguous(notation, members[i].value);
      }
    case _ =>
  }

  lemma SameAsNumber(notation: real -> Number, i: int, x: real)
    requires PrintsNumbers(notation) && IsDouble(x)
    ensures SameValue(notation, BigInt(i), Num(notation(x))) <==> x == i as real
  {
    assert NumberForm(notation(x)).value == notation(x);
    assert Means(notation, Num(notation(x)), x);
    if SameNumber(notation, BigInt(i), Num(notation(x))) {
      var q: real :| Means(notation, BigInt(i), q) && Means(notation, Num(notation(x)), q);
      NumbersMeanOneQuantity(notation, Num(notation(x)), q, x);
    }
    if x == i as real { assert Means(notation, BigInt(i), x); }
  }

  /** And no further: the text of an ambiguous bigint is mistaken for, or told from, the wrong number. */
  lemma AmbiguityShows(notation: real -> Number, i: int)
    requires PrintsNumbers(notation)
    ensures StandsForItself(notation, i) <==>
            forall x :: IsDouble(x) ==>
              (Canonicalize(BigInt(i)) == Canonicalize(Num(notation(x)))
               <==> SameValue(notation, BigInt(i), Num(notation(x))))
  {
    forall x | IsDouble(x)
      ensures SameValue(notation, BigInt(i), Num(notation(x))) <==> x == i as real
      ensures Canonicalize(BigInt(i)) == Canonicalize(Num(notation(x))) <==> NumberText(notation(x)) == BigText(i)
    {
      SameAsNumber(notation, i, x);
    }
  }
}
