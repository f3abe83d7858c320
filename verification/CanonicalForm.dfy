/** What a signature over canonical text binds: the text and the value's normal form determine each
    other. */
module CanonicalForm {
  import opened Wrappers
  import opened StableSort
  import opened CanonicalText
  import opened Canonical

  // ---------------------------------------------------------------- key order

  lemma {:induction false} TextLeTotal(a: Text, b: Text)
    ensures TextLe(a, b) || TextLe(b, a)
    ensures TextLe(a, b) && TextLe(b, a) ==> a == b
  {
    if a != [] && b != [] {
      TextLeTotal(a[1..], b[1..]);
      assert a == [a[0]] + a[1..] && b == [b[0]] + b[1..];
    }
  }

  lemma {:induction false} TextLeTransitive(a: Text, b: Text, c: Text)
    requires TextLe(a, b) && TextLe(b, c)
    ensures TextLe(a, c)
  {
    if a != [] && a[0] == b[0] == c[0] { TextLeTransitive(a[1..], b[1..], c[1..]); }
  }

  lemma JsonOrder()
    ensures TotalPreorder(JsonLe)
  {
    forall x, y ensures JsonLe(x, y) || JsonLe(y, x) { TextLeTotal(x.key, y.key); }
    forall x, y, z | JsonLe(x, y) && JsonLe(y, z) ensures JsonLe(x, z) { TextLeTransitive(x.key, y.key, z.key); }
  }

  // ---------------------------------------------------------------- printing goes through the normal form

  lemma NumberPrints(n: Number)
    ensures NumberText(n) == RenderNumeral(NumberForm(n)) && IsNumeral(NumberForm(n))
  {
  }

  lemma BigPrints(i: int)
    ensures BigText(i) == RenderNumeral(BigForm(i)) && IsNumeral(BigForm(i))
  {
    if i == 0 {
      assert Normalise(false, [0], 1) == ZERO_VALUE;
    } else {
      var ds, negative := Dec(Size(i)), i < 0;
      BodyInFull(ds, negative);
      assert BigForm(i) == Numeral(Normalise(negative, ds, |ds|), |ds| > 21);
    }
  }

  lemma BodyInFull(ds: seq<Digit>, negative: bool)
    requires ds != [] && ds[0] != 0
    ensures var x := Numeral(Normalise(negative, ds, |ds|), |ds| > 21);
            IsNumeral(x) && x.value.digits != [] && x.value.negative == negative && Body(x) == Spell(ds)
  {
    StripsToSignificand(ds, negative);
    var r, n := StripTrailing(ds), |ds|;
    var x := Numeral(Decimal(negative, r, n), n > 21);
    assert n <= 21 ==> Layout(r, n) == Spell(r) + Spell(Zeros(n - |r|));
    assert Body(x) == Spell(ds);
  }

  lemma StripsToSignificand(ds: seq<Digit>, negative: bool)
    requires ds != [] && ds[0] != 0
    ensures var r := StripTrailing(ds);
            && r != [] && r[0] == ds[0] && |r| <= |ds|
            && Normalise(negative, ds, |ds|) == Decimal(negative, r, |ds|)
            && Spell(r) + Spell(Zeros(|ds| - |r|)) == Spell(ds)
  {
    var r := StripTrailing(ds);
    assert ds[0] == (r + Zeros(|ds| - |r|))[0];
    SpellConcat(r, Zeros(|ds| - |r|));
  }

  lemma {:induction false} InsertRendered(x: JsonMember, s: seq<JsonMember>)
    ensures Insert(PrintedLe, Printed(x.key, Render(x.value)), RenderMembers(s)) == RenderMembers(Insert(JsonLe, x, s))
  {
    RenderMembersAt(s);
    RenderMembersAt(Insert(JsonLe, x, s));
    RenderMembersAt(s + [x]);
    if s != [] {
      var init := s[..|s| - 1];
      RenderMembersAt(init);
      assert RenderMembers(init) == RenderMembers(s)[..|s| - 1];
      InsertRendered(x, init);
      RenderMembersAt(Insert(JsonLe, x, init));
      if JsonLe(s[|s| - 1], x) {
        assert RenderMembers(s + [x]) == RenderMembers(s) + [Printed(x.key, Render(x.value))];
      } else {
        assert RenderMembers(Insert(JsonLe, x, init) + [s[|s| - 1]])
               == RenderMembers(Insert(JsonLe, x, init)) + [Printed(s[|s| - 1].key, Render(s[|s| - 1].value))];
      }
    }
  }

  lemma {:induction false} SortRendered(s: seq<JsonMember>)
    ensures Sort(PrintedLe, RenderMembers(s)) == RenderMembers(Sort(JsonLe, s))
  {
    RenderMembersAt(s);
    if s != [] {
      var init := s[..|s| - 1];
      RenderMembersAt(init);
      assert RenderMembers(init) == RenderMembers(s)[..|s| - 1];
      SortRendered(init);
      InsertRendered(s[|s| - 1], Sort(JsonLe, init));
    }
  }

  /** The printer throws exactly when there is no normal form, and otherwise prints it. */
  lemma {:induction false} PrintsNormalForm(v: Value)
    ensures Canonicalize(v) == if NormalForm(v).None? then None else Some(Render(NormalForm(v).value))
    ensures NormalForm(v).Some? ==> Good(NormalForm(v).value)
    decreases v
  {
    match v
    case Num(n) => NumberPrints(n);
    case BigInt(i) => BigPrints(i);
    case Arr(items) => PrintsItems(items);
    case Obj(members) =>
      PrintsMembers(members);
      if NormalMembers(members).Some? {
        var forms := NormalMembers(members).value;
        SortRendered(forms);
        JsonOrder();
        SortIsStable(JsonLe, forms);
        forall i | 0 <= i < |Sort(JsonLe, forms)| ensures Good(Sort(JsonLe, forms)[i].value) {
          assert Sort(JsonLe, forms)[i] in multiset(forms);
        }
      }
    case _ =>
  }

  lemma {:induction false} PrintsItems(items: seq<Value>)
    ensures var forms := NormalItems(items);
            && CanonicalizeItems(items) == (if forms.None? then None else Some(RenderItems(forms.value)))
            && (forms.Some? ==> forall i :: 0 <= i < |forms.value| ==> Good(forms.value[i]))
    decreases items
  {
    if items != [] {
      PrintsNormalForm(items[0]);
      PrintsItems(items[1..]);
    }
  }

  lemma {:induction false} PrintsMembers(members: seq<Member>)
    ensures var forms := NormalMembers(members);
            && CanonicalizeMembers(members) == (if forms.None? then None else Some(RenderMembers(forms.value)))
            && (forms.Some? ==> forall i :: 0 <= i < |forms.value| ==> Good(forms.value[i].value))
    decreases members
  {
    if members != [] {
      if !members[0].value.Undefined? { PrintsNormalForm(members[0].value); }
      PrintsMembers(members[1..]);
    }
  }

  // ---------------------------------------------------------------- main results

  /** Any conforming reader of the signed text recovers the value's normal form. */
  lemma ParseUndoesCanonicalize(v: Value)
    requires Canonicalize(v).Some?
    ensures NormalForm(v).Some? && Parse(Canonicalize(v).value) == NormalForm(v)
  {
    PrintsNormalForm(v);
    var text := Canonicalize(v).value;
    ParseRendered(NormalForm(v).value, []);
    assert text + [] == text;
  }

  /** Two values are signed with the same text exactly when their normal forms agree. */
  lemma SameTextSameForm(v: Value, w: Value)
    requires Canonicalize(v).Some? && Canonicalize(w).Some?
    ensures Canonicalize(v) == Canonicalize(w) <==> NormalForm(v) == NormalForm(w)
  {
    ParseUndoesCanonicalize(v);
    ParseUndoesCanonicalize(w);
    PrintsNormalForm(v);
    PrintsNormalForm(w);
  }

  // ---------------------------------------------------------------- when printing fails

  /** No NaN, infinity, function or symbol, and `undefined` only as the value of a member. */
  predicate Representable(v: Value) {
    match v
    case Undefined => false
    case NonFinite => false
    case Other => false
    case Arr(items) => forall i :: 0 <= i < |items| ==> Representable(items[i])
    case Obj(members) =>
      forall i :: 0 <= i < |members| ==> members[i].value.Undefined? || Representable(members[i].value)
    case _ => true
  }

  lemma {:induction false} CanonicalizeSucceeds(v: Value)
    ensures Canonicalize(v).Some? <==> Representable(v)
    decreases v
  {
    match v
    case Arr(items) => ItemsSucceed(items);
    case Obj(members) => MembersSucceed(members);
    case _ =>
  }

  lemma {:induction false} ItemsSucceed(items: seq<Value>)
    ensures CanonicalizeItems(items).Some? <==> forall i :: 0 <= i < |items| ==> Representable(items[i])
    decreases items
  {
    if items != [] {
      CanonicalizeSucceeds(items[0]);
      ItemsSucceed(items[1..]);
      assert forall i :: 0 < i < |items| ==> items[i] == items[1..][i - 1];
    }
  }

  lemma {:induction false} MembersSucceed(members: seq<Member>)
    ensures CanonicalizeMembers(members).Some?
            <==> forall i :: 0 <= i < |members| ==> members[i].value.Undefined? || Representable(members[i].value)
    decreases members
  {
    if members != [] {
      CanonicalizeSucceeds(members[0].value);
      MembersSucceed(members[1..]);
      assert forall i :: 0 < i < |members| ==> members[i] == members[1..][i - 1];
    }
  }

  // ---------------------------------------------------------------- member order

  ghost predicate DistinctMembers(members: seq<Member>) {
    forall i, j :: 0 <= i < j < |members| ==> members[i].key != members[j].key
  }

  ghost predicate HasForm(members: seq<Member>, m: JsonMember) {
    exists i :: 0 <= i < |members| && !members[i].value.Undefined?
                && members[i].key == m.key && NormalForm(members[i].value) == Some(m.value)
  }

  lemma {:induction false} FormsOfMembers(members: seq<Member>, m: JsonMember)
    requires NormalMembers(members).Some?
    ensures m in NormalMembers(members).value <==> HasForm(members, m)
    ensures DistinctMembers(members) ==>
              forall i, j :: 0 <= i < j < |NormalMembers(members).value| ==>
                NormalMembers(members).value[i].key != NormalMembers(members).value[j].key
    ensures forall i :: 0 <= i < |NormalMembers(members).value| ==>
              exists k :: 0 <= k < |members| && members[k].key == NormalMembers(members).value[i].key
    decreases members
  {
    if members != [] {
      var tail := members[1..];
      FormsOfMembers(tail, m);
      assert forall i :: 0 <= i < |tail| ==> tail[i] == members[i + 1];
      var forms, rest := NormalMembers(members).value, NormalMembers(tail).value;
      if members[0].value.Undefined? {
        assert forms == rest;
      } else {
        assert forms == [JsonMember(members[0].key, NormalForm(members[0].value).value)] + rest;
      }
    }
  }

  lemma {:induction false} FormsExist(members: seq<Member>)
    ensures NormalMembers(members).Some?
            <==> forall i :: 0 <= i < |members| ==> members[i].value.Undefined? || NormalForm(members[i].value).Some?
    decreases members
  {
    if members != [] {
      FormsExist(members[1..]);
      assert forall i :: 1 <= i < |members| ==> members[i] == members[1..][i - 1];
    }
  }

  lemma KeysSeparate(forms: seq<JsonMember>)
    requires forall i, j :: 0 <= i < j < |forms| ==> forms[i].key != forms[j].key
    ensures NoTies(JsonLe, forms)
  {
    forall i, j | 0 <= i < j < |forms| ensures !Tied(JsonLe, forms[i], forms[j]) {
      TextLeTotal(forms[i].key, forms[j].key);
    }
  }

  lemma SameFormsSortAlike(a: seq<Member>, b: seq<Member>)
    requires DistinctMembers(a) && DistinctMembers(b) && NormalMembers(a).Some? && NormalMembers(b).Some?
    requires forall m :: HasForm(a, m) <==> HasForm(b, m)
    ensures Sort(JsonLe, NormalMembers(a).value) == Sort(JsonLe, NormalMembers(b).value)
  {
    var f, g := NormalMembers(a).value, NormalMembers(b).value;
    forall m ensures m in f <==> m in g {
      FormsOfMembers(a, m);
      FormsOfMembers(b, m);
    }
    FormsOfMembers(a, JsonMember([], JNull));
    FormsOfMembers(b, JsonMember([], JNull));
    KeysSeparate(f);
    KeysSeparate(g);
    JsonOrder();
    SortIgnoresOrder(JsonLe, f, g);
  }

  function KeysOf(members: seq<Member>): set<Text> {
    set m | m in members :: m.key
  }

  /** The same value but for the order in which the members of its objects were created, at any depth. */
  ghost predicate Reordered(v: Value, w: Value)
    decreases v
  {
    match v
    case Arr(items) =>
      w.Arr? && |items| == |w.items| && forall i :: 0 <= i < |items| ==> Reordered(items[i], w.items[i])
    case Obj(members) =>
      && w.Obj? && DistinctMembers(members) && DistinctMembers(w.members)
      && KeysOf(members) == KeysOf(w.members)
      && (forall i, j :: 0 <= i < |members| && 0 <= j < |w.members| && members[i].key == w.members[j].key ==>
            Reordered(members[i].value, w.members[j].value))
    case _ => v == w
  }

  ghost predicate SameForm(m: Member, n: Member) {
    m.key == n.key && NormalForm(m.value) == NormalForm(n.value) && (m.value.Undefined? <==> n.value.Undefined?)
  }

  /** Every member of one object has a counterpart in the other. */
  ghost predicate Covers(a: seq<Member>, b: seq<Member>) {
    forall i :: 0 <= i < |a| ==> HasCounterpart(b, a[i])
  }

  ghost predicate HasCounterpart(b: seq<Member>, m: Member) {
    exists j :: 0 <= j < |b| && SameForm(m, b[j])
  }

  lemma CoveredForms(a: seq<Member>, b: seq<Member>, m: JsonMember)
    requires Covers(a, b) && HasForm(a, m)
    ensures HasForm(b, m)
  {
    var i :| 0 <= i < |a| && !a[i].value.Undefined? && a[i].key == m.key && NormalForm(a[i].value) == Some(m.value);
    assert HasCounterpart(b, a[i]);
    var j :| 0 <= j < |b| && SameForm(a[i], b[j]);
    assert b[j].key == m.key;
  }

  lemma CoveredFormsExist(a: seq<Member>, b: seq<Member>)
    requires Covers(a, b) && NormalMembers(b).Some?
    ensures NormalMembers(a).Some?
  {
    FormsExist(a);
    FormsExist(b);
    forall i | 0 <= i < |a| ensures a[i].value.Undefined? || NormalForm(a[i].value).Some? {
      assert HasCounterpart(b, a[i]);
    }
  }

  lemma MatchingObjectsAgree(a: seq<Member>, b: seq<Member>)
    requires DistinctMembers(a) && DistinctMembers(b) && Covers(a, b) && Covers(b, a)
    ensures NormalForm(Obj(a)) == NormalForm(Obj(b))
  {
    if NormalMembers(a).Some? {
      CoveredFormsExist(b, a);
      forall m ensures HasForm(a, m) <==> HasForm(b, m) {
        if HasForm(a, m) { CoveredForms(a, b, m); }
        if HasForm(b, m) { CoveredForms(b, a, m); }
      }
      SameFormsSortAlike(a, b);
    } else if NormalMembers(b).Some? {
      CoveredFormsExist(a, b);
    }
  }

  lemma {:induction false} SameItemForms(items: seq<Value>, others: seq<Value>)
    requires |items| == |others| && forall i :: 0 <= i < |items| ==> NormalForm(items[i]) == NormalForm(others[i])
    ensures NormalItems(items) == NormalItems(others)
  {
    if items != [] { SameItemForms(items[1..], others[1..]); }
  }

  lemma {:induction false} ReorderedValuesHaveOneForm(v: Value, w: Value)
    requires Reordered(v, w)
    ensures NormalForm(v) == NormalForm(w) && (v.Undefined? <==> w.Undefined?)
    decreases v
  {
    match v
    case Arr(items) =>
      forall i | 0 <= i < |items| ensures NormalForm(items[i]) == NormalForm(w.items[i]) {
        ReorderedValuesHaveOneForm(items[i], w.items[i]);
      }
      SameItemForms(items, w.items);
    case Obj(members) =>
      forall i, j | 0 <= i < |members| && 0 <= j < |w.members| && members[i].key == w.members[j].key
        ensures SameForm(members[i], w.members[j])
      {
        ReorderedValuesHaveOneForm(members[i].value, w.members[j].value);
      }
      SameKeysCover(members, w.members);
      SameKeysCover(w.members, members);
      MatchingObjectsAgree(members, w.members);
    case _ =>
  }

  lemma SameKeysCover(a: seq<Member>, b: seq<Member>)
    requires KeysOf(a) == KeysOf(b)
    requires forall i, j :: 0 <= i < |a| && 0 <= j < |b| && a[i].key == b[j].key ==> SameForm(a[i], b[j])
    ensures Covers(a, b)
  {
    forall i | 0 <= i < |a| ensures HasCounterpart(b, a[i]) {
      assert a[i].key in KeysOf(a);
      var n :| n in b && n.key == a[i].key;
      var j :| 0 <= j < |b| && b[j] == n;
      assert SameForm(a[i], b[j]);
    }
  }

  /** The text does not depend on the order in which the members of objects were created, at any depth. */
  lemma MemberOrderIsIrrelevant(v: Value, w: Value)
    requires Reordered(v, w)
    ensures Canonicalize(v) == Canonicalize(w)
  {
    ReorderedValuesHaveOneForm(v, w);
    PrintsNormalForm(v);
    PrintsNormalForm(w);
  }

  function Defined(members: seq<Member>): seq<Member> {
    if members == [] then []
    else if members[0].value.Undefined? then Defined(members[1..]) else [members[0]] + Defined(members[1..])
  }

  /** An object is signed as if its undefined members were not there; nothing rejects them. */
  lemma {:induction false} UndefinedMembersAreDropped(members: seq<Member>)
    ensures CanonicalizeMembers(members) == CanonicalizeMembers(Defined(members))
    ensures Canonicalize(Obj(members)) == Canonicalize(Obj(Defined(members)))
  {
    if members != [] { UndefinedMembersAreDropped(members[1..]); }
  }
}
